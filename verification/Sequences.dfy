/** Concatenation and sums of sequences, and the pigeonhole principle. */
module Sequences {
  function Flatten<T>(parts: seq<seq<T>>): seq<T> {
    if parts == [] then [] else parts[0] + Flatten(parts[1..])
  }

  lemma {:induction false} FlattenAppend<T>(a: seq<seq<T>>, b: seq<seq<T>>)
    ensures Flatten(a + b) == Flatten(a) + Flatten(b)
  {
    if a == [] {
      assert a + b == b;
    } else {
      assert (a + b)[1..] == a[1..] + b;
      FlattenAppend(a[1..], b);
    }
  }

  lemma FlattenSnoc<T>(a: seq<seq<T>>, last: seq<T>)
    ensures Flatten(a + [last]) == Flatten(a) + last
  {
    FlattenAppend(a, [last]);
    assert Flatten([last]) == last;
  }

  /** Some whole pieces and a part of the next one. */
  lemma DeliveredIsPrefix<T>(stored: seq<seq<T>>, finished: nat, tail: seq<T>)
    requires finished <= |stored|
    requires tail != [] ==> finished < |stored| && tail <= stored[finished]
    ensures Flatten(stored[..finished]) + tail <= Flatten(stored)
  {
    assert stored == stored[..finished] + stored[finished..];
    FlattenAppend(stored[..finished], stored[finished..]);
  }

  function Sum(xs: seq<int>): int {
    if xs == [] then 0 else xs[0] + Sum(xs[1..])
  }

  lemma {:induction false} SumAppend(a: seq<int>, b: seq<int>)
    ensures Sum(a + b) == Sum(a) + Sum(b)
  {
    if a == [] {
      assert a + b == b;
    } else {
      assert (a + b)[1..] == a[1..] + b;
      SumAppend(a[1..], b);
    }
  }

  lemma SumSnoc(a: seq<int>, last: int)
    ensures Sum(a + [last]) == Sum(a) + last
  {
    SumAppend(a, [last]);
  }

  lemma {:induction false} SumNonNegative(xs: seq<int>)
    requires forall k :: 0 <= k < |xs| ==> xs[k] >= 0
    ensures Sum(xs) >= 0
  {
    if xs != [] {
      SumNonNegative(xs[1..]);
    }
  }

  lemma SumMonotone(xs: seq<int>, i: nat, j: nat)
    requires i <= j <= |xs|
    requires forall k :: 0 <= k < |xs| ==> xs[k] >= 0
    ensures Sum(xs[..i]) <= Sum(xs[..j])
  {
    assert xs[..j] == xs[..i] + xs[i..j];
    SumAppend(xs[..i], xs[i..j]);
    SumNonNegative(xs[i..j]);
  }

  function Lengths<T>(parts: seq<seq<T>>): seq<int> {
    seq(|parts|, i requires 0 <= i < |parts| => |parts[i]|)
  }

  lemma {:induction false} FlattenLength<T>(parts: seq<seq<T>>)
    ensures |Flatten(parts)| == Sum(Lengths(parts))
  {
    if parts != [] {
      FlattenLength(parts[1..]);
      assert Lengths(parts)[1..] == Lengths(parts[1..]);
    }
  }

  function Elements<T>(s: seq<T>): set<T> {
    set x <- s
  }

  ghost predicate Distinct<T>(s: seq<T>) {
    forall i, j :: 0 <= i < j < |s| ==> s[i] != s[j]
  }

  lemma {:induction false} DistinctCardinality<T>(s: seq<T>)
    requires Distinct(s)
    ensures |Elements(s)| == |s|
  {
    if s != [] {
      DistinctCardinality(s[1..]);
      assert Elements(s) == {s[0]} + Elements(s[1..]);
    }
  }

  lemma SubsetCardinality<T>(a: set<T>, b: set<T>)
    requires a <= b
    ensures |a| <= |b|
  {
    assert b == a + (b - a);
  }

  lemma Pigeonhole<T>(s: seq<T>, universe: set<T>)
    requires forall x <- s :: x in universe
    requires |s| > |universe|
    ensures !Distinct(s)
  {
    if Distinct(s) {
      DistinctCardinality(s);
      SubsetCardinality(Elements(s), universe);
      assert false;
    }
  }

  lemma {:induction false} HasLeast(ids: set<nat>, some: nat)
    requires some in ids
    ensures exists m :: m in ids && forall x <- ids :: m <= x
    decreases some
  {
    if smaller :| smaller in ids && smaller < some {
      HasLeast(ids, smaller);
    }
  }

  function Least(ids: set<nat>): (m: nat)
    requires ids != {}
    ensures m in ids && forall x <- ids :: m <= x
  {
    var some :| some in ids;
    HasLeast(ids, some);
    var m :| m in ids && forall x <- ids :: m <= x; m
  }

  /** The least `limit` of the ids, in order. */
  ghost predicate IsPageOf(ids: set<nat>, limit: nat, page: seq<nat>) {
    && |page| <= limit
    && (forall i :: 0 <= i < |page| ==> page[i] in ids)
    && (forall i, j :: 0 <= i < j < |page| ==> page[i] < page[j])
    && (forall id <- ids :: id in page || (|page| == limit && forall i :: 0 <= i < |page| ==> page[i] < id))
  }

  /** A query ordered by id with a limit. */
  method PageOf(ids: set<nat>, limit: nat) returns (page: seq<nat>)
    ensures IsPageOf(ids, limit, page)
  {
    var left := ids;
    page := [];
    while left != {} && |page| < limit
      invariant |page| <= limit && left <= ids
      invariant forall i :: 0 <= i < |page| ==> page[i] in ids
      invariant forall i, j :: 0 <= i < j < |page| ==> page[i] < page[j]
      invariant forall i, x :: 0 <= i < |page| && x in left ==> page[i] < x
      invariant forall id <- ids :: id in page || id in left
      decreases |left|
    {
      var m := Least(left);
      page := page + [m];
      left := left - {m};
    }
  }
}
