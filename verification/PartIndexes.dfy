/** Boundaries of a finalized cache's parts (internal/cache/part_index.go). */
module PartIndexes {
  import opened Int64
  import opened Sequences

  /** ends[i] is the offset just behind part i. */
  datatype PartIndex = PartIndex(ends: seq<int64>, total: int64) {
    function Start(part: nat): int64
      requires part <= |ends|
    {
      if part == 0 then 0 else ends[part - 1]
    }

    /** The source computes this difference in int64, where it cannot overflow
        because the ends of an index are not negative. */
    function Size(part: nat): int
      requires part < |ends|
    {
      ends[part] - Start(part)
    }

    /** The index of parts with these sizes. */
    ghost predicate Describes(sizes: seq<int>) {
      && |ends| == |sizes|
      && (forall i :: 0 <= i < |sizes| ==> sizes[i] >= 0)
      && (forall i :: 0 <= i < |ends| ==> ends[i] == Sum(sizes[..i + 1]))
      && total == Sum(sizes)
    }
  }

  datatype IndexResult = Indexed(index: PartIndex) | InvalidPart(part: nat)

  /** Part `i` is the one that makes the index impossible. */
  ghost predicate FirstInvalid(sizes: seq<int>, i: nat) {
    && i < |sizes|
    && (forall k :: 0 <= k < i ==> sizes[k] >= 0)
    && Sum(sizes[..i]) <= MAX_INT64
    && (sizes[i] < 0 || Sum(sizes[..i + 1]) > MAX_INT64)
  }

  ghost predicate Indexable(sizes: seq<int>) {
    (forall i :: 0 <= i < |sizes| ==> sizes[i] >= 0) && Sum(sizes) <= MAX_INT64
  }

  lemma TotalDominates(sizes: seq<int>, k: nat)
    requires k <= |sizes| && forall i :: 0 <= i < |sizes| ==> sizes[i] >= 0
    ensures 0 <= Sum(sizes[..k]) <= Sum(sizes)
  {
    SumMonotone(sizes, 0, k);
    SumMonotone(sizes, k, |sizes|);
    assert sizes[..|sizes|] == sizes;
  }

  method NewPartIndex(sizes: seq<int64>) returns (r: IndexResult)
    ensures r.Indexed? <==> Indexable(sizes)
    ensures r.Indexed? ==> r.index.Describes(sizes)
    ensures r.InvalidPart? ==> FirstInvalid(sizes, r.part)
  {
    var ends := new int64[|sizes|];
    var total: int64 := 0;
    for part := 0 to |sizes|
      invariant forall k :: 0 <= k < part ==> sizes[k] >= 0
      invariant total == Sum(sizes[..part]) >= 0
      invariant forall k :: 0 <= k < part ==> ends[k] == Sum(sizes[..k + 1])
    {
      assert sizes[..part + 1] == sizes[..part] + [sizes[part]];
      SumSnoc(sizes[..part], sizes[part]);
      if sizes[part] < 0 || total > MAX_INT64 - sizes[part] {
        if forall k :: 0 <= k < |sizes| ==> sizes[k] >= 0 {
          TotalDominates(sizes, part + 1);
        }
        return InvalidPart(part);
      }
      total := total + sizes[part];
      ends[part] := total;
    }
    assert sizes[..|sizes|] == sizes;
    return Indexed(PartIndex(ends[..], total));
  }

  lemma StartsAreSums(index: PartIndex, sizes: seq<int>, part: nat)
    requires index.Describes(sizes) && part <= |sizes|
    ensures index.Start(part) == Sum(sizes[..part])
    ensures 0 <= index.Start(part) <= index.total
    ensures part < |sizes| ==> index.Size(part) == sizes[part]
  {
    TotalDominates(sizes, part);
    if part < |sizes| {
      assert sizes[..part + 1] == sizes[..part] + [sizes[part]];
      SumSnoc(sizes[..part], sizes[part]);
    }
  }

  /** Where an offset lies: in the only part whose half-open byte interval
      contains it, or behind the last part. */
  ghost predicate Located(index: PartIndex, offset: int, part: nat, partOffset: int) {
    && part <= |index.ends|
    && (part < |index.ends| ==>
          index.Start(part) <= offset < index.ends[part] && partOffset == offset - index.Start(part))
    && (part == |index.ends| ==> partOffset == 0 && forall k :: 0 <= k < part ==> index.ends[k] <= offset)
  }

  /** Go's sort.Search over the part ends. */
  method Locate(index: PartIndex, offset: int64, ghost sizes: seq<int>) returns (part: nat, partOffset: int64)
    requires index.Describes(sizes) && offset >= 0
    ensures Located(index, offset, part, partOffset)
    ensures offset < index.total ==> part < |index.ends|
  {
    var i, j := 0, |index.ends|;
    while i < j
      invariant 0 <= i <= j <= |index.ends|
      invariant forall k :: 0 <= k < i ==> index.ends[k] <= offset
      invariant forall k :: j <= k < |index.ends| ==> index.ends[k] > offset
    {
      var h := (i + j) / 2;
      if index.ends[h] > offset {
        forall k | h <= k < |index.ends|
          ensures index.ends[k] > offset
        {
          SumMonotone(sizes, h + 1, k + 1);
        }
        j := h;
      } else {
        forall k | 0 <= k <= h
          ensures index.ends[k] <= offset
        {
          SumMonotone(sizes, k + 1, h + 1);
        }
        i := h + 1;
      }
    }
    part := i;
    if part == |index.ends| {
      partOffset := 0;
      if part > 0 {
        assert sizes[..part] == sizes;
        assert index.ends[part - 1] == index.total;
      }
      return;
    }
    StartsAreSums(index, sizes, part);
    var start: int64 := 0;
    if part > 0 {
      start := index.ends[part - 1];
    }
    partOffset := offset - start;
  }
}
