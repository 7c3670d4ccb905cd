/** Brent's constant-memory cycle detector (internal/storage/s3.go). */
module CycleDetection {
  import opened Int64

  // Doubling stops here: 2^63 is the largest power below 2^64.
  const TOP_POWER := 0x8000_0000_0000_0000

  /** The checkpoint in force while one value is compared: its index in the
      observed sequence and how many later values are compared with it. */
  datatype Phase = Phase(checkpoint: nat, power: nat)

  function Doubled(power: nat): nat {
    if power <= (TWO_TO_THE_64 - 1) / 2 then power * 2 else power
  }

  /** The phase in force when the value with index `j` is compared, as long as
      nothing was reported before. It does not depend on the values. */
  function PhaseAt(j: nat): Phase
    requires j >= 1
  {
    if j == 1 then Phase(0, 1)
    else
      var p := PhaseAt(j - 1);
      if j - 1 == p.checkpoint + p.power then Phase(j - 1, Doubled(p.power)) else p
  }

  function Pow2(k: nat): nat {
    if k == 0 then 1 else 2 * Pow2(k - 1)
  }

  lemma {:induction false} Pow2Monotone(i: nat, j: nat)
    requires i <= j
    ensures 1 <= Pow2(i) <= Pow2(j)
    decreases j
  {
    if i < j {
      Pow2Monotone(i, j - 1);
    } else if i > 0 {
      Pow2Monotone(i - 1, i - 1);
    }
  }

  lemma SevenDoublings(k: nat)
    ensures Pow2(k + 7) == 128 * Pow2(k)
  {
    assert Pow2(k + 2) == 4 * Pow2(k);
    assert Pow2(k + 4) == 4 * Pow2(k + 2);
    assert Pow2(k + 6) == 4 * Pow2(k + 4);
  }

  lemma TopPower(k: nat)
    requires k == 63
    ensures Pow2(k) == TOP_POWER
  {
    var j := k - 63;
    for i := 0 to 3
      invariant j == 21 * i
      invariant Pow2(j) == [1, 0x20_0000, 0x400_0000_0000, TOP_POWER][i]
    {
      SevenDoublings(j);
      SevenDoublings(j + 7);
      SevenDoublings(j + 14);
      j := j + 21;
    }
  }

  /** Checkpoints sit at indices 2^k - 1 with power 2^k until k is 63; from
      then on they are TOP_POWER apart. */
  ghost predicate WellShaped(p: Phase) {
    && (exists k: nat :: k <= 63 && p.power == Pow2(k))
    && (p.checkpoint + 1 == p.power
        || (p.power == TOP_POWER && (p.checkpoint + 1) % TOP_POWER == 0))
  }

  lemma NextWellShaped(p: Phase)
    requires WellShaped(p)
    ensures WellShaped(Phase(p.checkpoint + p.power, Doubled(p.power)))
  {
    var k: nat :| k <= 63 && p.power == Pow2(k);
    var top := 63;
    TopPower(top);
    if k < 63 {
      Pow2Monotone(k + 1, top);
      assert Pow2(k + 1) == 2 * p.power;
      assert Doubled(p.power) == 2 * p.power;
      assert p.power != TOP_POWER;
    } else {
      assert Doubled(p.power) == p.power;
      var m := (p.checkpoint + 1) / TOP_POWER;
      assert p.checkpoint + p.power + 1 == TOP_POWER * (m + 1);
    }
  }

  lemma {:induction false} PhaseShape(j: nat)
    requires j >= 1
    ensures WellShaped(PhaseAt(j))
    ensures PhaseAt(j).checkpoint < j <= PhaseAt(j).checkpoint + PhaseAt(j).power
    ensures 1 <= PhaseAt(j).power <= TOP_POWER
    ensures PhaseAt(j).power <= PhaseAt(j).checkpoint + 1
  {
    if j == 1 {
      assert Pow2(0) == 1;
    } else {
      PhaseShape(j - 1);
      var q := PhaseAt(j - 1);
      if j - 1 == q.checkpoint + q.power {
        NextWellShaped(q);
      }
    }
    var k: nat :| k <= 63 && PhaseAt(j).power == Pow2(k);
    var top := 63;
    Pow2Monotone(k, top);
    TopPower(top);
  }

  lemma PhaseBounds(j: nat)
    requires j >= 1
    ensures PhaseAt(j).checkpoint < j <= PhaseAt(j).checkpoint + PhaseAt(j).power
    ensures 1 <= PhaseAt(j).power <= TOP_POWER
  {
    PhaseShape(j);
  }

  lemma {:induction false} PhaseStays(j: nat, i: nat)
    requires 1 <= j <= i <= PhaseAt(j).checkpoint + PhaseAt(j).power
    ensures PhaseAt(i) == PhaseAt(j)
    decreases i
  {
    if j < i {
      PhaseStays(j, i - 1);
    }
  }

  lemma PhaseStarts(j: nat)
    requires j >= 1
    ensures PhaseAt(PhaseAt(j).checkpoint + 1) == PhaseAt(j)
    decreases j
  {
    PhaseShape(j);
    var p := PhaseAt(j);
    if j > p.checkpoint + 1 {
      PhaseShape(j - 1);
      PhaseStarts(j - 1);
    }
  }

  /** The detector reports a cycle at index `j` of `s`. */
  ghost predicate Reports<T>(s: seq<T>, j: nat) {
    && 1 <= j < |s|
    && PhaseAt(j).checkpoint < |s|
    && s[j] == s[PhaseAt(j).checkpoint]
  }

  /** Nothing was reported while `s` was observed. */
  ghost predicate Silent<T>(s: seq<T>) {
    forall j :: 1 <= j < |s| ==> !Reports(s, j)
  }

  lemma SilentSnoc<T>(s: seq<T>, value: T)
    requires Silent(s)
    ensures Silent(s + [value]) <==> !Reports(s + [value], |s|)
  {
    var t := s + [value];
    forall j | 1 <= j < |s|
      ensures !Reports(t, j)
    {
      PhaseShape(j);
      assert !Reports(s, j);
    }
  }

  /** From index `mu` on, `s` repeats with period `lambda`. */
  ghost predicate EventuallyPeriodic<T>(s: seq<T>, mu: nat, lambda: nat) {
    lambda >= 1 && forall i :: mu <= i && i + lambda < |s| ==> s[i] == s[i + lambda]
  }

  function DetectionBound(mu: nat, lambda: nat): nat
    requires lambda >= 1
  {
    2 * Max(mu + 1, lambda) - 2 + lambda
  }

  /** Every report is backed by an earlier equal value. */
  lemma ReportsAreSound<T>(s: seq<T>, j: nat)
    requires Reports(s, j)
    ensures exists i :: 0 <= i < j && s[i] == s[j]
  {
    PhaseShape(j);
    assert s[PhaseAt(j).checkpoint] == s[j];
  }

  /** A sequence that enters a cycle is reported within the bound. */
  lemma ReportsWithinBound<T>(s: seq<T>, mu: nat, lambda: nat) returns (j: nat)
    requires EventuallyPeriodic(s, mu, lambda)
    requires lambda <= TOP_POWER
    requires |s| > DetectionBound(mu, lambda)
    ensures j <= DetectionBound(mu, lambda) && Reports(s, j)
  {
    var p := PhaseAt(2 * Max(mu + 1, lambda) - 1);
    PhaseIsLate(mu, lambda);
    j := p.checkpoint + lambda;
    assert s[p.checkpoint] == s[p.checkpoint + lambda];
  }

  /** The phase within the bound starts behind `mu`, is long enough to compare
      values at distance `lambda`, and is still on at that distance. */
  lemma PhaseIsLate(mu: nat, lambda: nat)
    requires 1 <= lambda <= TOP_POWER
    ensures var m := Max(mu + 1, lambda);
      var p := PhaseAt(2 * m - 1);
      mu <= p.checkpoint < 2 * m - 1 && PhaseAt(p.checkpoint + lambda) == p
  {
    var m := Max(mu + 1, lambda);
    PhaseShape(2 * m - 1);
    PhaseIsLong(PhaseAt(2 * m - 1), m, mu, lambda);
    PhaseReaches(2 * m - 1, lambda);
  }

  lemma PhaseReaches(j: nat, distance: nat)
    requires j >= 1 && 1 <= distance <= PhaseAt(j).power
    ensures PhaseAt(PhaseAt(j).checkpoint + distance) == PhaseAt(j)
  {
    PhaseStarts(j);
    PhaseStays(PhaseAt(j).checkpoint + 1, PhaseAt(j).checkpoint + distance);
  }

  lemma PhaseIsLong(p: Phase, m: nat, mu: nat, lambda: nat)
    requires 1 <= lambda <= TOP_POWER && m == Max(mu + 1, lambda) && WellShaped(p)
    requires p.checkpoint < 2 * m - 1 <= p.checkpoint + p.power && p.power <= p.checkpoint + 1
    ensures p.checkpoint >= mu && p.power >= lambda
  {
    if p.checkpoint + 1 != p.power {
      assert p.power == TOP_POWER <= p.checkpoint + 1;
    }
  }

  /** A sequence whose values repeat only after more than TOP_POWER steps is
      never reported: distances are compared up to the power, which saturates. */
  lemma LongPeriodsGoUnreported<T>(s: seq<T>, lambda: nat, j: nat)
    requires lambda > TOP_POWER
    requires forall a, b :: 0 <= a < b < |s| && s[a] == s[b] ==> b - a >= lambda
    ensures !Reports(s, j)
  {
    if 1 <= j < |s| {
      PhaseShape(j);
    }
  }

  /** The detector of the source: the last checkpoint, its power and the
      distance from it. `history` is every value observed so far. */
  class CycleDetector<T(==,0)> {
    var checkpoint: T
    var power: nat
    var distance: nat
    var initialized: bool
    ghost var history: seq<T>

    ghost predicate Valid()
      reads this
    {
      && (initialized <==> history != [])
      && (!initialized ==> power == 0 && distance == 0)
      && (initialized ==>
            var p := PhaseAt(|history|);
            && p.checkpoint + 1 + distance == |history|
            && power == p.power
            && checkpoint == history[p.checkpoint])
      && Silent(history)
    }

    constructor ()
      ensures Valid() && history == []
    {
      power, distance, initialized, history := 0, 0, false, [];
    }

    method Observe(value: T) returns (cycle: bool)
      requires Valid()
      modifies this
      ensures history == old(history) + [value]
      ensures cycle <==> Reports(history, |old(history)|)
      ensures !cycle ==> Valid()
      ensures distance <= TOP_POWER && power <= TOP_POWER
    {
      ghost var before := history;
      history := history + [value];
      if !initialized {
        checkpoint := value;
        power := 1;
        initialized := true;
        return false;
      }
      var n: nat := |before|;
      SilentSnoc(before, value);
      PhaseBounds(n);
      distance := distance + 1;
      if value == checkpoint {
        return true;
      }
      if distance == power {
        checkpoint := value;
        PhaseBounds(n + 1);
        if power <= (TWO_TO_THE_64 - 1) / 2 {
          power := power * 2;
        }
        distance := 0;
      }
      return false;
    }
  }
}
