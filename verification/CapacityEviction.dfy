/** Evicting least recently used locations until the cache fits its budget
    (internal/storagecapacity/service.go). Rows are named by their position in
    the order of (recency, id), which no row leaves during a pass; rows may
    still come and go between two page queries. Ids stand for their rank in
    the database's string order. */
module CapacityEviction {
  import opened Int64
  import opened Options

  const PAGE_SIZE := 50

  datatype Row = Row(recency: int, id: int)

  datatype Outcome = Claimed(size: nat) | Pinned | Stale | Failed

  /** What the lifecycle transaction does with the row at a position. */
  type Outcomes = nat -> Outcome

  /** Whether a page query, by its number, sees the row at a position. */
  type Listing = (nat, nat) -> bool

  function At(listing: Listing, query: nat): nat -> bool {
    (i: nat) => listing(query, i)
  }

  predicate Precedes(a: Row, b: Row) {
    a.recency < b.recency || (a.recency == b.recency && a.id < b.id)
  }

  ghost predicate Ordered(rows: seq<Row>) {
    forall i, j :: 0 <= i < j < |rows| ==> Precedes(rows[i], rows[j])
  }

  /** The query's keyset condition. */
  predicate Behind(row: Row, cursor: Option<Row>) {
    match cursor
    case None => true
    case Some(c) => row.recency >= c.recency && (row.recency > c.recency || row.id > c.id)
  }

  lemma KeysetIsOrder(rows: seq<Row>, i: nat, j: nat)
    requires Ordered(rows) && i < |rows| && j < |rows|
    ensures Behind(rows[i], Some(rows[j])) <==> i > j
  {
    if i < j {
      assert Precedes(rows[i], rows[j]);
    } else if j < i {
      assert Precedes(rows[j], rows[i]);
    }
  }

  /** The first `limit` listed rows behind the cursor, from position `from` on. */
  function Page(rows: seq<Row>, listed: nat -> bool, cursor: Option<Row>, from: nat, limit: nat): seq<nat>
    requires from <= |rows|
    decreases |rows| - from
  {
    if from == |rows| || limit == 0 then []
    else if listed(from) && Behind(rows[from], cursor) then
      [from] + Page(rows, listed, cursor, from + 1, limit - 1)
    else Page(rows, listed, cursor, from + 1, limit)
  }

  /** The usage left after visiting rows in turn. */
  function Remaining(usage: int, visited: seq<nat>, outcomes: Outcomes): int
    decreases |visited|
  {
    if visited == [] then usage
    else match outcomes(visited[0])
         case Claimed(size) => Remaining(Max(0, usage - size), visited[1..], outcomes)
         case _ => Remaining(usage, visited[1..], outcomes)
  }

  datatype Tally = Tally(claimed: nat, bytes: nat, pinned: nat, stale: nat)

  function Add(t: Tally, outcome: Outcome): Tally {
    match outcome
    case Claimed(size) => t.(claimed := t.claimed + 1, bytes := t.bytes + size)
    case Pinned => t.(pinned := t.pinned + 1)
    case Stale => t.(stale := t.stale + 1)
    case Failed => t
  }

  function Tallied(visited: seq<nat>, outcomes: Outcomes): Tally {
    if visited == [] then Tally(0, 0, 0, 0)
    else Add(Tallied(visited[..|visited| - 1], outcomes), outcomes(visited[|visited| - 1]))
  }

  lemma {:induction false} RemainingSnoc(usage: int, visited: seq<nat>, last: nat, outcomes: Outcomes)
    ensures Remaining(usage, visited + [last], outcomes)
         == match outcomes(last)
            case Claimed(size) => Max(0, Remaining(usage, visited, outcomes) - size)
            case _ => Remaining(usage, visited, outcomes)
    decreases |visited|
  {
    if visited == [] {
      assert visited + [last] == [last];
      assert [last][1..] == [];
    } else {
      assert (visited + [last])[1..] == visited[1..] + [last];
      var next := match outcomes(visited[0]) case Claimed(size) => Max(0, usage - size) case _ => usage;
      RemainingSnoc(next, visited[1..], last, outcomes);
    }
  }

  /** Clamping at every claim is clamping once at the end. */
  lemma {:induction false} UsageIsClampedOnce(usage: nat, visited: seq<nat>, outcomes: Outcomes)
    ensures Remaining(usage, visited, outcomes) == Max(0, usage - Tallied(visited, outcomes).bytes)
    decreases |visited|
  {
    if visited != [] {
      var shorter, last := visited[..|visited| - 1], visited[|visited| - 1];
      UsageIsClampedOnce(usage, shorter, outcomes);
      RemainingSnoc(usage, shorter, last, outcomes);
      assert visited == shorter + [last];
    }
  }

  function Among(visited: seq<nat>, kind: nat -> bool): set<nat> {
    set i <- visited | kind(i)
  }

  lemma AmongOneMore(visited: seq<nat>, last: nat, kind: nat -> bool)
    requires last !in visited
    ensures |Among(visited + [last], kind)| == |Among(visited, kind)| + if kind(last) then 1 else 0
  {
    assert Among(visited + [last], kind) == Among(visited, kind) + if kind(last) then {last} else {};
  }

  function WereClaimed(outcomes: Outcomes): nat -> bool {
    (i: nat) => outcomes(i).Claimed?
  }

  function WerePinned(outcomes: Outcomes): nat -> bool {
    (i: nat) => outcomes(i).Pinned?
  }

  function WereStale(outcomes: Outcomes): nat -> bool {
    (i: nat) => outcomes(i).Stale?
  }

  /** Each counter counts the rows of its own outcome. */
  ghost predicate CountsEach(t: Tally, visited: seq<nat>, outcomes: Outcomes) {
    && t.claimed == |Among(visited, WereClaimed(outcomes))|
    && t.pinned == |Among(visited, WerePinned(outcomes))|
    && t.stale == |Among(visited, WereStale(outcomes))|
  }

  lemma OneMoreCounts(t: Tally, visited: seq<nat>, last: nat, outcomes: Outcomes)
    requires CountsEach(t, visited, outcomes) && last !in visited
    ensures CountsEach(Add(t, outcomes(last)), visited + [last], outcomes)
  {
    AmongOneMore(visited, last, WereClaimed(outcomes));
    AmongOneMore(visited, last, WerePinned(outcomes));
    AmongOneMore(visited, last, WereStale(outcomes));
  }

  lemma {:induction false} TallyCounts(visited: seq<nat>, outcomes: Outcomes)
    requires forall m, n :: 0 <= m < n < |visited| ==> visited[m] < visited[n]
    ensures CountsEach(Tallied(visited, outcomes), visited, outcomes)
    decreases |visited|
  {
    if visited != [] {
      var shorter, last := visited[..|visited| - 1], visited[|visited| - 1];
      TallyCounts(shorter, outcomes);
      OneMoreCounts(Tallied(shorter, outcomes), shorter, last, outcomes);
      assert visited == shorter + [last];
    }
  }

  /** Every visited row was claimed, pinned or stale unless the pass failed. */
  lemma {:induction false} TallyIsComplete(visited: seq<nat>, outcomes: Outcomes)
    requires forall i <- visited :: outcomes(i) != Failed
    ensures var t := Tallied(visited, outcomes); t.claimed + t.pinned + t.stale == |visited|
    decreases |visited|
  {
    if visited != [] {
      TallyIsComplete(visited[..|visited| - 1], outcomes);
    }
  }

  /** floor(9 budget / 10), rounded towards zero below it, and no step of the
      computation leaves int64. */
  function RatioFloor(value: int64): (r: int64)
    ensures r == TruncDiv(value * 9, 10)
    ensures value >= 0 ==> 10 * r <= 9 * value < 10 * r + 10
  {
    var whole: int64 := TruncDiv(value, 10);
    var scaled: int64 := whole * 9;
    var rest: int64 := TruncMod(value, 10) * 9;
    scaled + TruncDiv(rest, 10)
  }

  datatype Result = Result(
    budget: int, target: int, usageBefore: int, usageAfter: int,
    candidates: nat, tally: Tally, constrained: bool)

  datatype Verdict =
    | Disabled
    | Unresolved
    | Fits(result: Result)
    | Passed(result: Result)
    | Aborted(result: Result)

  ghost predicate Always(listing: Listing, i: nat) {
    forall query: nat :: listing(query, i)
  }

  /** All rows before `i` that every query lists have been visited. */
  ghost predicate SeenBelow(listing: Listing, visited: seq<nat>, i: nat) {
    forall k: nat :: k < i && Always(listing, k) ==> k in visited
  }

  predicate Above(visited: seq<nat>, next: nat) {
    visited == [] || visited[|visited| - 1] < next
  }

  /** A pass may go on after these visits. */
  ghost predicate Unsettled(outcomes: Outcomes, before: int, target: int, visited: seq<nat>) {
    && (visited == [] || outcomes(visited[|visited| - 1]) != Failed)
    && Remaining(before, visited, outcomes) > target
  }

  /** The visits of one pass so far: each one was still necessary, went forward
      and passed over no row that every query lists. */
  ghost predicate Visiting(rows: seq<Row>, listing: Listing, outcomes: Outcomes, before: int, target: int, visited: seq<nat>)
    decreases |visited|
  {
    visited != [] ==>
      var shorter, last := visited[..|visited| - 1], visited[|visited| - 1];
      && Visiting(rows, listing, outcomes, before, target, shorter)
      && last < |rows| && Above(shorter, last)
      && SeenBelow(listing, shorter, last)
      && Unsettled(outcomes, before, target, shorter)
  }

  lemma SeenStays(listing: Listing, shorter: seq<nat>, visited: seq<nat>, i: nat)
    requires shorter <= visited && SeenBelow(listing, shorter, i)
    ensures SeenBelow(listing, visited, i)
  {
    forall k: nat | k < i && Always(listing, k)
      ensures k in visited
    {
      var at :| 0 <= at < |shorter| && shorter[at] == k;
      assert visited[at] == k;
    }
  }

  lemma {:induction false} VisitsAscend(rows: seq<Row>, listing: Listing, outcomes: Outcomes, before: int, target: int, visited: seq<nat>)
    requires Visiting(rows, listing, outcomes, before, target, visited)
    ensures forall n :: 0 <= n < |visited| ==> visited[n] < |rows| && SeenBelow(listing, visited, visited[n])
    ensures forall m, n :: 0 <= m < n < |visited| ==> visited[m] < visited[n]
    decreases |visited|
  {
    if visited != [] {
      var shorter, last := visited[..|visited| - 1], |visited| - 1;
      VisitsAscend(rows, listing, outcomes, before, target, shorter);
      assert forall n :: 0 <= n < last ==> visited[n] == shorter[n];
      forall n | 0 <= n < |visited|
        ensures SeenBelow(listing, visited, visited[n])
      {
        SeenStays(listing, shorter, visited, visited[n]);
      }
      forall m | 0 <= m < last
        ensures visited[m] < visited[last]
      {
        assert shorter[m] <= shorter[last - 1];
      }
    }
  }

  lemma {:induction false} VisitsWereDue(rows: seq<Row>, listing: Listing, outcomes: Outcomes, before: int, target: int, visited: seq<nat>)
    requires Visiting(rows, listing, outcomes, before, target, visited)
    ensures forall n :: 0 <= n < |visited| - 1 ==> outcomes(visited[n]) != Failed
    ensures forall n :: 0 <= n < |visited| ==> Remaining(before, visited[..n], outcomes) > target
    decreases |visited|
  {
    if visited != [] {
      var shorter, last := visited[..|visited| - 1], |visited| - 1;
      VisitsWereDue(rows, listing, outcomes, before, target, shorter);
      forall n | 0 <= n < last
        ensures outcomes(visited[n]) != Failed
      {
        assert visited[n] == shorter[n];
      }
      forall n | 0 <= n < |visited|
        ensures Remaining(before, visited[..n], outcomes) > target
      {
        assert visited[..n] == shorter[..n];
      }
    }
  }

  /** What that means for the visits as a whole: strictly in the order of
      recency and id, hence no row twice; no row that is there all the time
      passed over; only the last one can have failed; and before each of them
      usage was above the target. */
  lemma VisitsAreOrdered(rows: seq<Row>, listing: Listing, outcomes: Outcomes, before: int, target: int, visited: seq<nat>)
    requires Visiting(rows, listing, outcomes, before, target, visited) && Ordered(rows)
    ensures forall n :: 0 <= n < |visited| ==> visited[n] < |rows|
    ensures forall m, n :: 0 <= m < n < |visited| ==> visited[m] < visited[n] && Precedes(rows[visited[m]], rows[visited[n]])
    ensures forall n :: 0 <= n < |visited| ==> SeenBelow(listing, visited, visited[n])
    ensures forall n :: 0 <= n < |visited| - 1 ==> outcomes(visited[n]) != Failed
    ensures forall n :: 0 <= n < |visited| ==> Remaining(before, visited[..n], outcomes) > target
  {
    VisitsAscend(rows, listing, outcomes, before, target, visited);
    VisitsWereDue(rows, listing, outcomes, before, target, visited);
  }

  /** The order of a page: it carries on the visits. */
  ghost predicate Continues(rows: seq<Row>, listing: Listing, visited: seq<nat>, page: seq<nat>)
    decreases |page|
  {
    page != [] ==>
      && page[0] < |rows| && Above(visited, page[0])
      && SeenBelow(listing, visited, page[0])
      && Continues(rows, listing, visited + [page[0]], page[1..])
  }

  lemma {:induction false} PageCarriesOn(
    rows: seq<Row>, listing: Listing, query: nat, cursor: Option<Row>, visited: seq<nat>, from: nat, limit: nat)
    requires from <= |rows| && (visited == [] || visited[|visited| - 1] < from) && SeenBelow(listing, visited, from)
    requires forall i :: from <= i < |rows| ==> Behind(rows[i], cursor)
    ensures var page := Page(rows, At(listing, query), cursor, from, limit);
            && Continues(rows, listing, visited, page)
            && (page == [] && limit > 0 ==> SeenBelow(listing, visited, |rows|))
    decreases |rows| - from
  {
    if from < |rows| && limit > 0 {
      if listing(query, from) {
        PageCarriesOn(rows, listing, query, cursor, visited + [from], from + 1, limit - 1);
        var rest := Page(rows, At(listing, query), cursor, from + 1, limit - 1);
        assert ([from] + rest)[1..] == rest;
      } else {
        assert !Always(listing, from);
        PageCarriesOn(rows, listing, query, cursor, visited, from + 1, limit);
      }
    }
  }

  lemma {:induction false} PageSkips(rows: seq<Row>, listed: nat -> bool, cursor: Option<Row>, from: nat, to: nat, limit: nat)
    requires from <= to <= |rows| && forall i :: from <= i < to ==> !Behind(rows[i], cursor)
    ensures Page(rows, listed, cursor, from, limit) == Page(rows, listed, cursor, to, limit)
    decreases |rows| - from
  {
    if from < to && limit > 0 {
      PageSkips(rows, listed, cursor, from + 1, to, limit);
    } else if limit == 0 {
      assert Page(rows, listed, cursor, to, limit) == [];
    }
  }

  function Cursor(rows: seq<Row>, visited: seq<nat>): Option<Row>
    requires visited != [] ==> visited[|visited| - 1] < |rows|
  {
    if visited == [] then None else Some(rows[visited[|visited| - 1]])
  }

  /** The page behind the cursor carries on where the visits stopped, and is
      empty only when no row was left out. */
  lemma NextPageContinues(rows: seq<Row>, listing: Listing, query: nat, outcomes: Outcomes, before: int, target: int, visited: seq<nat>)
    requires Ordered(rows) && Visiting(rows, listing, outcomes, before, target, visited)
    ensures var page := Page(rows, At(listing, query), Cursor(rows, visited), 0, PAGE_SIZE);
            && Continues(rows, listing, visited, page)
            && (page == [] ==> SeenBelow(listing, visited, |rows|))
  {
    var from := if visited == [] then 0 else visited[|visited| - 1] + 1;
    if visited != [] {
      forall i: nat | i < |rows|
        ensures Behind(rows[i], Cursor(rows, visited)) <==> i >= from
      {
        KeysetIsOrder(rows, i, from - 1);
      }
      SeenSoFar(rows, listing, outcomes, before, target, visited);
    }
    PageSkips(rows, At(listing, query), Cursor(rows, visited), 0, from, PAGE_SIZE);
    PageCarriesOn(rows, listing, query, Cursor(rows, visited), visited, from, PAGE_SIZE);
  }

  lemma SeenSoFar(rows: seq<Row>, listing: Listing, outcomes: Outcomes, before: int, target: int, visited: seq<nat>)
    requires Visiting(rows, listing, outcomes, before, target, visited) && visited != []
    ensures SeenBelow(listing, visited, visited[|visited| - 1] + 1)
  {
    var shorter, last := visited[..|visited| - 1], visited[|visited| - 1];
    assert visited == shorter + [last];
    assert SeenBelow(listing, shorter, last);
  }

  /** The counters say what happened to the visited rows. */
  ghost predicate Counts(r: Result, outcomes: Outcomes, visited: seq<nat>) {
    && r.candidates == |visited|
    && r.tally == Tallied(visited, outcomes)
    && r.usageAfter == Remaining(r.usageBefore, visited, outcomes)
  }

  predicate SameBudget(a: Result, b: Result) {
    a.budget == b.budget && a.target == b.target && a.usageBefore == b.usageBefore
  }

  method Visit(next: nat, outcomes: Outcomes, before: Result, ghost visited: seq<nat>) returns (result: Result)
    requires Counts(before, outcomes, visited)
    ensures Counts(result, outcomes, visited + [next]) && SameBudget(result, before)
  {
    RemainingSnoc(before.usageBefore, visited, next, outcomes);
    assert (visited + [next])[..|visited|] == visited;
    result := before.(candidates := before.candidates + 1, tally := Add(before.tally, outcomes(next)));
    match outcomes(next)
    case Claimed(size) =>
      result := result.(usageAfter := Max(0, result.usageAfter - size));
    case _ =>
  }

  lemma VisitOne(rows: seq<Row>, listing: Listing, outcomes: Outcomes, before: int, target: int, visited: seq<nat>, next: nat)
    requires Visiting(rows, listing, outcomes, before, target, visited) && Unsettled(outcomes, before, target, visited)
    requires next < |rows| && Above(visited, next) && SeenBelow(listing, visited, next)
    ensures Visiting(rows, listing, outcomes, before, target, visited + [next])
  {
    var more := visited + [next];
    assert more[..|more| - 1] == visited;
  }

  /** Go through one page until the target is reached or an eviction fails. */
  method VisitPage(rows: seq<Row>, ghost listing: Listing, outcomes: Outcomes, page: seq<nat>, before: Result, ghost visited: seq<nat>)
    returns (result: Result, failed: bool, cursor: Option<Row>, ghost more: seq<nat>)
    requires Visiting(rows, listing, outcomes, before.usageBefore, before.target, visited)
    requires Unsettled(outcomes, before.usageBefore, before.target, visited)
    requires Counts(before, outcomes, visited)
    requires Continues(rows, listing, visited, page) && page != []
    ensures SameBudget(result, before) && Counts(result, outcomes, more)
    ensures Visiting(rows, listing, outcomes, before.usageBefore, before.target, more)
    ensures more != [] && Above(visited, more[|more| - 1]) && cursor == Cursor(rows, more)
    ensures failed == outcomes(more[|more| - 1]).Failed?
  {
    result, failed, more := before, false, visited;
    cursor := None;
    var rest := page;
    while rest != []
      invariant SameBudget(result, before) && Counts(result, outcomes, more)
      invariant Visiting(rows, listing, outcomes, before.usageBefore, before.target, more)
      invariant Unsettled(outcomes, before.usageBefore, before.target, more) && !failed
      invariant Continues(rows, listing, more, rest)
      invariant rest == page ==> more == visited
      invariant rest != page ==> more != [] && Above(visited, more[|more| - 1]) && cursor == Cursor(rows, more)
      invariant |rest| <= |page|
      decreases |rest|
    {
      var candidate := rest[0];
      VisitOne(rows, listing, outcomes, before.usageBefore, before.target, more, candidate);
      cursor := Some(rows[candidate]);
      result := Visit(candidate, outcomes, result, more);
      assert Above(visited, candidate);
      more := more + [candidate];
      rest := rest[1..];
      if outcomes(candidate).Failed? {
        failed := true;
        return;
      }
      if result.usageAfter <= result.target {
        return;
      }
    }
  }

  /** One pass. `queryFails` says which page queries fail. */
  method Enforce(enabled: bool, unresolved: nat, budget: int64, usage: nat, rows: seq<Row>,
                 listing: Listing, queryFails: nat -> bool, outcomes: Outcomes)
    returns (v: Verdict, ghost visited: seq<nat>)
    requires Ordered(rows)
    ensures v.Disabled? <==> !enabled
    ensures v.Unresolved? <==> enabled && unresolved > 0
    ensures v.Fits? <==> enabled && unresolved == 0 && usage <= budget
    ensures v.Disabled? || v.Unresolved? || v.Fits? ==> visited == []
    ensures !v.Disabled? && !v.Unresolved? ==>
              && v.result.budget == budget && v.result.usageBefore == usage
              && v.result.target == RatioFloor(budget)
              && Counts(v.result, outcomes, visited)
              && Visiting(rows, listing, outcomes, usage, RatioFloor(budget), visited)
    ensures v.Passed? ==>
              && (visited == [] || outcomes(visited[|visited| - 1]) != Failed)
              && v.result.constrained == (v.result.usageAfter > v.result.target)
              && (v.result.constrained ==> SeenBelow(listing, visited, |rows|))
    ensures v.Aborted? ==>
              || (visited != [] && outcomes(visited[|visited| - 1]) == Failed)
              || exists query :: queryFails(query)
  {
    visited := [];
    if !enabled {
      return Disabled, [];
    }
    if unresolved > 0 {
      return Unresolved, [];
    }
    var result := Result(budget, RatioFloor(budget), usage, usage, 0, Tally(0, 0, 0, 0), false);
    if usage <= budget {
      return Fits(result), [];
    }
    var cursor: Option<Row> := None;
    var query := 0;
    while result.usageAfter > result.target
      invariant result.budget == budget && result.target == RatioFloor(budget) && result.usageBefore == usage
      invariant Counts(result, outcomes, visited)
      invariant Visiting(rows, listing, outcomes, usage, RatioFloor(budget), visited)
      invariant visited == [] || outcomes(visited[|visited| - 1]) != Failed
      invariant cursor == Cursor(rows, visited)
      decreases |rows| - (if visited == [] then 0 else visited[|visited| - 1] + 1)
    {
      if queryFails(query) {
        return Aborted(result), visited;
      }
      NextPageContinues(rows, listing, query, outcomes, usage, RatioFloor(budget), visited);
      var page := Page(rows, At(listing, query), cursor, 0, PAGE_SIZE);
      query := query + 1;
      if page == [] {
        break;
      }
      var failed;
      result, failed, cursor, visited := VisitPage(rows, listing, outcomes, page, result, visited);
      if failed {
        return Aborted(result), visited;
      }
    }
    v := Passed(result.(constrained := result.usageAfter > result.target));
  }

  lemma LastClaimWasNeeded(outcomes: Outcomes, usage: nat, target: int, visited: seq<nat>)
    requires visited != [] && Unsettled(outcomes, usage, target, visited[..|visited| - 1])
    requires Remaining(usage, visited, outcomes) <= target
    ensures var last := outcomes(visited[|visited| - 1]);
            last.Claimed? && usage - (Tallied(visited, outcomes).bytes - last.size) > target
  {
    var shorter, last := visited[..|visited| - 1], visited[|visited| - 1];
    UsageIsClampedOnce(usage, shorter, outcomes);
    RemainingSnoc(usage, shorter, last, outcomes);
    assert visited == shorter + [last];
  }

  /** The outcome of a pass that ends: the counters partition the visited rows,
      usage went down by the claimed bytes, and the last claim was needed. */
  lemma PassIsMinimal(rows: seq<Row>, listing: Listing, outcomes: Outcomes, usage: nat, target: int, visited: seq<nat>, r: Result)
    requires Ordered(rows) && Visiting(rows, listing, outcomes, usage, target, visited)
    requires Counts(r, outcomes, visited) && r.usageBefore == usage
    requires visited == [] || outcomes(visited[|visited| - 1]) != Failed
    ensures r.candidates == r.tally.claimed + r.tally.pinned + r.tally.stale
    ensures CountsEach(r.tally, visited, outcomes)
    ensures r.usageAfter == Max(0, usage - r.tally.bytes)
    ensures visited != [] && r.usageAfter <= target ==>
              && outcomes(visited[|visited| - 1]).Claimed?
              && usage - (r.tally.bytes - outcomes(visited[|visited| - 1]).size) > target
  {
    VisitsAreOrdered(rows, listing, outcomes, usage, target, visited);
    TallyCounts(visited, outcomes);
    TallyIsComplete(visited, outcomes);
    UsageIsClampedOnce(usage, visited, outcomes);
    if visited != [] && r.usageAfter <= target {
      LastClaimWasNeeded(outcomes, usage, target, visited);
    }
  }
}
