/** Retrying queued folder deletions (internal/cleanup/service.go,
    internal/storageoutbox/outbox.go). Times are in nanoseconds, as time.Time
    keeps them; the rows hold milliseconds. */
module StorageDeletions {
  import opened Int64
  import opened Options
  import opened Sequences

  const NANOS_PER_MILLI := 1_000_000
  const RETRY_BASE := 5 * 60 * 1000 * NANOS_PER_MILLI
  const RETRY_MAX := 24 * 60 * 60 * 1000 * NANOS_PER_MILLI
  const PAGE_SIZE := 10

  datatype Task = Task(id: nat, folder: string, attemptCount: nat, lastAttemptedAt: Option<int>)

  function Doubled(times: nat): nat {
    if times == 0 then RETRY_BASE else 2 * Doubled(times - 1)
  }

  lemma {:induction false} DoublingGrows(few: nat, many: nat)
    requires few <= many
    ensures RETRY_BASE <= Doubled(few) <= Doubled(many)
  {
    if few < many {
      DoublingGrows(few, many - 1);
    } else if few > 0 {
      DoublingGrows(few - 1, few - 1);
    }
  }

  /** The delay doubles with every attempt after the first, up to a day. */
  function Delay(attemptCount: int): (d: int)
    ensures RETRY_BASE <= d <= RETRY_MAX
  {
    var times := if attemptCount <= 1 then 0 else attemptCount - 1;
    DoublingGrows(0, times);
    Min(Doubled(times), RETRY_MAX)
  }

  method StorageDeletionRetryDelay(attemptCount: int) returns (delay: int64)
    ensures delay == Delay(attemptCount)
  {
    delay := RETRY_BASE;
    var attempt := 1;
    while attempt < attemptCount
      invariant 1 <= attempt && (attempt <= attemptCount || attempt == 1)
      invariant delay == Doubled(attempt - 1) <= RETRY_MAX
    {
      if delay >= RETRY_MAX / 2 {
        DoublingGrows(attempt, attemptCount - 1);
        return RETRY_MAX;
      }
      delay := delay * 2;
      attempt := attempt + 1;
    }
  }

  /** Waiting longer after every failure, never more than a day. */
  lemma DelaysGrow(few: int, many: int)
    requires few <= many
    ensures RETRY_BASE <= Delay(few) <= Delay(many) <= RETRY_MAX
  {
    DoublingGrows(if few <= 1 then 0 else few - 1, if many <= 1 then 0 else many - 1);
  }

  /** The first failure waits for the base delay, every further one twice as long
      as the one before, but no longer than a day. */
  lemma DelayDoubles(attemptCount: int)
    ensures attemptCount <= 1 ==> Delay(attemptCount) == RETRY_BASE
    ensures attemptCount >= 1 ==> Delay(attemptCount + 1) == Min(2 * Delay(attemptCount), RETRY_MAX)
  {
    if attemptCount >= 1 {
      DoublingGrows(0, attemptCount - 1);
    }
  }

  predicate Ready(task: Task, now: int) {
    task.lastAttemptedAt.None? || now >= task.lastAttemptedAt.value * NANOS_PER_MILLI + Delay(task.attemptCount)
  }

  /** The millisecond a time falls in. */
  function UnixMilli(nanos: int): int {
    nanos / NANOS_PER_MILLI
  }

  /** The page query's condition. */
  predicate Listed(task: Task, now: int) {
    task.lastAttemptedAt.None? || task.lastAttemptedAt.value <= UnixMilli(now - RETRY_BASE)
  }

  /** The query hides no task that is ready, in spite of its rounding. */
  lemma QueryHidesNothing(task: Task, now: int)
    ensures Ready(task, now) ==> Listed(task, now)
  {
    if Ready(task, now) && task.lastAttemptedAt.Some? {
      var last := task.lastAttemptedAt.value;
      assert now - RETRY_BASE >= last * NANOS_PER_MILLI;
    }
  }

  /** The rows behind the cursor that the page query selects from. */
  function Candidates(rows: map<nat, Task>, now: int, cursor: nat): set<nat> {
    set id <- rows | id > cursor && Listed(rows[id], now)
  }

  /** How one attempt ends: the folder and the row are gone; the folder could not
      be deleted and the row says so; or the row could not be changed, neither
      to say so nor, with the folder already deleted, to go. */
  datatype Outcome = Completed | Recorded | Unrecorded

  /** The rows after an attempt at a task. */
  function Processed(rows: map<nat, Task>, id: nat, results: nat -> Outcome, clock: nat -> int): map<nat, Task>
    requires id in rows
  {
    match results(id)
    case Completed => rows - {id}
    case Recorded => rows[id := rows[id].(attemptCount := rows[id].attemptCount + 1, lastAttemptedAt := Some(clock(id)))]
    case Unrecorded => rows
  }

  predicate Due(rows: map<nat, Task>, now: int, id: nat) {
    id in rows && id > 0 && Ready(rows[id], now)
  }

  /** The rows up to `upTo` are as one attempt at every task that was due leaves
      them; the rows behind it are as they were. */
  ghost predicate Swept(before: map<nat, Task>, after: map<nat, Task>, now: int, upTo: int,
                        results: nat -> Outcome, clock: nat -> int) {
    forall id: nat ::
      if id in before && id <= upTo && Due(before, now, id) then
        && (id in after <==> !results(id).Completed?)
        && (id in after && results(id).Unrecorded? ==> after[id] == before[id])
        && (id in after && results(id).Recorded? ==>
              after[id] == Task(before[id].id, before[id].folder, before[id].attemptCount + 1, Some(clock(id))))
      else (id in before <==> id in after) && (id in before ==> after[id] == before[id])
  }

  /** The ids up to `upTo` whose attempts succeeded, or failed. */
  function Attempted(before: map<nat, Task>, now: int, upTo: int, results: nat -> Outcome, success: bool): set<nat> {
    set id <- before | id <= upTo && Due(before, now, id) && results(id).Completed? == success
  }

  /** A task whose failure was recorded is left alone for its delay, and is due
      again right after. */
  lemma RetriesAreSpaced(rows: map<nat, Task>, id: nat, results: nat -> Outcome, clock: nat -> int, now: int)
    requires id in rows && id > 0 && results(id) == Recorded
    ensures var failed := Processed(rows, id, results, clock);
            && id in failed && failed[id].folder == rows[id].folder
            && (Due(failed, now, id) <==> now >= clock(id) * NANOS_PER_MILLI + Delay(rows[id].attemptCount + 1))
  {
  }

  lemma SweepOne(before: map<nat, Task>, rows: map<nat, Task>, now: int, upTo: nat, id: nat, results: nat -> Outcome, clock: nat -> int)
    requires Swept(before, rows, now, upTo, results, clock)
    requires upTo < id && id in before && forall k :: upTo < k < id ==> !Due(before, now, k)
    ensures id in rows && rows[id] == before[id]
    ensures Due(before, now, id) ==> Swept(before, Processed(rows, id, results, clock), now, id, results, clock)
    ensures !Due(before, now, id) ==> Swept(before, rows, now, id, results, clock)
    ensures forall success ::
              Attempted(before, now, id, results, success)
              == Attempted(before, now, upTo, results, success)
                 + if Due(before, now, id) && results(id).Completed? == success then {id} else {}
  {
  }

  /** All candidates of the rows as they were at the start. */
  ghost predicate NextDue(rows: map<nat, Task>, now: int, cursor: nat, rest: seq<nat>) {
    && (forall i :: 0 <= i < |rest| ==> rest[i] in rows && rest[i] > cursor)
    && (forall i, j :: 0 <= i < j < |rest| ==> rest[i] < rest[j])
    && (forall id: nat, i :: 0 <= i < |rest| && cursor < id < rest[i] && Due(rows, now, id) ==> id in rest[..i])
  }

  lemma PageIsNextDue(before: map<nat, Task>, rows: map<nat, Task>, page: seq<nat>, now: int, cursor: nat,
                      results: nat -> Outcome, clock: nat -> int)
    requires Swept(before, rows, now, cursor, results, clock) && IsPageOf(Candidates(rows, now, cursor), PAGE_SIZE, page)
    ensures NextDue(before, now, cursor, page)
    ensures page == [] ==> forall id: nat :: id > cursor ==> !Due(before, now, id)
  {
    forall id: nat | id > cursor && Due(before, now, id)
      ensures id in Candidates(rows, now, cursor)
    {
      QueryHidesNothing(before[id], now);
    }
    forall id: nat, i | 0 <= i < |page| && cursor < id < page[i] && Due(before, now, id)
      ensures id in page[..i]
    {
      assert id in Candidates(rows, now, cursor);
      assert page[i] <= page[|page| - 1];
      var m :| 0 <= m < |page| && page[m] == id;
      assert m < i;
      assert page[..i][m] == id;
    }
  }

  lemma NothingLeft(before: map<nat, Task>, rows: map<nat, Task>, now: int, cursor: nat, upTo: nat,
                    results: nat -> Outcome, clock: nat -> int)
    requires Swept(before, rows, now, cursor, results, clock)
    requires forall id: nat :: id > cursor ==> !Due(before, now, id)
    requires forall id <- before :: id <= upTo
    ensures Swept(before, rows, now, upTo, results, clock)
    ensures forall success :: Attempted(before, now, upTo, results, success) == Attempted(before, now, cursor, results, success)
  {
  }

  method SweepPage(ghost before: map<nat, Task>, rows: map<nat, Task>, page: seq<nat>, now: int, upTo: nat,
                   soFar: nat, failed: set<nat>, results: nat -> Outcome, clock: nat -> int)
    returns (deleted: nat, failures: set<nat>, after: map<nat, Task>, cursor: nat)
    requires Swept(before, rows, now, upTo, results, clock) && page != []
    requires soFar == |Attempted(before, now, upTo, results, true)|
    requires failed == Attempted(before, now, upTo, results, false)
    requires NextDue(before, now, upTo, page)
    ensures Swept(before, after, now, cursor, results, clock)
    ensures deleted == |Attempted(before, now, cursor, results, true)|
    ensures failures == Attempted(before, now, cursor, results, false)
    ensures cursor == page[|page| - 1]
  {
    deleted, failures, after, cursor := soFar, failed, rows, upTo;
    for i := 0 to |page|
      invariant Swept(before, after, now, cursor, results, clock)
      invariant deleted == |Attempted(before, now, cursor, results, true)|
      invariant failures == Attempted(before, now, cursor, results, false)
      invariant cursor == if i == 0 then upTo else page[i - 1]
    {
      var id := page[i];
      SweepOne(before, after, now, cursor, id, results, clock);
      cursor := id;
      if Ready(after[id], now) {
        if results(id).Completed? {
          deleted := deleted + 1;
        } else {
          failures := failures + {id};
        }
        after := Processed(after, id, results, clock);
      }
    }
  }

  function Behind(rows: map<nat, Task>, cursor: nat): set<nat> {
    set id <- rows | id > cursor
  }

  /** One run: every task that is due is attempted once, in the order of ids,
      and no other is touched. `queryFails` says which page queries fail. */
  method RunStorageDeletions(rows: map<nat, Task>, now: int, results: nat -> Outcome, clock: nat -> int, queryFails: nat -> bool)
    returns (deleted: nat, failures: set<nat>, after: map<nat, Task>, finished: bool, ghost reached: nat)
    ensures finished || exists query :: queryFails(query)
    ensures finished ==> forall upTo: nat :: (forall id <- rows :: id <= upTo) ==>
              && Swept(rows, after, now, upTo, results, clock)
              && deleted == |Attempted(rows, now, upTo, results, true)|
              && failures == Attempted(rows, now, upTo, results, false)
    // Also a run that a query ends has attempted the tasks up to some id.
    ensures Swept(rows, after, now, reached, results, clock)
    ensures deleted == |Attempted(rows, now, reached, results, true)|
    ensures failures == Attempted(rows, now, reached, results, false)
  {
    deleted, failures, after, finished, reached := 0, {}, rows, false, 0;
    var cursor, query := 0, 0;
    while true
      invariant Swept(rows, after, now, cursor, results, clock)
      invariant deleted == |Attempted(rows, now, cursor, results, true)|
      invariant failures == Attempted(rows, now, cursor, results, false)
      invariant reached == cursor
      decreases Behind(rows, cursor)
    {
      if queryFails(query) {
        return;
      }
      query := query + 1;
      var page := PageOf(Candidates(after, now, cursor), PAGE_SIZE);
      PageIsNextDue(rows, after, page, now, cursor, results, clock);
      if page == [] {
        forall upTo: nat | forall id <- rows :: id <= upTo
          ensures Swept(rows, after, now, upTo, results, clock)
          ensures deleted == |Attempted(rows, now, upTo, results, true)|
          ensures failures == Attempted(rows, now, upTo, results, false)
        {
          NothingLeft(rows, after, now, cursor, upTo, results, clock);
        }
        finished := true;
        return;
      }
      ghost var was := cursor;
      deleted, failures, after, cursor := SweepPage(rows, after, page, now, cursor, deleted, failures, results, clock);
      reached := cursor;
      assert cursor in Behind(rows, was) && cursor !in Behind(rows, cursor);
    }
  }
}
