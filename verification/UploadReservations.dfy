/** Reserving an upload and removing idle ones (internal/cache/service.go,
    internal/cleanup/service.go, internal/uploadsession/session.go,
    internal/cache/upload_activity.go). Other requests act on the same rows
    between any two database calls; `schedule` says what they do before each. */
module UploadReservations {
  import opened Options
  import opened Sequences
  import opened UploadSessions

  const MAX_CONTENTION_ATTEMPTS := 5
  const ID_ATTEMPTS := 5
  const PAGE_SIZE := 10

  /** Rows from before the tuple hash was introduced are not unique by tuple. */
  datatype Row = Row(tuple: string, hashed: bool, createdAt: int, lastPartAt: Option<int>)

  type Rows = map<nat, Row>

  predicate IsIdle(row: Row, cutoff: int) {
    Inactive(row.createdAt, row.lastPartAt, cutoff)
  }

  /** The session was created or renewed at that time or later. */
  predicate ActiveRow(row: Row, time: int) {
    ActiveSince(row.createdAt, row.lastPartAt, time)
  }

  /** What another request does; new rows and touches carry the current time. */
  datatype Event =
    | Touch(id: nat)
    | Remove(id: nat)
    | Insert(id: nat, tuple: string, hashed: bool)

  function Apply(rows: Rows, event: Event, now: int): Rows {
    match event
    case Touch(id) => if id in rows then rows[id := rows[id].(lastPartAt := Some(now))] else rows
    case Remove(id) => rows - {id}
    case Insert(id, tuple, hashed) => if id in rows then rows else rows[id := Row(tuple, hashed, now, None)]
  }

  function ApplyAll(rows: Rows, events: seq<Event>, now: int): Rows
    decreases |events|
  {
    if events == [] then rows else ApplyAll(Apply(rows, events[0], now), events[1..], now)
  }

  function Inserts(events: seq<Event>): nat {
    if events == [] then 0 else (if events[0].Insert? then 1 else 0) + Inserts(events[1..])
  }

  function AllInserts(schedule: seq<Batch>): nat {
    if schedule == [] then 0 else Inserts(schedule[0].events) + AllInserts(schedule[1..])
  }

  /** What happens before one database call: time passes, others act. */
  datatype Batch = Batch(wait: nat, events: seq<Event>)

  function Idle(rows: Rows, cutoff: int): set<nat> {
    set id <- rows | IsIdle(rows[id], cutoff)
  }

  lemma {:induction false} OthersMakeNothingIdle(rows: Rows, events: seq<Event>, now: int, cutoff: int)
    requires cutoff <= now
    ensures Idle(ApplyAll(rows, events, now), cutoff) <= Idle(rows, cutoff)
    decreases |events|
  {
    if events != [] {
      OthersMakeNothingIdle(Apply(rows, events[0], now), events[1..], now, cutoff);
    }
  }

  lemma {:induction false} OthersAddOnlyInserts(rows: Rows, events: seq<Event>, now: int)
    ensures |ApplyAll(rows, events, now)| <= |rows| + Inserts(events)
    decreases |events|
  {
    if events != [] {
      var next := Apply(rows, events[0], now);
      assert |next| <= |rows| + if events[0].Insert? then 1 else 0 by {
        if events[0].Remove? {
          assert next.Keys <= rows.Keys;
          SmallerMap(next, rows);
        } else if events[0].Touch? && events[0].id in rows {
          assert next.Keys == rows.Keys;
          SmallerMap(next, rows);
        } else if events[0].Insert? && events[0].id !in rows {
          assert next.Keys == rows.Keys + {events[0].id};
          assert |next| == |next.Keys|;
        }
      }
      OthersAddOnlyInserts(next, events[1..], now);
    }
  }

  lemma SmallerMap(a: Rows, b: Rows)
    requires a.Keys <= b.Keys
    ensures |a| <= |b|
  {
    assert |a| == |a.Keys| && |b| == |b.Keys|;
    assert b.Keys == a.Keys + (b.Keys - a.Keys);
  }

  function OfTuple(rows: Rows, tuple: string): set<nat> {
    set id <- rows | rows[id].tuple == tuple
  }

  /** A row that one of our requests removed, and when. */
  datatype Removal = Removal(id: nat, row: Row, at: int)

  /** The session had been idle that long when it was removed. */
  predicate WasIdle(r: Removal, idle: int) {
    !ActiveRow(r.row, r.at - idle)
  }

  /** The rows removed since were idle that long. */
  ghost predicate OnlyIdleRemoved(before: seq<Removal>, after: seq<Removal>, idle: int) {
    before <= after && forall k :: |before| <= k < |after| ==> WasIdle(after[k], idle)
  }

  class UploadTable {
    var rows: Rows
    var now: int
    var schedule: seq<Batch>
    // the folders queued for deletion, named by the ids of their uploads
    var outbox: seq<nat>
    ghost var removed: seq<Removal>

    constructor (rows: Rows, now: int, schedule: seq<Batch>)
      ensures this.rows == rows && this.now == now && this.schedule == schedule && removed == [] && Queued()
    {
      this.rows, this.now, this.schedule, outbox, removed := rows, now, schedule, [], [];
    }

    /** The folder of every removed row is queued, and no other. */
    ghost predicate Queued()
      reads this
    {
      |outbox| == |removed| && forall i :: 0 <= i < |removed| ==> outbox[i] == removed[i].id
    }

    /** How many rows there are, or others may still insert. */
    function Potential(): nat
      reads this
    {
      |rows| + AllInserts(schedule)
    }

    /** The others' turn, before each call. */
    method Interfere()
      modifies this`rows, this`now, this`schedule
      ensures old(schedule) == [] ==> rows == old(rows) && now == old(now) && schedule == []
      ensures now >= old(now) && Potential() <= old(Potential())
      ensures forall cutoff :: cutoff <= old(now) ==> Idle(rows, cutoff) <= old(Idle(rows, cutoff))
    {
      if schedule == [] {
        return;
      }
      now := now + schedule[0].wait;
      OthersAddOnlyInserts(rows, schedule[0].events, now);
      forall cutoff | cutoff <= now
        ensures Idle(ApplyAll(rows, schedule[0].events, now), cutoff) <= Idle(rows, cutoff)
      {
        OthersMakeNothingIdle(rows, schedule[0].events, now, cutoff);
      }
      rows := ApplyAll(rows, schedule[0].events, now);
      schedule := schedule[1..];
    }

    /** The row with the least id. */
    method FirstByTuple(tuple: string) returns (r: Option<nat>)
      modifies this`rows, this`now, this`schedule
      ensures old(schedule) == [] ==> rows == old(rows) && now == old(now) && schedule == []
      ensures now >= old(now) && Potential() <= old(Potential())
      ensures r.None? <==> OfTuple(rows, tuple) == {}
      ensures r.Some? ==> r.value in OfTuple(rows, tuple) && forall id <- OfTuple(rows, tuple) :: r.value <= id
    {
      Interfere();
      r := if OfTuple(rows, tuple) == {} then None else Some(Least(OfTuple(rows, tuple)));
    }

    /** Deletes the row only if it is idle when the deletion runs, and queues its
        folder in the same transaction. */
    method DeleteIfInactive(id: nat, cutoff: int, ghost idle: int) returns (deleted: bool)
      modifies this
      ensures now >= old(now)
      ensures deleted ==> Potential() < old(Potential())
      ensures outbox == old(outbox) + if deleted then [id] else []
      ensures old(Queued()) ==> Queued()
      ensures |removed| == |old(removed)| + if deleted then 1 else 0
      ensures cutoff <= old(now) - idle ==> OnlyIdleRemoved(old(removed), removed, idle)
      ensures cutoff <= old(now) ==> Idle(rows, cutoff) <= old(Idle(rows, cutoff)) - {id}
      ensures !deleted ==> Potential() <= old(Potential())
      ensures old(schedule) == [] ==>
                && now == old(now) && schedule == []
                && deleted == (id in old(rows) && IsIdle(old(rows)[id], cutoff))
                && rows == if deleted then old(rows) - {id} else old(rows)
    {
      Interfere();
      deleted := id in rows && IsIdle(rows[id], cutoff);
      if deleted {
        ghost var before := rows;
        removed := removed + [Removal(id, rows[id], now)];
        outbox := outbox + [id];
        rows := rows - {id};
        assert rows.Keys == before.Keys - {id};
        assert |rows| == |rows.Keys| && |before| == |before.Keys|;
      }
    }

    /** Some idle rows, at most a page of them. */
    method QueryIdle(cutoff: int) returns (page: seq<nat>)
      modifies this`rows, this`now, this`schedule
      ensures now >= old(now)
      ensures page == [] <==> Idle(rows, cutoff) == {}
      ensures |page| <= PAGE_SIZE && Distinct(page) && forall id <- page :: id in Idle(rows, cutoff)
      ensures cutoff <= old(now) ==> Idle(rows, cutoff) <= old(Idle(rows, cutoff))
      ensures old(schedule) == [] ==> rows == old(rows) && now == old(now) && schedule == []
    {
      Interfere();
      page := PageOf(Idle(rows, cutoff), PAGE_SIZE);
      if page != [] {
        assert page[0] in Idle(rows, cutoff);
      }
    }

    method Exists(id: nat) returns (r: bool)
      modifies this`rows, this`now, this`schedule
      ensures r == (id in rows)
      ensures now >= old(now) && Potential() <= old(Potential())
      ensures old(schedule) == [] ==> rows == old(rows) && now == old(now) && schedule == []
    {
      Interfere();
      r := id in rows;
    }

    /** Ids are unique, and so are the tuples of rows that carry their hash. */
    method Create(id: nat, tuple: string) returns (created: bool)
      modifies this`rows, this`now, this`schedule
      ensures now >= old(now)
      ensures created ==> id in rows && rows[id] == Row(tuple, true, now, None)
      ensures !created ==> Potential() <= old(Potential())
      ensures old(schedule) == [] ==>
                && now == old(now) && schedule == []
                && (created <==> id !in old(rows) && forall x <- OfTuple(old(rows), tuple) :: !old(rows)[x].hashed)
                && rows == if created then old(rows)[id := Row(tuple, true, now, None)] else old(rows)
    {
      Interfere();
      created := id !in rows && forall x <- rows :: rows[x].tuple == tuple ==> !rows[x].hashed;
      if created {
        rows := rows[id := Row(tuple, true, now, None)];
      }
    }

    method CountByTuple(tuple: string) returns (n: nat)
      modifies this`rows, this`now, this`schedule
      ensures n == |OfTuple(rows, tuple)|
      ensures now >= old(now) && Potential() <= old(Potential())
      ensures old(schedule) == [] ==> rows == old(rows) && now == old(now) && schedule == []
    {
      Interfere();
      n := |OfTuple(rows, tuple)|;
    }
  }

  datatype Recorded = Made(id: nat) | Taken | Broken

  /** createUploadRecord: draws ids until one is free, unless the tuple is. */
  method CreateUploadRecord(table: UploadTable, tuple: string, draw: nat -> nat, drawn: nat)
    returns (r: Recorded, next: nat)
    modifies table`rows, table`now, table`schedule
    ensures table.now >= old(table.now)
    ensures r.Made? ==> r.id in table.rows && table.rows[r.id] == Row(tuple, true, table.now, None)
    ensures !r.Made? ==> table.Potential() <= old(table.Potential())
    ensures old(table.schedule) == [] && OfTuple(old(table.rows), tuple) == {} ==>
              && table.now == old(table.now) && table.schedule == [] && !r.Taken?
              && (r.Made? ==> r.id !in old(table.rows)
                              && table.rows == old(table.rows)[r.id := Row(tuple, true, table.now, None)])
              && (r.Broken? ==> table.rows == old(table.rows) && AllTaken(draw, drawn, old(table.rows)))
  {
    next := drawn;
    for attempt := 0 to ID_ATTEMPTS
      invariant next == drawn + attempt
      invariant table.now >= old(table.now) && table.Potential() <= old(table.Potential())
      invariant old(table.schedule) == [] ==>
                  table.schedule == [] && table.rows == old(table.rows) && table.now == old(table.now)
      invariant old(table.schedule) == [] && OfTuple(old(table.rows), tuple) == {} ==>
                  forall k: nat :: drawn <= k < next ==> draw(k) in old(table.rows)
    {
      var id := draw(next);
      next := next + 1;
      var created := table.Create(id, tuple);
      if created {
        return Made(id), next;
      }
      var count := table.CountByTuple(tuple);
      if count == 1 {
        return Taken, next;
      }
      if count > 1 {
        return Broken, next;
      }
    }
    return Broken, next;
  }

  datatype Reservation = Created(id: nat) | AlreadyExists | Failed

  /** Sessions of the tuple give way one by one, the least id first, all idle. */
  ghost predicate GiveWay(before: Rows, after: Rows, cutoff: int, tuple: string, gone: seq<nat>)
    decreases |gone|
  {
    if gone == [] then after == before
    else
      var rest, last := gone[..|gone| - 1], gone[|gone| - 1];
      exists between: Rows ::
        && GiveWay(before, between, cutoff, tuple, rest)
        && last in OfTuple(between, tuple) && (forall x <- OfTuple(between, tuple) :: last <= x)
        && IsIdle(between[last], cutoff) && after == between - {last}
  }

  lemma OneMoreGivesWay(before: Rows, rows: Rows, cutoff: int, tuple: string, gone: seq<nat>, id: nat)
    requires GiveWay(before, rows, cutoff, tuple, gone)
    requires id in OfTuple(rows, tuple) && (forall x <- OfTuple(rows, tuple) :: id <= x) && IsIdle(rows[id], cutoff)
    ensures GiveWay(before, rows - {id}, cutoff, tuple, gone + [id])
  {
    assert (gone + [id])[..|gone|] == gone;
  }

  /** What that means for the rows: the ones that went are sessions of the
      tuple, idle, and come before all that are left of it. */
  lemma {:induction false} GivingWayMeans(before: Rows, after: Rows, cutoff: int, tuple: string, gone: seq<nat>)
    requires GiveWay(before, after, cutoff, tuple, gone)
    ensures forall id :: id in after <==> id in before && id !in gone
    ensures forall id <- after :: after[id] == before[id]
    ensures forall id <- gone :: id in OfTuple(before, tuple) && IsIdle(before[id], cutoff)
    ensures forall id <- gone, left <- OfTuple(after, tuple) :: id < left
    decreases |gone|
  {
    if gone != [] {
      var rest, last := gone[..|gone| - 1], gone[|gone| - 1];
      var between: Rows :| GiveWay(before, between, cutoff, tuple, rest) && last in OfTuple(between, tuple)
                           && (forall x <- OfTuple(between, tuple) :: last <= x)
                           && IsIdle(between[last], cutoff) && after == between - {last};
      GivingWayMeans(before, between, cutoff, tuple, rest);
      assert gone == rest + [last];
      forall left | left in OfTuple(after, tuple)
        ensures left in OfTuple(between, tuple) && last < left
      {
        assert left in between && left != last;
      }
    }
  }

  /** How the loop ends once the idle sessions have given way. */
  ghost predicate Settles(rows: Rows, after: Rows, now: int, tuple: string, r: Reservation) {
    match r
    case Created(id) =>
      OfTuple(rows, tuple) == {} && id !in rows && after == rows[id := Row(tuple, true, now, None)]
    case AlreadyExists =>
      exists id <- OfTuple(rows, tuple) ::
        !IsIdle(rows[id], now - TAKEOVER_IDLE) && (forall x <- OfTuple(rows, tuple) :: id <= x) && after == rows
    case Failed =>
      OfTuple(rows, tuple) == {} && after == rows
  }

  /** What a reservation answers when nobody else is about: the tuple is in use
      exactly when one of its sessions was active in the last five minutes;
      otherwise all of them give way to the new one, unless every id drawn for it
      is taken. */
  ghost predicate Answers(before: Rows, after: Rows, now: int, tuple: string, draw: nat -> nat, r: Reservation) {
    var active := exists id <- OfTuple(before, tuple) :: ActiveRow(before[id], now - TAKEOVER_IDLE);
    && (r == AlreadyExists <==> active)
    && (forall id <- before :: before[id].tuple != tuple || ActiveRow(before[id], now - TAKEOVER_IDLE) ==>
          id in after && after[id] == before[id])
    && (forall id <- after :: (id in before && after[id] == before[id]) || r == Created(id))
    && (r.Created? ==> OfTuple(after, tuple) == {r.id} && r.id in after && after[r.id] == Row(tuple, true, now, None))
    && (r == Failed ==> OfTuple(after, tuple) == {} && exists drawn: nat :: AllTaken(draw, drawn, after))
  }

  ghost predicate AllTaken(draw: nat -> nat, drawn: nat, rows: Rows) {
    forall k: nat :: drawn <= k < drawn + ID_ATTEMPTS ==> draw(k) in rows
  }

  lemma ReservationAnswers(
    before: Rows, left: Rows, after: Rows, now: int, tuple: string, gone: seq<nat>, draw: nat -> nat, r: Reservation)
    requires GiveWay(before, left, now - TAKEOVER_IDLE, tuple, gone) && Settles(left, after, now, tuple, r)
    requires r == Failed ==> exists drawn: nat :: AllTaken(draw, drawn, after)
    ensures Answers(before, after, now, tuple, draw, r)
  {
    GivingWayMeans(before, left, now - TAKEOVER_IDLE, tuple, gone);
    if id :| id in OfTuple(before, tuple) && ActiveRow(before[id], now - TAKEOVER_IDLE) {
      assert id in OfTuple(left, tuple);
    }
    if r == AlreadyExists {
      var id :| id in OfTuple(left, tuple) && !IsIdle(left[id], now - TAKEOVER_IDLE);
      assert ActiveRow(before[id], now - TAKEOVER_IDLE);
    }
  }

  lemma RoundAnswers(
    before: Rows, left: Rows, after: Rows, now: int, tuple: string, gone: seq<nat>, draw: nat -> nat, drawn: nat, r: Reservation)
    requires GiveWay(before, left, now - TAKEOVER_IDLE, tuple, gone) && Settles(left, after, now, tuple, r)
    requires r == Failed ==> AllTaken(draw, drawn, after)
    ensures Answers(before, after, now, tuple, draw, r)
  {
    ReservationAnswers(before, left, after, now, tuple, gone, draw, r);
  }

  /** What one round of the loop comes to. */
  datatype Round = Removed | Contended | Ended(r: Reservation)

  /** An existing session gives way, or is in use, or was gone already. */
  method TakeOver(table: UploadTable, id: nat) returns (round: Round)
    modifies table
    ensures round in {Removed, Contended, Ended(AlreadyExists)}
    ensures round.Removed? ==> table.Potential() < old(table.Potential())
    ensures OnlyIdleRemoved(old(table.removed), table.removed, TAKEOVER_IDLE)
    ensures old(table.Queued()) ==> table.Queued()
    ensures old(table.schedule) == [] && id in old(table.rows) ==>
              && table.schedule == [] && table.now == old(table.now) && !round.Contended?
              && (round.Removed? <==> IsIdle(old(table.rows)[id], table.now - TAKEOVER_IDLE))
              && table.rows == if round.Removed? then old(table.rows) - {id} else old(table.rows)
  {
    var cutoff := table.now - TAKEOVER_IDLE;
    var deleted := table.DeleteIfInactive(id, cutoff, TAKEOVER_IDLE);
    if deleted {
      return Removed;
    }
    var stillThere := table.Exists(id);
    return if stillThere then Ended(AlreadyExists) else Contended;
  }

  /** No session of the tuple is left: a new one is recorded, unless somebody
      is faster. */
  method RecordNew(table: UploadTable, tuple: string, draw: nat -> nat, drawn: nat) returns (round: Round, next: nat)
    modifies table`rows, table`now, table`schedule
    ensures !round.Removed?
    ensures round.Ended? && round.r.Created? ==>
              round.r.id in table.rows && table.rows[round.r.id] == Row(tuple, true, table.now, None)
    ensures old(table.schedule) == [] && OfTuple(old(table.rows), tuple) == {} ==>
              && table.schedule == [] && table.now == old(table.now)
              && round.Ended? && Settles(old(table.rows), table.rows, table.now, tuple, round.r)
              && (round.r == Failed ==> AllTaken(draw, drawn, table.rows))
  {
    var recorded;
    recorded, next := CreateUploadRecord(table, tuple, draw, drawn);
    match recorded
    case Made(id) => round := Ended(Created(id));
    case Broken => round := Ended(Failed);
    case Taken => round := Contended;
  }

  /** The first session of the tuple. */
  method TakeOverFirst(table: UploadTable, tuple: string, id: nat, ghost before: Rows, ghost gone: seq<nat>)
    returns (round: Round, ghost nowGone: seq<nat>)
    modifies table
    ensures round in {Removed, Contended, Ended(AlreadyExists)}
    ensures round.Removed? ==> table.Potential() < old(table.Potential())
    ensures OnlyIdleRemoved(old(table.removed), table.removed, TAKEOVER_IDLE)
    ensures old(table.Queued()) ==> table.Queued()
    ensures old(table.schedule) == [] && id in OfTuple(old(table.rows), tuple)
            && (forall x <- OfTuple(old(table.rows), tuple) :: id <= x) ==>
              && table.schedule == [] && table.now == old(table.now) && !round.Contended?
              && (round.Ended? ==> nowGone == gone && Settles(old(table.rows), table.rows, table.now, tuple, round.r))
              && (GiveWay(before, old(table.rows), table.now - TAKEOVER_IDLE, tuple, gone) && round.Removed? ==>
                    GiveWay(before, table.rows, table.now - TAKEOVER_IDLE, tuple, nowGone))
  {
    ghost var rows := table.rows;
    nowGone := gone;
    round := TakeOver(table, id);
    if round.Removed? {
      nowGone := gone + [id];
      if old(table.schedule) == [] && id in OfTuple(rows, tuple) && (forall x <- OfTuple(rows, tuple) :: id <= x)
         && GiveWay(before, rows, table.now - TAKEOVER_IDLE, tuple, gone) {
        OneMoreGivesWay(before, rows, table.now - TAKEOVER_IDLE, tuple, gone, id);
      }
    }
  }

  method TryOnce(table: UploadTable, tuple: string, draw: nat -> nat, drawn: nat, ghost before: Rows, ghost gone: seq<nat>)
    returns (round: Round, next: nat, ghost nowGone: seq<nat>)
    modifies table
    ensures round.Removed? ==> table.Potential() < old(table.Potential())
    ensures OnlyIdleRemoved(old(table.removed), table.removed, TAKEOVER_IDLE)
    ensures old(table.Queued()) ==> table.Queued()
    ensures round.Ended? && round.r.Created? ==>
              round.r.id in table.rows && table.rows[round.r.id] == Row(tuple, true, table.now, None)
    ensures old(table.schedule) == [] ==>
              && table.schedule == [] && table.now == old(table.now) && !round.Contended?
              && (round.Ended? ==> nowGone == gone && Settles(old(table.rows), table.rows, table.now, tuple, round.r))
              && (round == Ended(Failed) ==> AllTaken(draw, drawn, table.rows))
              && (GiveWay(before, old(table.rows), table.now - TAKEOVER_IDLE, tuple, gone) && round.Removed? ==>
                    GiveWay(before, table.rows, table.now - TAKEOVER_IDLE, tuple, nowGone))
  {
    next, nowGone := drawn, gone;
    var first := table.FirstByTuple(tuple);
    if first.Some? {
      round, nowGone := TakeOverFirst(table, tuple, first.value, before, gone);
    } else {
      round, next := RecordNew(table, tuple, draw, drawn);
    }
  }

  /** CreateUpload's loop. It ends however the others act: a round returns, uses
      up an attempt, or removes a row. With nobody else about, the idle sessions
      that come first give way; the new row is made if none is left. */
  method Reserve(table: UploadTable, tuple: string, draw: nat -> nat)
    returns (r: Reservation, ghost gone: seq<nat>, ghost left: Rows)
    modifies table
    ensures r.Created? ==> r.id in table.rows && table.rows[r.id] == Row(tuple, true, table.now, None)
    ensures OnlyIdleRemoved(old(table.removed), table.removed, TAKEOVER_IDLE)
    ensures old(table.Queued()) ==> table.Queued()
    ensures old(table.schedule) == [] ==>
              && GiveWay(old(table.rows), left, old(table.now) - TAKEOVER_IDLE, tuple, gone)
              && Settles(left, table.rows, table.now, tuple, r)
              && table.now == old(table.now) && Answers(old(table.rows), table.rows, table.now, tuple, draw, r)
  {
    var attempts, drawn := 0, 0;
    gone, left := [], table.rows;
    while attempts < MAX_CONTENTION_ATTEMPTS
      invariant OnlyIdleRemoved(old(table.removed), table.removed, TAKEOVER_IDLE)
      invariant old(table.Queued()) ==> table.Queued()
      invariant left == table.rows
      invariant old(table.schedule) == [] ==>
                  && attempts == 0 && table.schedule == [] && table.now == old(table.now)
                  && GiveWay(old(table.rows), left, table.now - TAKEOVER_IDLE, tuple, gone)
      decreases MAX_CONTENTION_ATTEMPTS - attempts, table.Potential()
    {
      var round;
      ghost var at := drawn;
      round, drawn, gone := TryOnce(table, tuple, draw, drawn, old(table.rows), gone);
      match round {
        case Ended(reservation) =>
          r := reservation;
          if old(table.schedule) == [] {
            RoundAnswers(old(table.rows), left, table.rows, table.now, tuple, gone, draw, at, r);
          }
          return;
        case Removed =>
        case Contended => attempts := attempts + 1;
      }
      left := table.rows;
    }
    r := AlreadyExists;
  }

  /** Only idle rows are missing. */
  ghost predicate Cleaned(before: Rows, after: Rows, cutoff: int) {
    && (forall id <- after :: id in before && after[id] == before[id])
    && (forall id <- before :: id in after || IsIdle(before[id], cutoff))
  }

  method CleanPage(table: UploadTable, page: seq<nat>, cutoff: int) returns (deleted: nat)
    requires cutoff <= table.now - CLEANUP_IDLE
    modifies table
    ensures table.now >= old(table.now) && |table.removed| == |old(table.removed)| + deleted
    ensures OnlyIdleRemoved(old(table.removed), table.removed, CLEANUP_IDLE)
    ensures old(table.Queued()) ==> table.Queued()
    ensures Idle(table.rows, cutoff) <= old(Idle(table.rows, cutoff))
    ensures forall id <- page :: id !in Idle(table.rows, cutoff)
    ensures old(table.schedule) == [] ==> table.schedule == [] && Cleaned(old(table.rows), table.rows, cutoff)
  {
    deleted := 0;
    for i := 0 to |page|
      invariant table.now >= old(table.now) && |table.removed| == |old(table.removed)| + deleted
      invariant OnlyIdleRemoved(old(table.removed), table.removed, CLEANUP_IDLE)
      invariant old(table.Queued()) ==> table.Queued()
      invariant forall j :: 0 <= j < i ==> page[j] !in Idle(table.rows, cutoff)
      invariant Idle(table.rows, cutoff) <= old(Idle(table.rows, cutoff))
      invariant old(table.schedule) == [] ==> table.schedule == [] && Cleaned(old(table.rows), table.rows, cutoff)
    {
      var gone := table.DeleteIfInactive(page[i], cutoff, CLEANUP_IDLE);
      if gone {
        deleted := deleted + 1;
      }
    }
  }

  /** Passive cleanup. It ends because every listed row is then no longer idle
      or no longer there, and nobody makes a row idle at the same cutoff. */
  method RunUploads(table: UploadTable) returns (deleted: nat)
    modifies table
    ensures Idle(table.rows, old(table.now) - CLEANUP_IDLE) == {}
    ensures forall id <- table.rows :: ActiveRow(table.rows[id], old(table.now) - CLEANUP_IDLE)
    ensures |table.removed| == |old(table.removed)| + deleted
    ensures OnlyIdleRemoved(old(table.removed), table.removed, CLEANUP_IDLE)
    ensures old(table.Queued()) ==> table.Queued()
    ensures old(table.schedule) == [] ==> Cleaned(old(table.rows), table.rows, old(table.now) - CLEANUP_IDLE)
    ensures old(table.schedule) == [] ==>
              table.rows == map id | id in old(table.rows) && ActiveRow(old(table.rows)[id], old(table.now) - CLEANUP_IDLE)
                              :: old(table.rows)[id]
  {
    var cutoff := table.now - CLEANUP_IDLE;
    deleted := 0;
    var page := table.QueryIdle(cutoff);
    while page != []
      invariant table.now >= old(table.now) && |table.removed| == |old(table.removed)| + deleted
      invariant OnlyIdleRemoved(old(table.removed), table.removed, CLEANUP_IDLE)
      invariant old(table.Queued()) ==> table.Queued()
      invariant page == [] <==> Idle(table.rows, cutoff) == {}
      invariant forall id <- page :: id in Idle(table.rows, cutoff)
      invariant old(table.schedule) == [] ==> table.schedule == [] && Cleaned(old(table.rows), table.rows, cutoff)
      decreases Idle(table.rows, cutoff)
    {
      assert page[0] in page;
      var gone := CleanPage(table, page, cutoff);
      deleted := deleted + gone;
      page := table.QueryIdle(cutoff);
    }
    forall id | id in table.rows
      ensures ActiveRow(table.rows[id], cutoff)
    {
      assert id !in Idle(table.rows, cutoff);
    }
  }
}
