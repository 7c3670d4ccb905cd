/** Callers of `getOrLoad` sharing one part-index cache
    (internal/cache/part_index.go). Each critical section of the mutex is one
    step; loads and waits happen between steps, so a run of steps is any
    interleaving. Loaded indexes are immutable: a load of `key` that succeeds
    returns `load(key)`. */
module SingleFlight {
  import opened Options
  import opened PartIndexes
  import opened PartIndexCaching
  import opened Sequences

  type Loader = Key -> PartIndex

  datatype Flight = Flight(owner: nat, serial: nat)

  datatype Outcome = Got(index: PartIndex, waited: bool) | LoadFailed | Cancelled

  datatype Phase =
    | Entering
    | Waiting(flight: Flight)
    | Loading(flight: Flight)
    | Done(outcome: Outcome)

  datatype Caller = Caller(key: Key, waited: bool, phase: Phase)

  /** `closed` holds the serials of the flights whose channel is closed. */
  datatype State = State(
    capacity: int,
    lru: seq<Entry>,
    flights: map<Key, Flight>,
    closed: set<nat>,
    next: nat,
    callers: map<nat, Caller>)

  datatype Step =
    | Call(id: nat, key: Key)
    | Enter(id: nat)
    | Wake(id: nat)
    | Cancel(id: nat)
    | FinishLoad(id: nat, ok: bool)
    | Add(key: Key)

  function Start(capacity: int): State {
    State(capacity, [], map[], {}, 0, map[])
  }

  function EnterCache(s: State, id: nat): State
    requires id in s.callers
  {
    var c := s.callers[id];
    var hit := Find(s.lru, c.key);
    if hit.Some? then
      s.(lru := Touch(s.lru, c.key), callers := s.callers[id := c.(phase := Done(Got(hit.value.index, c.waited)))])
    else if c.key in s.flights then
      s.(callers := s.callers[id := c.(phase := Waiting(s.flights[c.key]))])
    else
      var flight := Flight(id, s.next);
      s.(flights := s.flights[c.key := flight], next := s.next + 1,
         callers := s.callers[id := c.(phase := Loading(flight))])
  }

  function EndLoad(s: State, id: nat, ok: bool, load: Loader): State
    requires id in s.callers && s.callers[id].phase.Loading?
  {
    var c := s.callers[id];
    s.(flights := s.flights - {c.key},
       lru := if ok then Added(s.lru, s.capacity, c.key, load(c.key)) else s.lru,
       closed := s.closed + {c.phase.flight.serial},
       callers := s.callers[id := c.(phase := Done(if ok then Got(load(c.key), true) else LoadFailed))])
  }

  function Next(s: State, step: Step, load: Loader): Option<State> {
    match step
    case Call(id, key) =>
      if id in s.callers then None
      else Some(s.(callers := s.callers[id := Caller(key, false, Entering)]))
    case Enter(id) =>
      if id in s.callers && s.callers[id].phase.Entering? then Some(EnterCache(s, id)) else None
    case Wake(id) =>
      if id in s.callers && s.callers[id].phase.Waiting? && s.callers[id].phase.flight.serial in s.closed then
        Some(s.(callers := s.callers[id := s.callers[id].(phase := Entering, waited := true)]))
      else None
    case Cancel(id) =>
      if id in s.callers && s.callers[id].phase.Waiting? then
        Some(s.(callers := s.callers[id := s.callers[id].(phase := Done(Cancelled))]))
      else None
    case FinishLoad(id, ok) =>
      if id in s.callers && s.callers[id].phase.Loading? then Some(EndLoad(s, id, ok, load)) else None
    case Add(key) =>
      Some(s.(lru := Added(s.lru, s.capacity, key, load(key))))
  }

  /** The state after the steps, or None when one of them is not possible. */
  function Run(s: State, steps: seq<Step>, load: Loader): Option<State>
    decreases |steps|
  {
    if steps == [] then Some(s)
    else match Next(s, steps[0], load)
         case Some(t) => Run(t, steps[1..], load)
         case None => None
  }

  predicate IsLoading(s: State, id: nat, key: Key) {
    id in s.callers && s.callers[id].key == key && s.callers[id].phase.Loading?
  }

  /** A key is in flight exactly when its flight's owner is loading it, and
      nobody else loads it. */
  ghost predicate OneLoaderPerFlight(s: State) {
    && (forall key <- s.flights ::
          && s.flights[key].serial < s.next
          && s.flights[key].serial !in s.closed
          && IsLoading(s, s.flights[key].owner, key)
          && s.callers[s.flights[key].owner].phase.flight == s.flights[key])
    && (forall id <- s.callers :: s.callers[id].phase.Loading? ==>
          && s.callers[id].key in s.flights
          && s.flights[s.callers[id].key].owner == id)
  }

  /** Serials are not used twice. */
  ghost predicate SerialsAreFresh(s: State) {
    && (forall serial <- s.closed :: serial < s.next)
    && (forall a <- s.flights, b <- s.flights ::
          s.flights[a].serial == s.flights[b].serial ==> a == b)
  }

  /** Whoever waits will be woken: the flight is already closed, or it is the
      one in flight for the key. */
  ghost predicate NoLostWakeup(s: State) {
    forall id <- s.callers :: s.callers[id].phase.Waiting? ==>
      var flight := s.callers[id].phase.flight;
      || flight.serial in s.closed
      || (s.callers[id].key in s.flights && s.flights[s.callers[id].key] == flight)
  }

  ghost predicate ServesLoaded(s: State, load: Loader) {
    && (forall key :: Find(s.lru, key).Some? ==> Find(s.lru, key).value.index == load(key))
    && (forall id <- s.callers :: s.callers[id].phase.Done? && s.callers[id].phase.outcome.Got? ==>
          s.callers[id].phase.outcome.index == load(s.callers[id].key))
  }

  ghost predicate Inv(s: State, load: Loader) {
    && WellFormed(s.lru, s.capacity)
    && OneLoaderPerFlight(s)
    && SerialsAreFresh(s)
    && NoLostWakeup(s)
    && ServesLoaded(s, load)
  }

  lemma AddKeepsLoaded(lru: seq<Entry>, capacity: int, key: Key, load: Loader)
    requires WellFormed(lru, capacity)
    requires forall k :: Find(lru, k).Some? ==> Find(lru, k).value.index == load(k)
    ensures WellFormed(Added(lru, capacity, key, load(key)), capacity)
    ensures forall k :: Find(Added(lru, capacity, key, load(key)), k).Some? ==>
              Find(Added(lru, capacity, key, load(key)), k).value.index == load(k)
  {
    AddedWellFormed(lru, capacity, key, load(key));
    forall k | Find(Added(lru, capacity, key, load(key)), k).Some?
      ensures Find(Added(lru, capacity, key, load(key)), k).value.index == load(k)
    {
      AddedFind(lru, capacity, key, load(key), k);
    }
  }

  lemma HitKeepsInv(s: State, id: nat, load: Loader)
    requires Inv(s, load) && id in s.callers && s.callers[id].phase.Entering?
    requires Find(s.lru, s.callers[id].key).Some?
    ensures Inv(EnterCache(s, id), load)
  {
    var key := s.callers[id].key;
    TouchWellFormed(s.lru, s.capacity, key);
    forall k
      ensures Find(Touch(s.lru, key), k) == Find(s.lru, k)
    {
      TouchKeepsEntries(s.lru, key, k);
    }
  }

  lemma JoinKeepsInv(s: State, id: nat, load: Loader)
    requires Inv(s, load) && id in s.callers && s.callers[id].phase.Entering?
    requires Find(s.lru, s.callers[id].key).None? && s.callers[id].key in s.flights
    ensures Inv(EnterCache(s, id), load)
  {
  }

  lemma LaunchKeepsFlights(s: State, id: nat)
    requires OneLoaderPerFlight(s) && SerialsAreFresh(s) && id in s.callers && s.callers[id].phase.Entering?
    requires Find(s.lru, s.callers[id].key).None? && s.callers[id].key !in s.flights
    ensures OneLoaderPerFlight(EnterCache(s, id)) && SerialsAreFresh(EnterCache(s, id))
  {
  }

  lemma LaunchKeepsInv(s: State, id: nat, load: Loader)
    requires Inv(s, load) && id in s.callers && s.callers[id].phase.Entering?
    requires Find(s.lru, s.callers[id].key).None? && s.callers[id].key !in s.flights
    ensures Inv(EnterCache(s, id), load)
  {
    LaunchKeepsFlights(s, id);
  }

  lemma EndLoadKeepsInv(s: State, id: nat, ok: bool, load: Loader)
    requires Inv(s, load) && id in s.callers && s.callers[id].phase.Loading?
    ensures Inv(EndLoad(s, id, ok, load), load)
  {
    AddKeepsLoaded(s.lru, s.capacity, s.callers[id].key, load);
  }

  lemma StepKeepsInv(s: State, step: Step, load: Loader)
    requires Inv(s, load)
    ensures Next(s, step, load).Some? ==> Inv(Next(s, step, load).value, load)
  {
    match step
    case Enter(id) =>
      if id in s.callers && s.callers[id].phase.Entering? {
        if Find(s.lru, s.callers[id].key).Some? {
          HitKeepsInv(s, id, load);
        } else if s.callers[id].key in s.flights {
          JoinKeepsInv(s, id, load);
        } else {
          LaunchKeepsInv(s, id, load);
        }
      }
    case FinishLoad(id, ok) =>
      if id in s.callers && s.callers[id].phase.Loading? {
        EndLoadKeepsInv(s, id, ok, load);
      }
    case Add(key) =>
      AddKeepsLoaded(s.lru, s.capacity, key, load);
    case _ =>
  }

  /** Over every interleaving: one loader per key in flight, no waiter left
      behind, and no caller served anything but what its key loads. */
  lemma {:induction false} EveryRunKeepsInv(s: State, steps: seq<Step>, load: Loader)
    requires Inv(s, load)
    ensures Run(s, steps, load).Some? ==> Inv(Run(s, steps, load).value, load)
    decreases |steps|
  {
    if steps != [] {
      StepKeepsInv(s, steps[0], load);
      if Next(s, steps[0], load).Some? {
        EveryRunKeepsInv(Next(s, steps[0], load).value, steps[1..], load);
      }
    }
  }

  lemma FromStart(capacity: int, steps: seq<Step>, load: Loader)
    ensures var end := Run(Start(capacity), steps, load);
            end.Some? ==> Inv(end.value, load)
  {
    EveryRunKeepsInv(Start(capacity), steps, load);
  }

  lemma AtMostOneLoad(s: State, load: Loader, a: nat, b: nat, key: Key)
    requires Inv(s, load)
    ensures IsLoading(s, a, key) && IsLoading(s, b, key) ==> a == b
    ensures key in s.flights <==> exists id :: IsLoading(s, id, key)
  {
    if key in s.flights {
      assert IsLoading(s, s.flights[key].owner, key);
    }
  }

  // Termination. A step of a caller already inside ends a call, or moves one
  // caller closer to its wait without adding to the others' way.

  function Unfinished(s: State): set<nat> {
    set id <- s.callers | !s.callers[id].phase.Done?
  }

  function Woken(s: State): set<nat> {
    set id <- s.callers | s.callers[id].phase.Waiting? && s.callers[id].phase.flight.serial in s.closed
  }

  function AtTheDoor(s: State): set<nat> {
    set id <- s.callers | s.callers[id].phase.Entering?
  }

  /** What an unfinished call weighs: more than all moves between two endings. */
  function CallWeight(unfinished: nat, callers: nat): nat {
    if unfinished == 0 then 0 else 2 * callers + 1 + CallWeight(unfinished - 1, callers)
  }

  function Rank(s: State): nat {
    CallWeight(|Unfinished(s)|, |s.callers|) + 2 * |Woken(s)| + |AtTheDoor(s)|
  }

  /** A step of a caller already inside; no new call and no direct add. */
  predicate Internal(step: Step) {
    !step.Call? && !step.Add?
  }

  lemma {:induction false} WeightGrows(a: nat, b: nat, callers: nat)
    requires a <= b
    ensures CallWeight(a, callers) <= CallWeight(b, callers)
    ensures a < b ==> CallWeight(a, callers) + 2 * callers < CallWeight(b, callers)
  {
    if a < b {
      WeightGrows(a, b - 1, callers);
    }
  }

  lemma LoadEndsDrop(s: State, step: Step, load: Loader)
    requires Inv(s, load) && step.FinishLoad? && Next(s, step, load).Some?
    ensures var t := Next(s, step, load).value;
            && t.callers.Keys == s.callers.Keys && |Unfinished(t)| < |Unfinished(s)|
            && AtTheDoor(t) == AtTheDoor(s)
            && |Woken(t)| <= |t.callers.Keys|
  {
    var t := Next(s, step, load).value;
    assert t.callers.Keys == s.callers.Keys;
    assert Unfinished(t) == Unfinished(s) - {step.id};
    assert AtTheDoor(t) == AtTheDoor(s);
    SubsetCardinality(Woken(t), t.callers.Keys);
  }

  lemma CancelDrops(s: State, step: Step, load: Loader)
    requires Inv(s, load) && step.Cancel? && Next(s, step, load).Some?
    ensures var t := Next(s, step, load).value;
            && t.callers.Keys == s.callers.Keys && |Unfinished(t)| < |Unfinished(s)|
            && AtTheDoor(t) == AtTheDoor(s) && |Woken(t)| <= |Woken(s)|
  {
    var t := Next(s, step, load).value;
    assert t.callers.Keys == s.callers.Keys;
    assert Unfinished(t) == Unfinished(s) - {step.id};
    assert AtTheDoor(t) == AtTheDoor(s);
    SubsetCardinality(Woken(t), Woken(s));
  }

  lemma MoveDrops(s: State, step: Step, load: Loader)
    requires Inv(s, load) && (step.Enter? || step.Wake?) && Next(s, step, load).Some?
    ensures var t := Next(s, step, load).value;
            && t.callers.Keys == s.callers.Keys && |Unfinished(t)| <= |Unfinished(s)|
            && 2 * |Woken(t)| + |AtTheDoor(t)| < 2 * |Woken(s)| + |AtTheDoor(s)|
  {
    var t := Next(s, step, load).value;
    assert t.callers.Keys == s.callers.Keys;
    SubsetCardinality(Unfinished(t), Unfinished(s));
    if step.Wake? {
      WakeMoves(s, step.id, load);
    } else {
      EnterMoves(s, step.id, load);
    }
  }

  lemma WakeMoves(s: State, id: nat, load: Loader)
    requires Next(s, Wake(id), load).Some?
    ensures var t := Next(s, Wake(id), load).value;
            id in Woken(s) && AtTheDoor(t) == AtTheDoor(s) + {id} && Woken(t) == Woken(s) - {id}
  {
  }

  lemma EnterMoves(s: State, id: nat, load: Loader)
    requires Inv(s, load) && Next(s, Enter(id), load).Some?
    ensures var t := Next(s, Enter(id), load).value;
            id in AtTheDoor(s) && AtTheDoor(t) == AtTheDoor(s) - {id} && Woken(t) == Woken(s)
  {
  }

  lemma RankDrops(s: State, step: Step, load: Loader)
    requires Inv(s, load) && Internal(step) && Next(s, step, load).Some?
    ensures Rank(Next(s, step, load).value) < Rank(s)
  {
    var t := Next(s, step, load).value;
    if step.FinishLoad? {
      LoadEndsDrop(s, step, load);
    } else if step.Cancel? {
      CancelDrops(s, step, load);
    } else {
      MoveDrops(s, step, load);
    }
    assert |t.callers.Keys| == |t.callers| && |s.callers.Keys| == |s.callers|;
    WeightGrows(|Unfinished(t)|, |Unfinished(s)|, |s.callers|);
  }

  /** However the callers inside are scheduled, they take only finitely many steps. */
  lemma {:induction false} QuietRunsAreShort(s: State, steps: seq<Step>, load: Loader)
    requires Inv(s, load) && forall step <- steps :: Internal(step)
    ensures Run(s, steps, load).Some? ==> |steps| + Rank(Run(s, steps, load).value) <= Rank(s)
    decreases |steps|
  {
    if steps != [] && Next(s, steps[0], load).Some? {
      StepKeepsInv(s, steps[0], load);
      RankDrops(s, steps[0], load);
      QuietRunsAreShort(Next(s, steps[0], load).value, steps[1..], load);
    }
  }

  /** While a call is unfinished some caller can move without being cancelled. */
  lemma NobodyIsStuck(s: State, load: Loader) returns (step: Step)
    requires Inv(s, load) && Unfinished(s) != {}
    ensures Internal(step) && !step.Cancel? && Next(s, step, load).Some?
  {
    var id :| id in Unfinished(s);
    match s.callers[id].phase
    case Entering =>
      step := Enter(id);
    case Waiting(flight) =>
      if flight.serial in s.closed {
        step := Wake(id);
      } else {
        step := FinishLoad(flight.owner, true);
      }
    case Loading(_) =>
      step := FinishLoad(id, true);
  }
}
