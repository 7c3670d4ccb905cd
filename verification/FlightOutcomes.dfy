/** How the calls of a shared part-index cache end, over whole runs. */
module FlightOutcomes {
  import opened Options
  import opened PartIndexes
  import opened PartIndexCaching
  import opened SingleFlight

  /** The run added an index for the key, or loaded one with success. */
  ghost predicate Produced(callers: map<nat, Caller>, steps: seq<Step>, key: Key) {
    || Step.Add(key) in steps
    || exists id <- callers :: callers[id].key == key && FinishLoad(id, true) in steps
  }

  /** What a caller has come to, in terms of the steps of the run. */
  ghost predicate Explained(c: Caller, id: nat, steps: seq<Step>, load: Loader) {
    && (c.phase == Done(LoadFailed) <==> FinishLoad(id, false) in steps)
    && (c.phase == Done(Cancelled) <==> Cancel(id) in steps)
    && (FinishLoad(id, true) in steps ==> c.phase == Done(Got(load(c.key), true)))
    && (c.waited <==> Wake(id) in steps)
    && (c.phase.Done? && c.phase.outcome.Got? ==>
          && c.phase.outcome.index == load(c.key)
          && (c.phase.outcome.waited <==> Wake(id) in steps || FinishLoad(id, true) in steps))
  }

  predicate Silent(id: nat, steps: seq<Step>) {
    FinishLoad(id, true) !in steps && FinishLoad(id, false) !in steps && Cancel(id) !in steps && Wake(id) !in steps
  }

  ghost predicate AllExplained(callers: map<nat, Caller>, steps: seq<Step>, load: Loader) {
    && (forall id <- callers :: Explained(callers[id], id, steps, load))
    && (forall id: nat :: id !in callers ==> Silent(id, steps))
  }

  /** Cached indexes and hits come from somewhere. */
  ghost predicate AllProduced(s: State, steps: seq<Step>) {
    && (forall key :: Find(s.lru, key).Some? ==> Produced(s.callers, steps, key))
    && (forall id <- s.callers :: s.callers[id].phase.Done? && s.callers[id].phase.outcome.Got? ==>
          Produced(s.callers, steps, s.callers[id].key))
  }

  lemma {:induction false} RunSnoc(s: State, steps: seq<Step>, step: Step, load: Loader)
    ensures Run(s, steps + [step], load)
         == match Run(s, steps, load) case Some(t) => Next(t, step, load) case None => None
    decreases |steps|
  {
    if steps == [] {
      assert [] + [step] == [step];
    } else {
      assert (steps + [step])[1..] == steps[1..] + [step];
      if Next(s, steps[0], load).Some? {
        RunSnoc(Next(s, steps[0], load).value, steps[1..], step, load);
      }
    }
  }

  lemma OneExplained(s: State, steps: seq<Step>, step: Step, load: Loader, id: nat)
    requires Inv(s, load) && Next(s, step, load).Some? && id in s.callers
    requires Explained(s.callers[id], id, steps, load)
    ensures id in Next(s, step, load).value.callers
    ensures Explained(Next(s, step, load).value.callers[id], id, steps + [step], load)
  {
    assert forall x :: x in steps + [step] <==> x in steps || x == step;
  }

  lemma NewExplained(s: State, steps: seq<Step>, step: Step, load: Loader, id: nat)
    requires Next(s, step, load).Some? && id !in s.callers && Silent(id, steps)
    ensures var t := Next(s, step, load).value;
            if id in t.callers then Explained(t.callers[id], id, steps + [step], load) else Silent(id, steps + [step])
  {
    assert forall x :: x in steps + [step] <==> x in steps || x == step;
  }

  lemma StepExplains(s: State, steps: seq<Step>, step: Step, load: Loader)
    requires Inv(s, load) && AllExplained(s.callers, steps, load) && Next(s, step, load).Some?
    ensures AllExplained(Next(s, step, load).value.callers, steps + [step], load)
  {
    forall id: nat | id in s.callers
      ensures id in Next(s, step, load).value.callers
      ensures Explained(Next(s, step, load).value.callers[id], id, steps + [step], load)
    {
      OneExplained(s, steps, step, load, id);
    }
    forall id: nat | id !in s.callers
      ensures var t := Next(s, step, load).value;
              if id in t.callers then Explained(t.callers[id], id, steps + [step], load) else Silent(id, steps + [step])
    {
      NewExplained(s, steps, step, load, id);
    }
  }

  lemma ProducedStays(s: State, t: State, steps: seq<Step>, step: Step, key: Key)
    requires Produced(s.callers, steps, key)
    requires forall id <- s.callers :: id in t.callers && t.callers[id].key == s.callers[id].key
    ensures Produced(t.callers, steps + [step], key)
  {
    if Step.Add(key) !in steps {
      var id :| id in s.callers && s.callers[id].key == key && FinishLoad(id, true) in steps;
      assert FinishLoad(id, true) in steps + [step];
    } else {
      assert Step.Add(key) in steps + [step];
    }
  }

  lemma KeysStay(s: State, step: Step, load: Loader)
    requires Next(s, step, load).Some?
    ensures var t := Next(s, step, load).value;
            forall id <- s.callers :: id in t.callers && t.callers[id].key == s.callers[id].key
  {
  }

  /** The key whose index the step puts into the cache. */
  function Puts(s: State, step: Step): Option<Key> {
    match step
    case Add(key) => Some(key)
    case FinishLoad(id, ok) => if ok && id in s.callers then Some(s.callers[id].key) else None
    case _ => None
  }

  /** A step finds nothing in the cache that was not there, but what it puts in. */
  lemma LookupsStay(s: State, step: Step, load: Loader, k: Key)
    requires Inv(s, load) && Next(s, step, load).Some?
    ensures var t := Next(s, step, load).value;
            Find(t.lru, k).Some? ==> Find(t.lru, k) == Find(s.lru, k) || Puts(s, step) == Some(k)
  {
    match step
    case Add(key) => AddedFind(s.lru, s.capacity, key, load(key), k);
    case FinishLoad(id, ok) =>
      var key := s.callers[id].key;
      AddedFind(s.lru, s.capacity, key, load(key), k);
    case Enter(id) =>
      var key := s.callers[id].key;
      if Find(s.lru, key).Some? {
        TouchKeepsEntries(s.lru, key, k);
      }
    case _ =>
  }

  lemma PutIsProduced(s: State, steps: seq<Step>, step: Step, load: Loader, key: Key)
    requires Next(s, step, load).Some? && Puts(s, step) == Some(key)
    ensures Produced(Next(s, step, load).value.callers, steps + [step], key)
  {
    assert step in steps + [step];
    KeysStay(s, step, load);
  }

  /** Only a hit or a load of its own gives a caller an index. */
  lemma GotFrom(s: State, step: Step, load: Loader, id: nat)
    requires Inv(s, load) && Next(s, step, load).Some? && id in Next(s, step, load).value.callers
    requires var c := Next(s, step, load).value.callers[id]; c.phase.Done? && c.phase.outcome.Got?
    ensures id in s.callers
    ensures s.callers[id].phase == Next(s, step, load).value.callers[id].phase
            || Find(s.lru, s.callers[id].key).Some? || Puts(s, step) == Some(s.callers[id].key)
  {
  }

  lemma StepProduces(s: State, steps: seq<Step>, step: Step, load: Loader)
    requires Inv(s, load) && AllProduced(s, steps) && Next(s, step, load).Some?
    ensures AllProduced(Next(s, step, load).value, steps + [step])
  {
    var t := Next(s, step, load).value;
    KeysStay(s, step, load);
    forall key | Find(t.lru, key).Some?
      ensures Produced(t.callers, steps + [step], key)
    {
      LookupsStay(s, step, load, key);
      if Puts(s, step) == Some(key) {
        PutIsProduced(s, steps, step, load, key);
      } else {
        ProducedStays(s, t, steps, step, key);
      }
    }
    forall id | id in t.callers && t.callers[id].phase.Done? && t.callers[id].phase.outcome.Got?
      ensures Produced(t.callers, steps + [step], t.callers[id].key)
    {
      GotFrom(s, step, load, id);
      if Puts(s, step) == Some(s.callers[id].key) {
        PutIsProduced(s, steps, step, load, s.callers[id].key);
      } else {
        ProducedStays(s, t, steps, step, s.callers[id].key);
      }
    }
  }

  lemma {:induction false} RunExplains(capacity: int, steps: seq<Step>, load: Loader)
    requires Run(Start(capacity), steps, load).Some?
    ensures var t := Run(Start(capacity), steps, load).value;
            Inv(t, load) && AllExplained(t.callers, steps, load) && AllProduced(t, steps)
    decreases |steps|
  {
    if steps != [] {
      var before, step := steps[..|steps| - 1], steps[|steps| - 1];
      assert steps == before + [step];
      RunSnoc(Start(capacity), before, step, load);
      RunExplains(capacity, before, load);
      var s := Run(Start(capacity), before, load).value;
      StepExplains(s, before, step, load);
      StepProduces(s, before, step, load);
      FromStart(capacity, steps, load);
    }
  }

  /** How every call of a run ends. It fails exactly when its own load failed,
      and is cancelled exactly when it was cancelled; a load of its own that
      succeeds, or an index that the run put into the cache before, gives it
      what its key loads, and says whether it had to wait for that. */
  lemma CallsEndAsTheirLoads(capacity: int, steps: seq<Step>, load: Loader, id: nat)
    requires Run(Start(capacity), steps, load).Some? && id in Run(Start(capacity), steps, load).value.callers
    ensures var t := Run(Start(capacity), steps, load).value;
            Explained(t.callers[id], id, steps, load)
            && (t.callers[id].phase.Done? && t.callers[id].phase.outcome.Got? ==> Produced(t.callers, steps, t.callers[id].key))
  {
    RunExplains(capacity, steps, load);
  }

  /** Where no load of a key failed, no caller of the key fails. */
  lemma NoFailureWithoutAFailedLoad(capacity: int, steps: seq<Step>, load: Loader, id: nat)
    requires Run(Start(capacity), steps, load).Some? && id in Run(Start(capacity), steps, load).value.callers
    requires var t := Run(Start(capacity), steps, load).value;
             forall x <- t.callers :: t.callers[x].key == t.callers[id].key ==> FinishLoad(x, false) !in steps
    ensures Run(Start(capacity), steps, load).value.callers[id].phase != Done(LoadFailed)
  {
    CallsEndAsTheirLoads(capacity, steps, load, id);
  }

  /** A loaded or added index that fits is found at once, first in the list. */
  lemma PutIsFound(s: State, step: Step, load: Loader, key: Key)
    requires Inv(s, load) && Next(s, step, load).Some? && Puts(s, step) == Some(key)
    requires s.capacity > 0 && Weight(key, load(key)) <= s.capacity
    ensures var t := Next(s, step, load).value;
            Find(t.lru, key).Some? && Find(t.lru, key).value.index == load(key) && t.lru[0].key == key
  {
    AddedFind(s.lru, s.capacity, key, load(key), key);
    if Find(s.lru, key).Some? {
      TouchWellFormed(s.lru, s.capacity, key);
    }
  }

  /** It stays until another index that fits is put in and leaves no room for all. */
  lemma FoundUntilEvicted(s: State, step: Step, load: Loader, k: Key)
    requires Inv(s, load) && Next(s, step, load).Some? && Find(s.lru, k).Some?
    ensures var t := Next(s, step, load).value;
            Find(t.lru, k).None? ==>
              && Puts(s, step).Some? && Find(s.lru, Puts(s, step).value).None?
              && var key := Puts(s, step).value;
                 && Weight(key, load(key)) <= s.capacity
                 && TotalWeight(s.lru) + Weight(key, load(key)) > s.capacity
  {
    match step
    case Add(key) => AddedLoses(s.lru, s.capacity, key, load(key), k);
    case FinishLoad(id, ok) => AddedLoses(s.lru, s.capacity, s.callers[id].key, load(s.callers[id].key), k);
    case Enter(id) =>
      if Find(s.lru, s.callers[id].key).Some? {
        TouchKeepsEntries(s.lru, s.callers[id].key, k);
      }
    case _ =>
  }

  lemma AddedKeepsAll(lru: seq<Entry>, capacity: int, key: Key, index: PartIndex, k: Key)
    requires Find(lru, k).Some? && Find(lru, key).None? && TotalWeight(lru) + Weight(key, index) <= capacity
    ensures Find(Added(lru, capacity, key, index), k).Some?
  {
    AddedKeepsOrder(lru, capacity, key, index);
    assert lru[..|lru|] == lru;
    assert Added(lru, capacity, key, index)[1..] == lru;
  }

  lemma AddedLoses(lru: seq<Entry>, capacity: int, key: Key, index: PartIndex, k: Key)
    requires WellFormed(lru, capacity) && Find(lru, k).Some?
    ensures Find(Added(lru, capacity, key, index), k).None? ==>
              Find(lru, key).None? && Weight(key, index) <= capacity && TotalWeight(lru) + Weight(key, index) > capacity
  {
    if Find(lru, key).Some? {
      TouchKeepsEntries(lru, key, k);
    } else if TotalWeight(lru) + Weight(key, index) <= capacity {
      AddedKeepsAll(lru, capacity, key, index, k);
    }
  }

  /** A hit takes no lock and no load: the caller is done at once, the entry
      moves to the front and nothing else changes. */
  lemma HitIsServed(s: State, id: nat, load: Loader)
    requires Inv(s, load) && id in s.callers && s.callers[id].phase.Entering? && Find(s.lru, s.callers[id].key).Some?
    ensures var key := s.callers[id].key;
            && Next(s, Enter(id), load).Some?
            && var t := Next(s, Enter(id), load).value;
               && t.callers == s.callers[id := s.callers[id].(phase := Done(Got(load(key), s.callers[id].waited)))]
               && t.flights == s.flights && t.closed == s.closed
               && t.lru != [] && t.lru[0].key == key && multiset(t.lru) == multiset(s.lru)
  {
    var key := s.callers[id].key;
    TouchWellFormed(s.lru, s.capacity, key);
    var i := TouchMoves(s.lru, key);
    assert s.lru == s.lru[..i] + [s.lru[i]] + s.lru[i + 1..];
  }

  /** A waiting caller can be cancelled at any time, and is then done; nobody
      else notices. */
  lemma WaitersCanBeCancelled(s: State, id: nat, load: Loader)
    requires id in s.callers
    ensures Next(s, Cancel(id), load).Some? <==> s.callers[id].phase.Waiting?
    ensures Next(s, Cancel(id), load).Some? ==>
              Next(s, Cancel(id), load).value == s.(callers := s.callers[id := s.callers[id].(phase := Done(Cancelled))])
  {
  }
}
