/** The worker that releases reader leases in batches
    (internal/cache/reader_lease_releaser.go). Enqueuers, shutdown callers, the
    timer and the worker interleave: every step below is one atomic action of
    one of them, and a run is any order of possible steps. */
module LeaseReleasing {
  import opened Options
  import opened Sequences

  datatype Config = Config(batchSize: nat, maxPending: nat)

  /** The sizes the constructor settles on. */
  function Settled(batchSize: int, maxPending: int): (c: Config)
    ensures 1 <= c.batchSize <= c.maxPending
    ensures c.batchSize == if batchSize >= 1 then batchSize else 1
    ensures c.maxPending == if maxPending >= c.batchSize then maxPending else c.batchSize
  {
    var size := if batchSize < 1 then 1 else batchSize;
    Config(size, if maxPending < size then size else maxPending)
  }

  /** Where the worker is: in its select, inside the release call, between that
      call and the check that follows it, or gone, leaving a collected batch
      that was never handed over. `final` marks the release of the last batch
      after the queue was closed. */
  datatype Worker =
    | NotStarted
    | Selecting
    | Releasing(final: bool)
    | Checking(final: bool)
    | Exited(left: seq<string>)

  /** `armed` is timerC != nil. The last four fields record what happened: ids
      accepted, batches handed to the release call, how many ids were in calls
      that finished, and the count logged as abandoned. */
  datatype State = State(
    accepting: bool,
    queue: seq<string>,
    closed: bool,
    panicked: bool,
    waiting: nat,
    cancelled: bool,
    worker: Worker,
    batch: seq<string>,
    armed: bool,
    accepted: seq<string>,
    handed: seq<seq<string>>,
    finished: nat,
    abandoned: nat)

  datatype Step =
    | Enqueue(id: string)
    | Shutdown
    | ShutdownTimesOut
    | ShutdownReturns
    | SeeCancelled
    | Receive
    | SeeClosed
    | Tick
    | ReleaseEnds(failed: bool)
    | Check

  function Start(): State {
    State(true, [], false, false, 0, false, NotStarted, [], false, [], [], 0, 0)
  }

  /** Sending on a closed channel panics; a full one refuses. */
  function EnqueueNext(s: State, c: Config, id: string): (r: (State, bool)) {
    if id == "" then (s, true)
    else if !s.accepting then (s, false)
    else
      var t := if s.worker.NotStarted? then s.(worker := Selecting) else s;
      if t.closed then (t.(panicked := true), false)
      else if |t.queue| < c.maxPending then (t.(queue := t.queue + [id], accepted := t.accepted + [id]), true)
      else (t, false)
  }

  /** Closing a closed channel panics. A caller waits only for a started worker. */
  function ShutdownNext(s: State): State {
    var t := if !s.accepting then s
             else if s.worker.NotStarted? then s.(accepting := false)
             else s.(accepting := false, closed := true, panicked := s.panicked || s.closed);
    if s.worker.NotStarted? then t else t.(waiting := t.waiting + 1)
  }

  /** The collected batch goes to the release call. */
  function Hand(s: State, final: bool): State {
    s.(worker := Releasing(final), handed := s.handed + [s.batch])
  }

  function ReceiveNext(s: State, c: Config): State
    requires s.queue != []
  {
    var batch := s.batch + [s.queue[0]];
    var t := s.(batch := batch, queue := s.queue[1..], armed := s.armed || |batch| == 1);
    if |batch| == c.batchSize then Hand(t.(armed := false), false) else t
  }

  function SeeClosedNext(s: State): State {
    if s.batch != [] then Hand(s.(armed := false), true) else s.(armed := false, worker := Exited([]))
  }

  function ReleaseEndsNext(s: State, failed: bool): State
    requires s.worker.Releasing?
  {
    if failed && s.cancelled then s.(abandoned := |s.batch| + |s.queue|, worker := Exited([]))
    else s.(finished := s.finished + |s.batch|, worker := Checking(s.worker.final))
  }

  function CheckNext(s: State): State
    requires s.worker.Checking?
  {
    if s.cancelled then s.(abandoned := |s.queue|, worker := Exited([]))
    else if s.worker.final then s.(worker := Exited([]))
    else s.(batch := [], worker := Selecting)
  }

  function Next(s: State, c: Config, step: Step): Option<State> {
    match step
    case Enqueue(id) => Some(EnqueueNext(s, c, id).0)
    case Shutdown => Some(ShutdownNext(s))
    case ShutdownTimesOut => if s.waiting > 0 then Some(s.(cancelled := true)) else None
    case ShutdownReturns =>
      if s.waiting > 0 && s.worker.Exited? then Some(s.(waiting := s.waiting - 1)) else None
    case SeeCancelled =>
      if s.worker.Selecting? && s.cancelled then
        Some(s.(abandoned := |s.batch| + |s.queue|, worker := Exited(s.batch)))
      else None
    case Receive =>
      if s.worker.Selecting? && s.queue != [] then Some(ReceiveNext(s, c)) else None
    case SeeClosed =>
      if s.worker.Selecting? && s.queue == [] && s.closed then Some(SeeClosedNext(s)) else None
    case Tick =>
      if s.worker.Selecting? && s.armed then Some(Hand(s.(armed := false), false)) else None
    case ReleaseEnds(failed) =>
      if s.worker.Releasing? then Some(ReleaseEndsNext(s, failed)) else None
    case Check =>
      if s.worker.Checking? then Some(CheckNext(s)) else None
  }

  function Run(s: State, c: Config, steps: seq<Step>): Option<State>
    decreases |steps|
  {
    if steps == [] then Some(s)
    else match Next(s, c, steps[0])
         case Some(t) => Run(t, c, steps[1..])
         case None => None
  }

  /** Ids collected or left but never handed to the release call. */
  function Unsent(s: State): seq<string> {
    match s.worker
    case Selecting => s.batch
    case Exited(left) => left
    case _ => []
  }

  /** The queue stays within its capacity, is closed exactly once, after the
      last send, and the worker is cancelled only during a shutdown. */
  ghost predicate Disciplined(s: State, c: Config) {
    && !s.panicked
    && |s.queue| <= c.maxPending
    && (s.closed <==> !s.accepting && !s.worker.NotStarted?)
    && (s.cancelled || s.waiting > 0 || s.worker.Exited? ==> s.closed)
    && (s.worker.NotStarted? ==> s.accepted == [] && s.queue == [] && s.batch == [] && s.handed == [] && !s.armed)
  }

  /** The timer is armed exactly when part of a batch is waiting. */
  ghost predicate Batching(s: State, c: Config) {
    && (s.worker.Selecting? ==> |s.batch| < c.batchSize && (s.armed <==> 0 < |s.batch|))
    && (s.worker.Releasing? || s.worker.Checking? ==> !s.armed)
    && (s.worker.Releasing? ==> s.handed != [] && s.handed[|s.handed| - 1] == s.batch)
    && (s.worker.Releasing? || s.worker.Checking? ==> s.worker.final ==> s.queue == [] && s.closed)
    && (forall b <- s.handed :: 1 <= |b| <= c.batchSize)
  }

  /** Every accepted id is handed over once, in the order of acceptance. */
  ghost predicate FirstInFirstOut(s: State) {
    s.accepted == Flatten(s.handed) + Unsent(s) + s.queue
  }

  /** Ids whose release call finished, and, once the worker is gone, the
      abandoned ones, add up to the accepted ones. */
  ghost predicate Conserved(s: State) {
    match s.worker
    case NotStarted => s.finished == 0 && s.abandoned == 0
    case Selecting => s.finished == |Flatten(s.handed)| && s.abandoned == 0
    case Releasing(_) => s.finished + |s.batch| == |Flatten(s.handed)| && s.abandoned == 0
    case Checking(_) => s.finished == |Flatten(s.handed)| && s.abandoned == 0
    case Exited(_) =>
      && s.finished + s.abandoned == |s.accepted|
      && (!s.cancelled ==> s.abandoned == 0 && s.queue == [] && Unsent(s) == [])
  }

  ghost predicate Inv(s: State, c: Config) {
    Disciplined(s, c) && Batching(s, c) && FirstInFirstOut(s) && Conserved(s)
  }

  lemma MoveOne<T>(handed: seq<T>, batch: seq<T>, queue: seq<T>)
    requires queue != []
    ensures handed + batch + queue == handed + (batch + [queue[0]]) + queue[1..]
  {
  }

  lemma ReceiveKeepsOrder(s: State, c: Config)
    requires FirstInFirstOut(s) && s.worker.Selecting? && s.queue != []
    ensures FirstInFirstOut(ReceiveNext(s, c))
  {
    var batch := s.batch + [s.queue[0]];
    MoveOne(Flatten(s.handed), s.batch, s.queue);
    if |batch| == c.batchSize {
      FlattenSnoc(s.handed, batch);
      assert Flatten(s.handed) + batch + [] == Flatten(s.handed) + batch;
    }
  }

  lemma ReceiveKeepsInv(s: State, c: Config)
    requires 1 <= c.batchSize && Inv(s, c) && s.worker.Selecting? && s.queue != []
    ensures Inv(ReceiveNext(s, c), c)
  {
    ReceiveKeepsOrder(s, c);
    FlattenSnoc(s.handed, s.batch + [s.queue[0]]);
  }

  lemma EnqueueKeepsInv(s: State, c: Config, id: string)
    requires 1 <= c.batchSize && Inv(s, c)
    ensures Inv(EnqueueNext(s, c, id).0, c)
  {
    assert s.accepted + [id] == Flatten(s.handed) + Unsent(s) + (s.queue + [id]);
  }

  lemma ShutdownKeepsInv(s: State, c: Config)
    requires Inv(s, c)
    ensures Inv(ShutdownNext(s), c)
  {
  }

  lemma ExitKeepsInv(s: State, c: Config, step: Step)
    requires 1 <= c.batchSize && Inv(s, c)
    requires (step.SeeCancelled? || step.Check? || step.ShutdownTimesOut? || step.ShutdownReturns?)
    ensures Next(s, c, step).Some? ==> Inv(Next(s, c, step).value, c)
  {
  }

  lemma SeeClosedKeepsInv(s: State, c: Config)
    requires Inv(s, c) && s.worker.Selecting? && s.queue == [] && s.closed
    ensures Inv(SeeClosedNext(s), c)
  {
    if s.batch != [] {
      HandKeepsInv(s, c, true);
    }
  }

  lemma HandKeepsInv(s: State, c: Config, final: bool)
    requires Inv(s, c) && s.worker.Selecting? && s.batch != []
    requires final ==> s.queue == [] && s.closed
    ensures Inv(Hand(s.(armed := false), final), c)
  {
    FlattenSnoc(s.handed, s.batch);
  }

  lemma ReleaseEndsKeepsInv(s: State, c: Config, failed: bool)
    requires Inv(s, c) && s.worker.Releasing?
    ensures Inv(ReleaseEndsNext(s, failed), c)
  {
  }

  lemma StepKeepsInv(s: State, c: Config, step: Step)
    requires 1 <= c.batchSize && Inv(s, c)
    ensures Next(s, c, step).Some? ==> Inv(Next(s, c, step).value, c)
  {
    match step
    case Enqueue(id) =>
      EnqueueKeepsInv(s, c, id);
    case Shutdown =>
      ShutdownKeepsInv(s, c);
    case Receive =>
      if s.worker.Selecting? && s.queue != [] {
        ReceiveKeepsInv(s, c);
      }
    case SeeClosed =>
      if s.worker.Selecting? && s.queue == [] && s.closed {
        SeeClosedKeepsInv(s, c);
      }
    case Tick =>
      if s.worker.Selecting? && s.armed {
        HandKeepsInv(s, c, false);
      }
    case ReleaseEnds(failed) =>
      if s.worker.Releasing? {
        ReleaseEndsKeepsInv(s, c, failed);
      }
    case _ =>
      ExitKeepsInv(s, c, step);
  }

  /** What holds in every state that any interleaving reaches. */
  lemma {:induction false} EveryRunKeepsInv(s: State, c: Config, steps: seq<Step>)
    requires 1 <= c.batchSize && Inv(s, c)
    ensures Run(s, c, steps).Some? ==> Inv(Run(s, c, steps).value, c)
    decreases |steps|
  {
    if steps != [] {
      StepKeepsInv(s, c, steps[0]);
      if Next(s, c, steps[0]).Some? {
        EveryRunKeepsInv(Next(s, c, steps[0]).value, c, steps[1..]);
      }
    }
  }

  lemma FromStart(batchSize: int, maxPending: int, steps: seq<Step>)
    ensures var c := Settled(batchSize, maxPending);
            var end := Run(Start(), c, steps);
            end.Some? ==> Inv(end.value, c)
  {
    EveryRunKeepsInv(Start(), Settled(batchSize, maxPending), steps);
  }

  /** Without a cancellation a shutdown loses nothing: when the worker is gone
      every accepted id was handed over and every release call finished. */
  lemma GracefulShutdownReleasesAll(batchSize: int, maxPending: int, steps: seq<Step>)
    ensures var end := Run(Start(), Settled(batchSize, maxPending), steps);
            end.Some? && end.value.worker.Exited? && !end.value.cancelled ==>
              && Flatten(end.value.handed) == end.value.accepted
              && end.value.finished == |end.value.accepted|
              && end.value.abandoned == 0
  {
    FromStart(batchSize, maxPending, steps);
  }

  // What callers can rely on.

  /** An id is accepted exactly while nobody has begun a shutdown and the queue
      has room. An accepted one is last in the queue and the worker is there; a
      refused one leaves nothing behind. */
  lemma EnqueueAcceptsExactly(s: State, c: Config, id: string)
    requires Inv(s, c)
    ensures var (t, ok) := EnqueueNext(s, c, id);
            && (ok <==> id == "" || (s.accepting && |s.queue| < c.maxPending))
            && (id != "" && ok ==> t.queue == s.queue + [id] && t.accepted == s.accepted + [id] && !t.worker.NotStarted?)
            && (id == "" || !ok ==> t.queue == s.queue && t.accepted == s.accepted)
            && t.batch == s.batch && t.handed == s.handed && t.accepting == s.accepting && t.cancelled == s.cancelled
  {
  }

  lemma FlagsTellTheStep(s: State, c: Config, step: Step)
    requires Next(s, c, step).Some?
    ensures var t := Next(s, c, step).value;
            (t.accepting <==> s.accepting && !step.Shutdown?) && (t.cancelled <==> s.cancelled || step.ShutdownTimesOut?)
  {
  }

  /** Over any run the releaser accepts until the first shutdown, and is
      cancelled exactly when one timed out. */
  lemma {:induction false} FlagsTellTheRun(s: State, c: Config, steps: seq<Step>)
    requires Run(s, c, steps).Some?
    ensures var t := Run(s, c, steps).value;
            && (t.accepting <==> s.accepting && Shutdown !in steps)
            && (t.cancelled <==> s.cancelled || ShutdownTimesOut in steps)
    decreases |steps|
  {
    if steps != [] {
      FlagsTellTheStep(s, c, steps[0]);
      FlagsTellTheRun(Next(s, c, steps[0]).value, c, steps[1..]);
      assert steps == [steps[0]] + steps[1..];
    }
  }

  function Returns(n: nat): seq<Step> {
    if n == 0 then [] else [ShutdownReturns] + Returns(n - 1)
  }

  /** A shutdown waits exactly for a worker that was started, may time out while
      it waits, and returns once the worker is gone. */
  lemma ShutdownsWaitForTheWorker(s: State, c: Config, step: Step)
    requires Next(s, c, step).Some?
    ensures Next(s, c, step).value.waiting == s.waiting
              + (if step.Shutdown? && !s.worker.NotStarted? then 1 else 0) - (if step.ShutdownReturns? then 1 else 0)
    ensures step.ShutdownReturns? ==> s.worker.Exited?
    ensures Next(s, c, ShutdownTimesOut).Some? <==> s.waiting > 0
  {
  }

  lemma {:induction false} GoneWorkerFreesAllWaiters(s: State, c: Config)
    requires s.worker.Exited?
    ensures Run(s, c, Returns(s.waiting)) == Some(s.(waiting := 0))
    decreases s.waiting
  {
    if s.waiting > 0 {
      assert Returns(s.waiting)[1..] == Returns(s.waiting - 1);
      GoneWorkerFreesAllWaiters(s.(waiting := s.waiting - 1), c);
    }
  }

  /** So a run without a timed-out shutdown loses nothing. */
  lemma NothingIsLostWithoutATimeout(batchSize: int, maxPending: int, steps: seq<Step>)
    requires ShutdownTimesOut !in steps
    ensures var end := Run(Start(), Settled(batchSize, maxPending), steps);
            end.Some? && end.value.worker.Exited? ==>
              Flatten(end.value.handed) == end.value.accepted && end.value.finished == |end.value.accepted|
  {
    if Run(Start(), Settled(batchSize, maxPending), steps).Some? {
      FlagsTellTheRun(Start(), Settled(batchSize, maxPending), steps);
      GracefulShutdownReleasesAll(batchSize, maxPending, steps);
    }
  }

  /** When the worker can do nothing more, everything accepted was handed over
      and its release call finished, unless a shutdown timed out. */
  lemma IdleWorkerHasReleasedAll(s: State, c: Config)
    requires Inv(s, c) && !s.cancelled && forall step :: WorkerStep(step) ==> Next(s, c, step).None?
    ensures s.queue == [] && Unsent(s) == [] && Flatten(s.handed) == s.accepted && s.finished == |s.accepted|
  {
    assert Next(s, c, Receive).None? && Next(s, c, Tick).None?;
    assert Next(s, c, ReleaseEnds(false)).None? && Next(s, c, Check).None?;
  }

  /** After a cancellation the call under way is the last one: its ids are
      finished unless it fails, and all others that are left are abandoned. */
  lemma CancelledCallIsTheLast(s: State, c: Config, failed: bool)
    requires Inv(s, c) && s.worker.Releasing? && s.cancelled
    ensures var t := ReleaseEndsNext(s, failed);
            && (t.worker.Exited? <==> failed) && (!failed ==> t.worker.Checking? && CheckNext(t).worker.Exited?)
            && var end := if failed then t else CheckNext(t);
               && end.handed == s.handed
               && end.finished == s.finished + (if failed then 0 else |s.batch|)
               && end.abandoned == |s.queue| + if failed then |s.batch| else 0
  {
  }

  /** A call that fails without a cancellation ends like one that succeeds: the
      worker goes back to work, or leaves after the last batch. */
  lemma FailedCallIsForgotten(s: State, c: Config, failed: bool)
    requires Inv(s, c) && s.worker.Releasing? && !s.cancelled
    ensures var t := ReleaseEndsNext(s, failed);
            && t.worker.Checking? && t.finished == s.finished + |s.batch| && t.abandoned == 0
            && var end := CheckNext(t);
               if s.worker.final then end.worker == Exited([]) else end.worker.Selecting? && end.batch == []
  {
  }

  // Shutdown comes to an end.

  predicate WorkerStep(step: Step) {
    step.SeeCancelled? || step.Receive? || step.SeeClosed? || step.Tick? || step.ReleaseEnds? || step.Check?
  }

  function Rank(s: State): nat {
    4 * |s.queue| + match s.worker
                    case NotStarted => 0
                    case Selecting => if s.batch == [] then 1 else 4
                    case Releasing(_) => 3
                    case Checking(_) => 2
                    case Exited(_) => 0
  }

  lemma RankDrops(s: State, c: Config, step: Step)
    requires Inv(s, c) && WorkerStep(step) && Next(s, c, step).Some?
    ensures Rank(Next(s, c, step).value) < Rank(s)
  {
  }

  lemma {:induction false} WorkerRunsAreShort(s: State, c: Config, steps: seq<Step>)
    requires 1 <= c.batchSize && Inv(s, c) && forall step <- steps :: WorkerStep(step)
    ensures Run(s, c, steps).Some? ==> |steps| + Rank(Run(s, c, steps).value) <= Rank(s)
    decreases |steps|
  {
    if steps != [] && Next(s, c, steps[0]).Some? {
      StepKeepsInv(s, c, steps[0]);
      RankDrops(s, c, steps[0]);
      WorkerRunsAreShort(Next(s, c, steps[0]).value, c, steps[1..]);
    }
  }

  /** While somebody waits in Shutdown, the worker can go on or is gone. */
  lemma ShutdownIsNotStuck(s: State, c: Config) returns (step: Step)
    requires Inv(s, c) && s.waiting > 0
    ensures Next(s, c, step).Some?
    ensures WorkerStep(step) || (s.worker.Exited? && step.ShutdownReturns?)
  {
    match s.worker
    case Selecting =>
      step := if s.queue != [] then Receive else SeeClosed;
    case Releasing(_) =>
      step := ReleaseEnds(false);
    case Checking(_) =>
      step := Check;
    case Exited(_) =>
      step := ShutdownReturns;
  }

  /** The releaser itself. Each method is one atomic action; `View` is the state
      of the protocol above, so what every run keeps is kept by the object. */
  class ReaderLeaseReleaser {
    const config: Config
    var accepting: bool
    var queue: seq<string>
    var closed: bool
    var workerCancelled: bool
    var worker: Worker
    var batch: seq<string>
    var timerArmed: bool
    ghost var panicked: bool
    ghost var waiting: nat
    ghost var accepted: seq<string>
    ghost var handed: seq<seq<string>>
    ghost var finished: nat
    var abandoned: nat

    ghost function View(): State
      reads this
    {
      State(accepting, queue, closed, panicked, waiting, workerCancelled, worker, batch, timerArmed,
            accepted, handed, finished, abandoned)
    }

    ghost predicate Valid()
      reads this
    {
      1 <= config.batchSize && Inv(View(), config)
    }

    constructor (batchSize: int, maxPending: int)
      ensures Valid() && config == Settled(batchSize, maxPending) && View() == Start()
    {
      config := Settled(batchSize, maxPending);
      accepting, queue, closed, workerCancelled := true, [], false, false;
      worker, batch, timerArmed, abandoned := NotStarted, [], false, 0;
      panicked, waiting, accepted, handed, finished := false, 0, [], [], 0;
    }

    method Enqueue(leaseID: string) returns (ok: bool)
      requires Valid()
      modifies this
      ensures Valid() && (View(), ok) == EnqueueNext(old(View()), config, leaseID)
      ensures leaseID != "" ==> accepted == if ok then old(accepted) + [leaseID] else old(accepted)
    {
      EnqueueKeepsInv(View(), config, leaseID);
      if leaseID == "" {
        return true;
      }
      if !accepting {
        return false;
      }
      if worker.NotStarted? {
        worker := Selecting;
      }
      if |queue| < config.maxPending {
        queue := queue + [leaseID];
        accepted := accepted + [leaseID];
        return true;
      }
      return false;
    }

    /** The first half of Shutdown; the caller then waits for the worker. */
    method BeginShutdown() returns (started: bool)
      requires Valid()
      modifies this
      ensures Valid() && View() == ShutdownNext(old(View())) && started == !worker.NotStarted?
    {
      ShutdownKeepsInv(View(), config);
      started := !worker.NotStarted?;
      if accepting {
        accepting := false;
        if started {
          closed := true;
        }
      }
      if started {
        waiting := waiting + 1;
      }
    }

    /** A lease id arrives at the worker. */
    method Receive()
      requires Valid() && worker.Selecting? && queue != []
      modifies this
      ensures Valid() && View() == ReceiveNext(old(View()), config)
    {
      ghost var next := ReceiveNext(View(), config);
      ReceiveKeepsInv(View(), config);
      var leaseID := queue[0];
      queue := queue[1..];
      batch := batch + [leaseID];
      if |batch| == 1 {
        timerArmed := true;
      }
      if |batch| == config.batchSize {
        timerArmed := false;
        HandOver(false);
      }
      assert View() == next;
    }

    method HandOver(final: bool)
      modifies this`handed, this`worker
      ensures View() == Hand(old(View()), final)
    {
      handed := handed + [batch];
      worker := Releasing(final);
    }

    /** The flush delay is over. */
    method Tick()
      requires Valid() && worker.Selecting? && timerArmed
      modifies this
      ensures Valid() && View() == Hand(old(View()).(armed := false), false)
    {
      HandKeepsInv(View(), config, false);
      timerArmed := false;
      HandOver(false);
    }

    /** The queue is closed and empty. */
    method SeeClosed()
      requires Valid() && worker.Selecting? && queue == [] && closed
      modifies this
      ensures Valid() && View() == SeeClosedNext(old(View()))
    {
      SeeClosedKeepsInv(View(), config);
      timerArmed := false;
      if |batch| > 0 {
        HandOver(true);
      } else {
        worker := Exited([]);
      }
    }

    /** The worker's context is cancelled while it selects. */
    method SeeCancelled()
      requires Valid() && worker.Selecting? && workerCancelled
      modifies this
      ensures Valid() && Next(old(View()), config, Step.SeeCancelled) == Some(View())
    {
      ExitKeepsInv(View(), config, Step.SeeCancelled);
      abandoned := |batch| + |queue|;
      worker := Exited(batch);
    }

    /** The release call returns, and what the worker does about it. */
    method EndRelease(failed: bool)
      requires Valid() && worker.Releasing?
      modifies this
      ensures Valid() && View() == ReleaseEndsNext(old(View()), failed)
    {
      ReleaseEndsKeepsInv(View(), config, failed);
      if failed && workerCancelled {
        abandoned := |batch| + |queue|;
        worker := Exited([]);
      } else {
        finished := finished + |batch|;
        worker := Checking(worker.final);
      }
    }

    /** The check behind the release call. */
    method Check()
      requires Valid() && worker.Checking?
      modifies this
      ensures Valid() && View() == CheckNext(old(View()))
    {
      ExitKeepsInv(View(), config, Step.Check);
      if workerCancelled {
        abandoned := |queue|;
        worker := Exited([]);
      } else if worker.final {
        worker := Exited([]);
      } else {
        batch := [];
        worker := Selecting;
      }
    }
  }
}
