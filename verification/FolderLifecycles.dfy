/** What may happen to each row of the folder protocol, step by step and over
    whole runs. */
module FolderLifecycles {
  import opened FolderContents
  import opened FolderEffects
  import opened FolderOwnership
  import opened FolderProtocol
  import opened FolderSizes
  import opened Int64
  import opened Octets
  import opened Options
  import opened Sequences
  import opened UploadSessions

  // What the steps leave alone.

  lemma StoresFrame(s: State, c: Config, step: Step)
    requires Stores(step) && Possible(s, c, step)
    ensures var t := Next(s, c, step); t == s.(objects := t.objects, composers := t.composers)
  {
  }

  predicate Leasing(step: Step) {
    step.ReadLocation? || Reads(step) || step.AcquireReader?
  }

  lemma LeasingFrame(s: State, c: Config, step: Step)
    requires Leasing(step) && Possible(s, c, step)
    ensures LeasesOnly(s, Next(s, c, step))
  {
    if !step.AcquireReader? {
      ReadsChangeLeasesOnly(s, c, step);
    }
  }

  lemma MergesFrame(s: State, c: Config, step: Step)
    requires Merge(step) && Possible(s, c, step)
    ensures var t := Next(s, c, step); t == s.(locations := t.locations)
  {
  }

  lemma MaterializeFrame(s: State, c: Config, location: nat)
    requires location in s.locations
    ensures var t := Materialize(s, c, location); t == s.(locations := t.locations, composers := t.composers, next := t.next)
  {
  }

  /** Steps that change neither uploads nor the outbox, and let no time pass. */
  predicate Inner(step: Step) {
    Stores(step) || Leasing(step) || Merge(step) || step.AcquireMaterialization?
  }

  ghost predicate Framed(s: State, t: State, step: Step) {
    && t.now == s.now && t.uploads == s.uploads && t.entries == s.entries && t.tasks == s.tasks && t.queued == s.queued
    && (!Stores(step) ==> t.objects == s.objects) && (Stores(step) || Leasing(step) ==> t.locations == s.locations)
    && (!Leasing(step) ==> t.acquiring == s.acquiring)
    && (Leasing(step) || Merge(step) ==> t.composers == s.composers)
  }

  lemma PartsFramed(s: State, t: State, step: Step)
    requires
      || (Stores(step) && t == s.(objects := t.objects, composers := t.composers))
      || (Leasing(step) && LeasesOnly(s, t))
      || (Merge(step) && t == s.(locations := t.locations))
      || (step.AcquireMaterialization? && t == s.(locations := t.locations, composers := t.composers, next := t.next))
    ensures Framed(s, t, step)
  {
  }

  lemma InnerFrame(s: State, c: Config, step: Step)
    requires Inner(step) && Possible(s, c, step)
    ensures Framed(s, Next(s, c, step), step)
  {
    if Stores(step) {
      StoresFrame(s, c, step);
    } else if Leasing(step) {
      LeasingFrame(s, c, step);
    } else if Merge(step) {
      MergesFrame(s, c, step);
    } else {
      MaterializeFrame(s, c, step.location);
    }
    PartsFramed(s, Next(s, c, step), step);
  }

  lemma ClaimFrame(s: State, c: Config, location: nat)
    requires location in s.locations
    ensures var t := ClaimParts(s, location);
            && t.now == s.now && t.uploads == s.uploads && t.entries == s.entries && t.objects == s.objects
            && t.acquiring == s.acquiring && t.composers == s.composers
  {
  }

  // Location rows.

  /** Steps that may change a location row or its row count. */
  predicate Relocating(step: Step) {
    step.CompleteUpload? || step.DetachAndFence? || step.ClaimPartsDeletion? || step.AcquireMaterialization? || Merge(step)
  }

  lemma OthersKeepLocations(s: State, c: Config, step: Step)
    requires !Relocating(step) && Possible(s, c, step)
    ensures Next(s, c, step).locations == s.locations && Next(s, c, step).entries == s.entries
  {
    if Inner(step) {
      InnerFrame(s, c, step);
    }
  }

  /** The location that a merge's step is about. */
  predicate Of(s: State, token: nat, location: nat) {
    token in s.composers && s.composers[token].location == location
  }

  /** A moment that has been recorded stays; one that is recorded now is now. */
  predicate Stamped(was: Option<int>, becomes: Option<int>, now: int) {
    if was.Some? then becomes == was else becomes.None? || becomes == Some(now)
  }

  /** What a row may become, and by which steps. */
  ghost predicate Ages(s: State, t: State, c: Config, step: Step, location: nat)
    requires location in s.locations && location in t.locations
  {
    var l, m := s.locations[location], t.locations[location];
    && SameParts(l, m)
    && Stamped(l.mergedAt, m.mergedAt, s.now) && Stamped(l.unsupportedAt, m.unsupportedAt, s.now)
    && Stamped(l.partsDeletedAt, m.partsDeletedAt, s.now) && Stamped(l.deletionRequestedAt, m.deletionRequestedAt, s.now)
    && (m.mergedAt != l.mergedAt <==> step.FinishMaterialization? && Of(s, step.token, location))
    && (m.unsupportedAt != l.unsupportedAt <==> step.MarkUnsupported? && Of(s, step.token, location))
    && (m.partsDeletedAt != l.partsDeletedAt <==> step == ClaimPartsDeletion(location))
    && (m.deletionRequestedAt != l.deletionRequestedAt <==>
          l.deletionRequestedAt.None? && (step.DetachAndFence? || step.CompleteUpload?) && LeftAlone(s, t, step, location))
  }

  /** The step was about this location, and no entry leads to it any more. */
  ghost predicate LeftAlone(s: State, t: State, step: Step, location: nat) {
    !Referenced(t, location) && (Referenced(s, location) || (step.DetachAndFence? && step.location == location))
  }

  /** Whose merge it is: only a new merge takes the location over, only its own
      merge gives it up, and only either sets how long that lasts. */
  ghost predicate Tokens(s: State, t: State, c: Config, step: Step, location: nat)
    requires location in s.locations && location in t.locations
  {
    var l, m := s.locations[location], t.locations[location];
    if step == AcquireMaterialization(location) then
      m.token == Some(s.next) && m.mergeStartedAt == Some(s.now) && m.tokenExpiresAt == s.now + c.materializationLease
    else if Merge(step) && Of(s, step.token, location) then
      && l.token == Some(step.token)
      && m.token == (if step.RenewMaterialization? then l.token else None)
      && (step.RenewMaterialization? || step.FinishMaterialization? ==> m.mergeStartedAt == l.mergeStartedAt)
      && (step.MarkUnsupported? || step.ReleaseMaterialization? ==> m.mergeStartedAt.None?)
      && m.tokenExpiresAt == if step.RenewMaterialization? then s.now + c.materializationLease else l.tokenExpiresAt
    else m.token == l.token && m.mergeStartedAt == l.mergeStartedAt && m.tokenExpiresAt == l.tokenExpiresAt
  }

  lemma MergesKeepOthers(s: State, c: Config, step: Step, location: nat)
    requires Merge(step) && Possible(s, c, step) && location in s.locations && !Of(s, step.token, location)
    ensures var t := Next(s, c, step); location in t.locations && t.locations[location] == s.locations[location]
  {
  }

  ghost predicate OwnRowAges(s: State, c: Config, step: Step, location: nat)
    requires location in s.locations && Possible(s, c, step)
  {
    var t := Next(s, c, step);
    location in t.locations && Ages(s, t, c, step, location) && Tokens(s, t, c, step, location)
  }

  lemma RenewalAges(s: State, c: Config, token: nat, location: nat)
    requires Rows(s, c) && Possible(s, c, RenewMaterialization(token)) && location in s.locations && Of(s, token, location)
    ensures OwnRowAges(s, c, RenewMaterialization(token), location)
  {
  }

  lemma ReleaseAges(s: State, c: Config, token: nat, location: nat)
    requires Rows(s, c) && Possible(s, c, ReleaseMaterialization(token)) && location in s.locations && Of(s, token, location)
    ensures OwnRowAges(s, c, ReleaseMaterialization(token), location)
  {
  }

  lemma FinishAges(s: State, c: Config, token: nat, location: nat)
    requires Rows(s, c) && Possible(s, c, FinishMaterialization(token)) && location in s.locations && Of(s, token, location)
    ensures OwnRowAges(s, c, FinishMaterialization(token), location)
  {
  }

  lemma GivingUpAges(s: State, c: Config, token: nat, location: nat)
    requires Rows(s, c) && Possible(s, c, MarkUnsupported(token)) && location in s.locations && Of(s, token, location)
    ensures OwnRowAges(s, c, MarkUnsupported(token), location)
  {
  }

  lemma UnchangedRowAges(s: State, t: State, c: Config, step: Step, location: nat)
    requires !Relocating(step) || (Merge(step) && !Of(s, step.token, location))
    requires location in s.locations && location in t.locations && t.locations[location] == s.locations[location]
    ensures Ages(s, t, c, step, location) && Tokens(s, t, c, step, location)
  {
  }

  lemma MergesAge(s: State, c: Config, step: Step, location: nat)
    requires Rows(s, c) && Merge(step) && Possible(s, c, step) && location in s.locations
    ensures location in Next(s, c, step).locations
    ensures Ages(s, Next(s, c, step), c, step, location) && Tokens(s, Next(s, c, step), c, step, location)
  {
    if !Of(s, step.token, location) {
      MergesKeepOthers(s, c, step, location);
      UnchangedRowAges(s, Next(s, c, step), c, step, location);
    } else {
      match step
      case RenewMaterialization(token) => RenewalAges(s, c, token, location);
      case ReleaseMaterialization(token) => ReleaseAges(s, c, token, location);
      case FinishMaterialization(token) => FinishAges(s, c, token, location);
      case MarkUnsupported(token) => GivingUpAges(s, c, token, location);
    }
  }

  lemma ClaimsAge(s: State, c: Config, step: Step, location: nat)
    requires (step.ClaimPartsDeletion? || step.AcquireMaterialization?) && Possible(s, c, step) && location in s.locations
    ensures location in Next(s, c, step).locations
    ensures Ages(s, Next(s, c, step), c, step, location) && Tokens(s, Next(s, c, step), c, step, location)
  {
  }

  /** A row that was fenced, or not, when entries left it. */
  lemma FencedRowAges(s: State, t: State, c: Config, step: Step, other: nat)
    requires step.CompleteUpload? || step.DetachAndFence?
    requires other in s.locations && other in t.locations
    requires var l := s.locations[other];
             t.locations[other] == if LeftAlone(s, t, step, other) && l.deletionRequestedAt.None?
                                   then l.(deletionRequestedAt := Some(s.now)) else l
    ensures Ages(s, t, c, step, other) && Tokens(s, t, c, step, other)
  {
  }

  lemma FencedRow(s: State, c: Config, location: nat, doomed: set<nat>, other: nat)
    requires Rows(s, c) && other in s.locations
    requires other in Fence(DetachEntries(s, location, doomed), c, location).locations
    ensures var t, l := Fence(DetachEntries(s, location, doomed), c, location), s.locations[other];
            t.locations[other] == if LeftAlone(s, t, DetachAndFence(location, doomed), other) && l.deletionRequestedAt.None?
                                  then l.(deletionRequestedAt := Some(s.now)) else l
  {
    var u := DetachEntries(s, location, doomed);
    var t := Fence(u, c, location);
    FenceElsewhere(u, c, location);
    assert Referenced(t, other) <==> Referenced(u, other);
    if other != location {
      DetachedElsewhere(s, location, doomed, other);
    } else if !Referenced(u, location) {
      FenceHere(u, c, location);
    }
  }

  lemma FencingAges(s: State, c: Config, location: nat, doomed: set<nat>, other: nat)
    requires Rows(s, c) && other in s.locations
    ensures var step := DetachAndFence(location, doomed);
            var t := Next(s, c, step);
            other in t.locations ==> Ages(s, t, c, step, other) && Tokens(s, t, c, step, other)
  {
    var t := Fence(DetachEntries(s, location, doomed), c, location);
    if other in t.locations {
      FencedRow(s, c, location, doomed, other);
      FencedRowAges(s, t, c, DetachAndFence(location, doomed), other);
    }
  }

  lemma DetachedElsewhere(s: State, location: nat, doomed: set<nat>, other: nat)
    requires other != location
    ensures Referenced(DetachEntries(s, location, doomed), other) <==> Referenced(s, other)
  {
    var u := DetachEntries(s, location, doomed);
    if e :| e in s.entries && s.entries[e].location == other {
      assert e in u.entries && u.entries[e].location == other;
    }
  }

  lemma RelocatedRow(s: State, t: State, c: Config, tuple: Tuple, other: nat)
    requires Referring(s.locations, s.entries) && Drawn(s.locations, s.next) && other in s.locations
    requires LeadsTo(s, t.entries, tuple, s.next) && Relocates(s, t, c, tuple) && other in t.locations
    ensures Referenced(s, other) ==> s.locations[other].deletionRequestedAt.None?
    ensures t.locations[other] == if Referenced(s, other) && !Referenced(t, other)
                                  then s.locations[other].(deletionRequestedAt := Some(s.now)) else s.locations[other]
  {
    ReplacedWhenAlone(s, t, tuple, other);
  }

  lemma FinalizingAges(s: State, c: Config, id: nat, other: nat)
    requires Inv(s, c) && CanFinalize(s, id) && other in s.locations && other in Finalize(s, c, id).locations
    ensures var t := Finalize(s, c, id);
            Ages(s, t, c, CompleteUpload(id), other) && Tokens(s, t, c, CompleteUpload(id), other)
  {
    var t := Finalize(s, c, id);
    FinalizeCompletes(s, c, id);
    RelocatedRow(s, t, c, s.finalizers[id].tuple, other);
    FencedRowAges(s, t, c, CompleteUpload(id), other);
  }

  lemma ReplacedWhenAlone(s: State, t: State, tuple: Tuple, other: nat)
    requires Drawn(s.locations, s.next) && other in s.locations && LeadsTo(s, t.entries, tuple, s.next)
    requires forall a <- s.entries, b <- s.entries :: s.entries[a].tuple == s.entries[b].tuple ==> a == b
    ensures Replaces(s, tuple, other) <==> Referenced(s, other) && !Referenced(t, other)
  {
    if e :| e in s.entries && s.entries[e].location == other && s.entries[e].tuple != tuple {
      assert e in t.entries && t.entries[e].location == other;
    }
  }

  /** The only ways in which a location row changes. */
  lemma LocationsAge(s: State, c: Config, step: Step, location: nat)
    requires Inv(s, c) && Possible(s, c, step) && location in s.locations
    ensures var t := Next(s, c, step);
            location in t.locations ==> Ages(s, t, c, step, location) && Tokens(s, t, c, step, location)
  {
    if step.CompleteUpload? {
      if location in Finalize(s, c, step.finalizer).locations {
        FinalizingAges(s, c, step.finalizer, location);
      }
    } else if step.DetachAndFence? {
      FencingAges(s, c, step.location, step.doomed, location);
    } else if Merge(step) {
      MergesAge(s, c, step, location);
    } else if Relocating(step) {
      ClaimsAge(s, c, step, location);
    } else {
      OthersKeepLocations(s, c, step);
      UnchangedRowAges(s, Next(s, c, step), c, step, location);
    }
  }

  /** Location rows come from uploads only, under a new id. */
  lemma NewLocations(s: State, c: Config, step: Step)
    requires Inv(s, c) && Possible(s, c, step)
    ensures forall l <- Next(s, c, step).locations :: l in s.locations || (step.CompleteUpload? && l == s.next)
  {
    if step.CompleteUpload? {
      FinalizeCompletes(s, c, step.finalizer);
    } else if step.DetachAndFence? {
      FenceIsFewer(DetachEntries(s, step.location, step.doomed), c, step.location);
    } else {
      OthersAddNoLocations(s, c, step);
    }
  }

  lemma OthersAddNoLocations(s: State, c: Config, step: Step)
    requires Other(step) && Possible(s, c, step)
    ensures Next(s, c, step).locations.Keys <= s.locations.Keys
  {
    if Stores(step) {
      OthersKeepLocations(s, c, step);
    } else {
      PlainIsFewer(s, c, step);
    }
  }

  lemma {:induction false} GoneStaysGone(s: State, c: Config, steps: seq<Step>, location: nat)
    requires Inv(s, c) && location !in s.locations && location < s.next && Run(s, c, steps).Some?
    ensures location !in Run(s, c, steps).value.locations
    decreases |steps|
  {
    if steps != [] {
      NewLocations(s, c, steps[0]);
      ClockRuns(s, c, steps[0]);
      StepKeepsInv(s, c, steps[0]);
      GoneStaysGone(Next(s, c, steps[0]), c, steps[1..], location);
    }
  }

  predicate Kept(was: Option<int>, becomes: Option<int>) {
    was.Some? ==> becomes == was
  }

  /** A later state of the same row. */
  predicate Later(l: Location, m: Location) {
    && SameParts(l, m)
    && Kept(l.mergedAt, m.mergedAt) && Kept(l.unsupportedAt, m.unsupportedAt)
    && Kept(l.partsDeletedAt, m.partsDeletedAt) && Kept(l.deletionRequestedAt, m.deletionRequestedAt)
  }

  /** Merged, unsupported, without its parts, fenced: a row never leaves such a
      state again, and the moment it got there does not change. */
  lemma {:induction false} MilestonesStay(s: State, c: Config, steps: seq<Step>, location: nat)
    requires Inv(s, c) && Run(s, c, steps).Some?
    requires location in s.locations && location in Run(s, c, steps).value.locations
    ensures Later(s.locations[location], Run(s, c, steps).value.locations[location])
    decreases |steps|
  {
    if steps != [] {
      var t := Next(s, c, steps[0]);
      StepKeepsInv(s, c, steps[0]);
      ClockRuns(s, c, steps[0]);
      if location !in t.locations {
        GoneStaysGone(t, c, steps[1..], location);
        assert false;
      }
      LocationsAge(s, c, steps[0], location);
      MilestonesStay(t, c, steps[1..], location);
    }
  }

  lemma UnsupportedIsUnmerged(s: State, c: Config, location: nat)
    requires Located(s.locations, s.composers, c) && location in s.locations && s.locations[location].unsupportedAt.Some?
    ensures s.locations[location].mergedAt.None? && s.locations[location].partsDeletedAt.None?
    ensures !CanMaterialize(s, c, location)
  {
    assert Consistent(s.locations[location], c);
  }

  /** What the storage could not merge is never merged. */
  lemma UnsupportedStaysInParts(s: State, c: Config, steps: seq<Step>, location: nat)
    requires Inv(s, c) && Run(s, c, steps).Some? && location in s.locations && s.locations[location].unsupportedAt.Some?
    ensures var t := Run(s, c, steps).value;
            location in t.locations ==>
              t.locations[location].mergedAt.None? && t.locations[location].partsDeletedAt.None?
              && !CanMaterialize(t, c, location)
  {
    EveryRunKeepsInv(s, c, steps);
    if location in Run(s, c, steps).value.locations {
      MilestonesStay(s, c, steps, location);
      UnsupportedIsUnmerged(Run(s, c, steps).value, c, location);
    }
  }

  lemma RowsWithMergesStay(s: State, c: Config, step: Step, location: nat)
    requires IdsAreDrawn(s) && Possible(s, c, step) && location in s.locations && Merging(s.locations[location], s.now)
    ensures location in Next(s, c, step).locations
  {
    if step.CompleteUpload? {
      FinalizeFrame(s, c, step.finalizer);
    } else if step.DetachAndFence? {
      FenceFrame(DetachEntries(s, step.location, step.doomed), c, step.location);
    } else {
      OthersAreMild(s, c, step);
    }
  }

  predicate OwnMerge(step: Step, token: nat) {
    Merge(step) && step.token == token
  }

  lemma MergeStays(s: State, c: Config, step: Step, location: nat, token: nat)
    requires Inv(s, c) && Possible(s, c, step) && location in s.locations && !OwnMerge(step, token)
    requires s.locations[location].token == Some(token) && s.locations[location].tokenExpiresAt > s.now
    ensures var t := Next(s, c, step);
            && location in t.locations && t.locations[location].token == Some(token)
            && t.locations[location].tokenExpiresAt == s.locations[location].tokenExpiresAt
  {
    RowsWithMergesStay(s, c, step, location);
    LocationsAge(s, c, step, location);
  }

  /** While a merge's lease is unexpired the location is its own, whatever
      others do: no second merge begins, nobody else ends it, and the row stays. */
  lemma {:induction false} MergesExclude(s: State, c: Config, steps: seq<Step>, location: nat, token: nat)
    requires Inv(s, c) && location in s.locations && s.locations[location].token == Some(token)
    requires forall step <- steps :: !OwnMerge(step, token)
    ensures var end := Run(s, c, steps);
            end.Some? && end.value.now < s.locations[location].tokenExpiresAt ==>
              && location in end.value.locations && end.value.locations[location].token == Some(token)
              && end.value.locations[location].tokenExpiresAt == s.locations[location].tokenExpiresAt
              && !CanMaterialize(end.value, c, location)
    decreases |steps|
  {
    if steps != [] && Possible(s, c, steps[0]) {
      TimePasses(s, c, steps);
      StepKeepsInv(s, c, steps[0]);
      if s.now < s.locations[location].tokenExpiresAt {
        MergeStays(s, c, steps[0], location, token);
        MergesExclude(Next(s, c, steps[0]), c, steps[1..], location, token);
      }
    }
  }

  // Entries.

  lemma FinalizeKeepsEntries(s: State, c: Config, id: nat, entry: nat)
    requires Inv(s, c) && CanFinalize(s, id) && entry in s.entries
    ensures entry in Finalize(s, c, id).entries
  {
    FinalizeCompletes(s, c, id);
  }

  lemma DetachingTakes(s: State, c: Config, location: nat, doomed: set<nat>, entry: nat)
    requires entry in s.entries
    ensures var t := Fence(DetachEntries(s, location, doomed), c, location);
            if s.entries[entry].location == location && entry in doomed then entry !in t.entries
            else entry in t.entries && t.entries[entry] == s.entries[entry]
  {
    var u := DetachEntries(s, location, doomed);
    if location in s.locations && !Referenced(u, location) {
      RetiresExactlyWhenDue(u, c, location);
    }
  }

  lemma OthersKeepEntries(s: State, c: Config, step: Step)
    requires Other(step) && Possible(s, c, step)
    ensures Next(s, c, step).entries == s.entries
  {
    if Inner(step) {
      InnerFrame(s, c, step);
    } else if step.ClaimPartsDeletion? {
      ClaimFrame(s, c, step.location);
    } else {
      OthersKeepLocations(s, c, step);
    }
  }

  /** An entry leaves exactly when it is detached from its location, and only a
      finalization points one elsewhere. */
  lemma EntriesLeaveExactly(s: State, c: Config, step: Step, entry: nat)
    requires Inv(s, c) && Possible(s, c, step) && entry in s.entries
    ensures var t := Next(s, c, step);
            && (entry !in t.entries <==>
                  step.DetachAndFence? && s.entries[entry].location == step.location && entry in step.doomed)
            && (entry in t.entries && !step.CompleteUpload? ==> t.entries[entry] == s.entries[entry])
  {
    if step.CompleteUpload? {
      FinalizeKeepsEntries(s, c, step.finalizer, entry);
    } else if step.DetachAndFence? {
      DetachingTakes(s, c, step.location, step.doomed, entry);
    } else {
      OthersKeepEntries(s, c, step);
    }
  }

  // Leases.

  function LeaseLength(c: Config, direct: bool): int {
    if direct then c.directLease else c.readerLease
  }

  predicate Live(leases: map<nat, Lease>, id: nat, now: int) {
    id in leases && leases[id].expiresAt > now
  }

  /** What a step does to the lease with this id. */
  ghost predicate Grants(s: State, t: State, c: Config, step: Step, id: nat) {
    if step.AcquireReader? && id == s.next then
      && step.reader in s.acquiring && id in t.leases
      && var a := s.acquiring[step.reader];
         t.leases[id] == Lease(a.location, a.scope, s.now + LeaseLength(c, a.direct))
    else if step == ReleaseReader(id) || id !in s.leases then id !in t.leases
    else if step.RenewReader? && step.lease == id then
      && s.leases[id].expiresAt > s.now && id in t.leases
      && t.leases[id] == s.leases[id].(expiresAt := s.now + LeaseLength(c, step.direct))
    else if s.leases[id].expiresAt > s.now then id in t.leases && t.leases[id] == s.leases[id]
    else if step.PurgeExpiredReaders? then id !in t.leases
    else id in t.leases ==> t.leases[id] == s.leases[id]
  }

  ghost predicate NoMoreLeases(s: State, t: State) {
    && (forall id <- t.leases :: id in s.leases && t.leases[id] == s.leases[id])
    && (forall id <- s.leases :: s.leases[id].expiresAt > s.now ==> id in t.leases)
  }

  lemma FenceGrants(s: State, c: Config, location: nat)
    ensures NoMoreLeases(s, Fence(s, c, location))
  {
    FenceFrame(s, c, location);
    if location in s.locations {
      assert NoMoreLeases(s, MarkDeleted(s, location));
      assert Retire(MarkDeleted(s, location), location).leases == MarkDeleted(s, location).leases;
    }
  }

  lemma FinalizeGrants(s: State, c: Config, id: nat)
    requires CanFinalize(s, id)
    ensures NoMoreLeases(s, Finalize(s, c, id))
  {
    var f := s.finalizers[id];
    var entry, promoted := TheEntry(s, f.tuple), Promote(s, f.folder, SizesFound(f));
    if entry.Some? {
      FenceGrants(PointEntry(promoted, entry.value, f.tuple, s.next), c, s.entries[entry.value].location);
    }
  }

  lemma LeasingGrants(s: State, c: Config, step: Step, id: nat)
    requires Leases(step) && Possible(s, c, step) && Drawn(s.leases, s.next)
    ensures Grants(s, Next(s, c, step), c, step, id)
  {
  }

  /** A lease is made by an acquisition, prolonged by its own renewal while it is
      unexpired, and gone after its release or, once expired, after a purge. */
  lemma LeasesAreGranted(s: State, c: Config, step: Step, id: nat)
    requires Inv(s, c) && Possible(s, c, step)
    ensures Grants(s, Next(s, c, step), c, step, id)
  {
    if Leases(step) {
      LeasingGrants(s, c, step, id);
    } else {
      OthersGrantNone(s, c, step);
      NoneGranted(s, Next(s, c, step), c, step, id);
    }
  }

  lemma OthersGrantNone(s: State, c: Config, step: Step)
    requires !Leases(step) && Possible(s, c, step)
    ensures NoMoreLeases(s, Next(s, c, step))
  {
    if step.CompleteUpload? {
      FinalizeGrants(s, c, step.finalizer);
    } else if step.DetachAndFence? {
      FenceGrants(DetachEntries(s, step.location, step.doomed), c, step.location);
    } else {
      OthersAreMild(s, c, step);
    }
  }

  lemma NoneGranted(s: State, t: State, c: Config, step: Step, id: nat)
    requires !Leases(step) && NoMoreLeases(s, t)
    ensures Grants(s, t, c, step, id)
  {
  }

  /** What has expired, or was released, is never a lease again. */
  lemma {:induction false} NoLeaseRevives(s: State, c: Config, steps: seq<Step>, id: nat)
    requires Inv(s, c) && id < s.next && !Live(s.leases, id, s.now) && Run(s, c, steps).Some?
    ensures var t := Run(s, c, steps).value; !Live(t.leases, id, t.now)
    decreases |steps|
  {
    if steps != [] {
      LeasesAreGranted(s, c, steps[0], id);
      ClockRuns(s, c, steps[0]);
      StepKeepsInv(s, c, steps[0]);
      NoLeaseRevives(Next(s, c, steps[0]), c, steps[1..], id);
    }
  }

  // Uploads.

  /** What a step does to the upload row of this folder. */
  ghost predicate Sessions(s: State, t: State, step: Step, folder: Folder) {
    if Ends(s, step, folder) then folder in s.uploads && folder !in t.uploads
    else if step.CreateUpload? && step.folder == folder then
      folder !in s.uploads && folder in t.uploads && t.uploads[folder] == Upload(step.tuple, s.now, None)
    else if step == TouchUpload(folder) then
      && folder in s.uploads && folder in t.uploads
      && t.uploads[folder] == Upload(s.uploads[folder].tuple, s.uploads[folder].createdAt, Some(s.now))
    else (folder in s.uploads <==> folder in t.uploads) && (folder in s.uploads ==> t.uploads[folder] == s.uploads[folder])
  }

  lemma UploadStepsKeepSessions(s: State, c: Config, step: Step, folder: Folder)
    requires (Uploads(step) || (Hands(step) && !step.CompleteUpload?)) && Possible(s, c, step)
    requires forall f <- s.uploads :: f in s.owner
    ensures Sessions(s, Next(s, c, step), step, folder)
  {
  }

  predicate OnUploads(step: Step) {
    Uploads(step) || Hands(step)
  }

  lemma OthersKeepUploads(s: State, c: Config, step: Step)
    requires !OnUploads(step) && Possible(s, c, step)
    ensures Next(s, c, step).uploads == s.uploads
  {
    if step.DetachAndFence? {
      FenceFrame(DetachEntries(s, step.location, step.doomed), c, step.location);
    } else if Inner(step) {
      InnerFrame(s, c, step);
    } else {
      ClaimFrame(s, c, step.location);
    }
  }

  lemma SameSessions(s: State, t: State, step: Step, folder: Folder)
    requires !OnUploads(step) && t.uploads == s.uploads
    ensures Sessions(s, t, step, folder)
  {
  }

  lemma SessionsAreKept(s: State, c: Config, step: Step, folder: Folder)
    requires Inv(s, c) && Possible(s, c, step)
    ensures Sessions(s, Next(s, c, step), step, folder)
  {
    if step.CompleteUpload? {
      FinalizeFrame(s, c, step.finalizer);
    } else if OnUploads(step) {
      UploadStepsKeepSessions(s, c, step, folder);
    } else {
      OthersKeepUploads(s, c, step);
      SameSessions(s, Next(s, c, step), step, folder);
    }
  }

  /** Idle deletions of this folder ask for no activity since a later time. */
  predicate Lenient(step: Step, folder: Folder, time: int) {
    step.DeleteIfInactive? && step.folder == folder ==> step.cutoff <= time
  }

  predicate ActiveUpload(s: State, folder: Folder, time: int) {
    folder in s.uploads && ActiveSince(s.uploads[folder].createdAt, s.uploads[folder].lastPartAt, time)
  }

  /** The upload is neither completed nor deleted as invalid. */
  predicate Undecided(s: State, step: Step, folder: Folder) {
    step.DeleteIfInactive? || !Ends(s, step, folder)
  }

  predicate UndecidedRun(s: State, c: Config, steps: seq<Step>, folder: Folder)
    decreases |steps|
  {
    steps != [] && Possible(s, c, steps[0]) ==>
      Undecided(s, steps[0], folder) && UndecidedRun(Next(s, c, steps[0]), c, steps[1..], folder)
  }

  lemma ActivityStays(s: State, c: Config, step: Step, folder: Folder, time: int)
    requires Inv(s, c) && Possible(s, c, step) && ActiveUpload(s, folder, time) && time <= s.now
    requires Lenient(step, folder, time) && Undecided(s, step, folder)
    ensures ActiveUpload(Next(s, c, step), folder, time)
  {
    SessionsAreKept(s, c, step, folder);
  }

  /** An upload that was active at some time is there, and active since then,
      as long as it is not decided and idle deletions ask for no more. */
  lemma {:induction false} ActiveUploadsStay(s: State, c: Config, steps: seq<Step>, folder: Folder, time: int)
    requires Inv(s, c) && ActiveUpload(s, folder, time) && time <= s.now && Run(s, c, steps).Some?
    requires UndecidedRun(s, c, steps, folder) && forall step <- steps :: Lenient(step, folder, time)
    ensures ActiveUpload(Run(s, c, steps).value, folder, time)
    decreases |steps|
  {
    if steps != [] {
      ActivityStays(s, c, steps[0], folder, time);
      ClockRuns(s, c, steps[0]);
      StepKeepsInv(s, c, steps[0]);
      ActiveUploadsStay(Next(s, c, steps[0]), c, steps[1..], folder, time);
    }
  }

  /** Idle deletion takes exactly the uploads without activity since the cutoff. */
  lemma IdleDeletionExactly(s: State, c: Config, folder: Folder, cutoff: int)
    ensures Possible(s, c, DeleteIfInactive(folder, cutoff)) <==> folder in s.uploads && !ActiveUpload(s, folder, cutoff)
  {
  }

  // The outbox and the clock.

  ghost predicate Tasks(tasks: map<nat, Place>, place: Place) {
    exists id <- tasks :: tasks[id] == place
  }

  /** A task leaves only when its deletion is complete, and whatever is queued
      has its task from then on. */
  ghost predicate Outbox(s: State, t: State, step: Step) {
    && s.queued <= t.queued
    && (forall id <- s.tasks :: step == CompleteDeletion(id) || (id in t.tasks && t.tasks[id] == s.tasks[id]))
    && (forall id <- t.tasks :: step != CompleteDeletion(id) && (id in s.tasks || id >= s.next))
    && (forall place <- t.queued :: place in s.queued || Tasks(t.tasks, place))
  }

  lemma EnqueueTasks(s: State, place: Place)
    ensures Tasks(Enqueue(s, place).tasks, place)
  {
    assert Enqueue(s, place).tasks[s.next] == place;
  }

  /** Something may have been queued on the way from one state to the other. */
  ghost predicate Queued(s: State, t: State) {
    && s.next <= t.next && s.queued <= t.queued && Grown(s.tasks, t.tasks)
    && (forall id <- t.tasks :: id in s.tasks || id >= s.next)
    && (forall place <- t.queued :: place in s.queued || Tasks(t.tasks, place))
  }

  lemma EnqueueQueues(s: State, place: Place)
    requires Drawn(s.tasks, s.next)
    ensures Queued(s, Enqueue(s, place))
  {
    EnqueueTasks(s, place);
  }

  lemma QueuedTwice(s: State, t: State, u: State)
    requires Queued(s, t) && Queued(t, u)
    ensures Queued(s, u)
  {
    forall place | place in u.queued && place !in s.queued
      ensures Tasks(u.tasks, place)
    {
      if place in t.queued {
        var id :| id in t.tasks && t.tasks[id] == place;
        assert id in u.tasks && u.tasks[id] == place;
      }
    }
  }

  lemma FenceQueues(s: State, c: Config, location: nat)
    requires Drawn(s.tasks, s.next)
    ensures Queued(s, Fence(s, c, location))
  {
    if location in s.locations && !Referenced(s, location) {
      RetiresExactlyWhenDue(s, c, location);
      var t := MarkDeleted(s, location);
      var folder := t.locations[location].folder;
      EnqueueQueues(t.(locations := t.locations - {location}, owner := t.owner[folder := Retired]), Place(folder, Root));
    }
  }

  lemma FinalizeQueues(s: State, c: Config, id: nat)
    requires IdsAreDrawn(s) && CanFinalize(s, id)
    ensures Queued(s, Finalize(s, c, id))
  {
    var f := s.finalizers[id];
    var entry, p := TheEntry(s, f.tuple), Promote(s, f.folder, SizesFound(f));
    PromoteQueues(s, f.folder, SizesFound(f));
    if entry.Some? {
      var q := PointEntry(p, entry.value, f.tuple, s.next);
      assert Queued(p, q);
      FenceQueues(q, c, s.entries[entry.value].location);
      QueuedTwice(s, q, Finalize(s, c, id));
    }
  }

  lemma PromoteQueues(s: State, folder: Folder, sizes: seq<int>)
    requires IdsAreDrawn(s)
    ensures Queued(s, Promote(s, folder, sizes)) && Drawn(Promote(s, folder, sizes).tasks, Promote(s, folder, sizes).next)
  {
    assert Promote(s, folder, sizes).tasks[s.next + 1] == Place(folder, Blocks);
  }

  lemma QueuesOnly(s: State, c: Config, step: Step)
    requires Possible(s, c, step) && Drawn(s.tasks, s.next)
    requires step.DeleteUpload? || step.DeleteIfInactive? || step.ClaimOrphan? || step.ClaimPartsDeletion?
    ensures Queued(s, Next(s, c, step)) && Next(s, c, step).now == s.now
  {
    EnqueueTasks(s, if step.ClaimPartsDeletion? then Place(s.locations[step.location].folder, Parts) else Place(step.folder, Root));
  }

  lemma UploadsAndOutbox(s: State, c: Config, step: Step)
    requires (Uploads(step) || step.CreateUpload?) && Possible(s, c, step)
    ensures Next(s, c, step).now == s.now + if step.Wait? then step.time else 0
    ensures Outbox(s, Next(s, c, step), step)
  {
  }

  lemma FencingAndOutbox(s: State, c: Config, location: nat, doomed: set<nat>)
    requires Drawn(s.tasks, s.next)
    ensures var t := Fence(DetachEntries(s, location, doomed), c, location); Queued(s, t) && t.now == s.now
  {
    var u := DetachEntries(s, location, doomed);
    FenceFrame(u, c, location);
    FenceQueues(u, c, location);
    QueuedTwice(s, u, Fence(u, c, location));
  }

  lemma QueuedIsOutbox(s: State, t: State, step: Step)
    requires Queued(s, t) && !step.CompleteDeletion? && !step.Wait?
    ensures Outbox(s, t, step)
  {
  }

  /** Only waiting lets time pass; what is queued gets a task, and a task leaves
      only when its deletion is complete. */
  lemma ClockAndOutbox(s: State, c: Config, step: Step)
    requires Inv(s, c) && Possible(s, c, step)
    ensures Next(s, c, step).now == s.now + if step.Wait? then step.time else 0
    ensures Outbox(s, Next(s, c, step), step)
  {
    if Uploads(step) || step.CreateUpload? {
      UploadsAndOutbox(s, c, step);
    } else {
      QueueingSteps(s, c, step);
      QueuedIsOutbox(s, Next(s, c, step), step);
    }
  }

  lemma QueueingSteps(s: State, c: Config, step: Step)
    requires Inv(s, c) && Possible(s, c, step) && !Uploads(step) && !step.CreateUpload?
    ensures Queued(s, Next(s, c, step)) && Next(s, c, step).now == s.now
  {
    if step.CompleteUpload? {
      FinalizeFrame(s, c, step.finalizer);
      FinalizeQueues(s, c, step.finalizer);
    } else if step.DetachAndFence? {
      FencingAndOutbox(s, c, step.location, step.doomed);
    } else if Inner(step) {
      InnerFrame(s, c, step);
      ClockRuns(s, c, step);
    } else {
      QueuesOnly(s, c, step);
    }
  }

  /** A task stays until its deletion is complete. */
  lemma {:induction false} TasksStay(s: State, c: Config, steps: seq<Step>, id: nat)
    requires Inv(s, c) && id in s.tasks && Run(s, c, steps).Some? && CompleteDeletion(id) !in steps
    ensures var t := Run(s, c, steps).value; id in t.tasks && t.tasks[id] == s.tasks[id]
    decreases |steps|
  {
    if steps != [] {
      ClockAndOutbox(s, c, steps[0]);
      StepKeepsInv(s, c, steps[0]);
      TasksStay(Next(s, c, steps[0]), c, steps[1..], id);
    }
  }

  /** No place has two tasks. */
  ghost predicate Single(tasks: map<nat, Place>) {
    forall a <- tasks, b <- tasks :: tasks[a] == tasks[b] ==> a == b
  }

  lemma EnqueueKeepsSingle(s: State, place: Place)
    requires Single(s.tasks) && !Tasks(s.tasks, place)
    ensures Single(Enqueue(s, place).tasks)
  {
  }

  lemma NotQueuedNoTask(s: State, place: Place)
    requires Tasked(s.owner, s.queued, s.tasks) && place !in s.queued
    ensures !Tasks(s.tasks, place)
  {
  }

  lemma FenceKeepsSingle(s: State, c: Config, location: nat)
    requires Ownership(s) && Single(s.tasks)
    ensures Single(Fence(s, c, location).tasks)
  {
    if location in s.locations && !Referenced(s, location) {
      RetiresExactlyWhenDue(s, c, location);
      var t := MarkDeleted(s, location);
      var folder := t.locations[location].folder;
      NotQueuedNoTask(s, Place(folder, Root));
      EnqueueKeepsSingle(t.(locations := t.locations - {location}, owner := t.owner[folder := Retired]), Place(folder, Root));
    }
  }

  lemma PromoteKeepsSingle(s: State, folder: Folder, sizes: seq<int>)
    requires Ownership(s) && Single(s.tasks) && folder in s.uploads
    ensures Single(Promote(s, folder, sizes).tasks)
  {
    NotQueuedNoTask(s, Place(folder, Blocks));
  }

  lemma FinalizeKeepsSingle(s: State, c: Config, id: nat)
    requires Inv(s, c) && Single(s.tasks) && CanFinalize(s, id)
    ensures Single(Finalize(s, c, id).tasks)
  {
    var f := s.finalizers[id];
    var entry, p := TheEntry(s, f.tuple), Promote(s, f.folder, SizesFound(f));
    PromoteKeepsSingle(s, f.folder, SizesFound(f));
    PromoteKeepsOwnership(s, c, f.folder, SizesFound(f));
    if entry.Some? {
      FenceKeepsSingle(PointEntry(p, entry.value, f.tuple, s.next), c, s.entries[entry.value].location);
    }
  }

  lemma DropKeepsSingle(s: State, folder: Folder)
    requires Ownership(s) && Single(s.tasks) && folder in s.uploads
    ensures Single(DropUpload(s, folder).tasks)
  {
    NotQueuedNoTask(s, Place(folder, Root));
  }

  lemma ClaimKeepsSingle(s: State, c: Config, step: Step)
    requires Ownership(s) && Single(s.tasks) && Possible(s, c, step) && (step.ClaimOrphan? || step.ClaimPartsDeletion?)
    ensures Single(Next(s, c, step).tasks)
  {
    if step.ClaimPartsDeletion? {
      NotQueuedNoTask(s, Place(s.locations[step.location].folder, Parts));
    }
  }

  lemma StepKeepsSingle(s: State, c: Config, step: Step)
    requires Inv(s, c) && Single(s.tasks) && Possible(s, c, step)
    ensures Single(Next(s, c, step).tasks)
  {
    if step.CompleteUpload? {
      FinalizeKeepsSingle(s, c, step.finalizer);
    } else if step.DetachAndFence? {
      FenceKeepsSingle(DetachEntries(s, step.location, step.doomed), c, step.location);
    } else if Inner(step) {
      InnerFrame(s, c, step);
    } else if step.DeleteUpload? || step.DeleteIfInactive? {
      DropKeepsSingle(s, step.folder);
    } else if step.ClaimOrphan? || step.ClaimPartsDeletion? {
      ClaimKeepsSingle(s, c, step);
    }
  }

  /** Over every run a place has one task at most. */
  lemma {:induction false} NoPlaceIsQueuedTwice(s: State, c: Config, steps: seq<Step>)
    requires Inv(s, c) && Single(s.tasks) && Run(s, c, steps).Some?
    ensures Single(Run(s, c, steps).value.tasks)
    decreases |steps|
  {
    if steps != [] {
      StepKeepsSingle(s, c, steps[0]);
      StepKeepsInv(s, c, steps[0]);
      NoPlaceIsQueuedTwice(Next(s, c, steps[0]), c, steps[1..]);
    }
  }

  // Objects.

  /** What a step does to one object. */
  ghost predicate Moves(s: State, t: State, step: Step, obj: Object) {
    if step.WriteObject? && step.obj == obj then obj in t.objects && t.objects[obj] == step.content
    else if step.DeleteObject? && step.obj == obj then obj !in t.objects
    else if step.LandMerge? && step.token in s.composers && Object(s.composers[step.token].folder, Merged) == obj then
      obj in t.objects && t.objects[obj] == Flatten(CopiedParts(s.composers[step.token]))
    else (obj in s.objects <==> obj in t.objects) && (obj in s.objects ==> t.objects[obj] == s.objects[obj])
  }

  lemma StoresMove(s: State, c: Config, step: Step, obj: Object)
    requires Stores(step) && Possible(s, c, step)
    ensures Moves(s, Next(s, c, step), step, obj)
  {
  }

  /** Storage changes by writes, deletions and merges that land, one object at a
      time; no transaction touches it. */
  lemma ObjectsMove(s: State, c: Config, step: Step, obj: Object)
    requires Possible(s, c, step)
    ensures Moves(s, Next(s, c, step), step, obj)
  {
    if Stores(step) {
      StoresMove(s, c, step, obj);
    } else if step.CompleteUpload? {
      FinalizeKeepsObjects(s, c, step.finalizer);
    } else if step.DetachAndFence? {
      FenceIsFewer(DetachEntries(s, step.location, step.doomed), c, step.location);
    } else {
      PlainIsFewer(s, c, step);
    }
  }

  // Readers that have looked, and merges at work.

  ghost predicate SameWorkers(s: State, t: State) {
    t.acquiring == s.acquiring && t.composers == s.composers
  }

  lemma MarkingKeepsWorkers(s: State, location: nat)
    requires location in s.locations
    ensures SameWorkers(s, MarkDeleted(s, location)) && SameWorkers(s, Retire(MarkDeleted(s, location), location))
  {
  }

  lemma FenceKeepsWorkers(s: State, c: Config, location: nat)
    ensures SameWorkers(s, Fence(s, c, location))
  {
    if location in s.locations && !Referenced(s, location) {
      MarkingKeepsWorkers(s, location);
      RetiresExactlyWhenDue(s, c, location);
    }
  }

  lemma FinalizeKeepsWorkers(s: State, c: Config, id: nat)
    requires CanFinalize(s, id)
    ensures SameWorkers(s, Finalize(s, c, id))
  {
    var f := s.finalizers[id];
    var entry, p := TheEntry(s, f.tuple), Promote(s, f.folder, SizesFound(f));
    if entry.Some? {
      FenceKeepsWorkers(PointEntry(p, entry.value, f.tuple, s.next), c, s.entries[entry.value].location);
    }
  }

  lemma OnUploadsKeepsWorkers(s: State, c: Config, step: Step)
    requires OnUploads(step) && !step.CompleteUpload? && Possible(s, c, step)
    ensures SameWorkers(s, Next(s, c, step))
  {
  }

  lemma OutsideKeepsWorkers(s: State, c: Config, step: Step)
    requires !Inner(step) && Possible(s, c, step)
    ensures SameWorkers(s, Next(s, c, step))
  {
    if step.CompleteUpload? {
      FinalizeKeepsWorkers(s, c, step.finalizer);
    } else if step.DetachAndFence? {
      FenceKeepsWorkers(DetachEntries(s, step.location, step.doomed), c, step.location);
    } else if OnUploads(step) {
      OnUploadsKeepsWorkers(s, c, step);
    } else {
      ClaimFrame(s, c, step.location);
    }
  }

  lemma ReadsKeepSnapshots(s: State, c: Config, step: Step)
    requires Reads(step) && Possible(s, c, step)
    ensures Next(s, c, step).acquiring == s.acquiring
  {
  }

  lemma LookingKeepsSnapshots(s: State, c: Config, step: Step, id: nat)
    requires step.ReadLocation? && Possible(s, c, step) && id in s.acquiring && id < s.next
    ensures id in Next(s, c, step).acquiring && Next(s, c, step).acquiring[id] == s.acquiring[id]
  {
  }

  lemma InsertingKeepsSnapshots(s: State, c: Config, reader: nat, id: nat)
    requires CanInsert(s, reader) && reader != id && id in s.acquiring
    ensures id in InsertLease(s, c, reader).acquiring && InsertLease(s, c, reader).acquiring[id] == s.acquiring[id]
  {
  }

  lemma LeasingKeepsSnapshots(s: State, c: Config, step: Step, id: nat)
    requires Leasing(step) && Possible(s, c, step) && step != AcquireReader(id) && id in s.acquiring && id < s.next
    ensures id in Next(s, c, step).acquiring && Next(s, c, step).acquiring[id] == s.acquiring[id]
  {
    if step.AcquireReader? {
      InsertingKeepsSnapshots(s, c, step.reader, id);
    } else if step.ReadLocation? {
      LookingKeepsSnapshots(s, c, step, id);
    } else {
      ReadsKeepSnapshots(s, c, step);
    }
  }

  lemma SnapshotStays(s: State, c: Config, step: Step, id: nat)
    requires IdsAreDrawn(s) && Possible(s, c, step) && step != AcquireReader(id) && id in s.acquiring
    ensures id in Next(s, c, step).acquiring && Next(s, c, step).acquiring[id] == s.acquiring[id]
  {
    if Leasing(step) {
      LeasingKeepsSnapshots(s, c, step, id);
    } else if Inner(step) {
      InnerFrame(s, c, step);
    } else {
      OutsideKeepsWorkers(s, c, step);
    }
  }

  lemma {:induction false} SnapshotStaysOver(s: State, c: Config, steps: seq<Step>, id: nat)
    requires Inv(s, c) && id in s.acquiring && Run(s, c, steps).Some? && AcquireReader(id) !in steps
    ensures var t := Run(s, c, steps).value; id in t.acquiring && t.acquiring[id] == s.acquiring[id]
    decreases |steps|
  {
    if steps != [] {
      SnapshotStays(s, c, steps[0], id);
      StepKeepsInv(s, c, steps[0]);
      SnapshotStaysOver(Next(s, c, steps[0]), c, steps[1..], id);
    }
  }

  /** What a reader remembers of the location that it has looked up. */
  lemma LookingFinds(s: State, c: Config, entry: nat, direct: bool)
    requires Inv(s, c) && Possible(s, c, ReadLocation(entry, direct))
    ensures var t := Next(s, c, ReadLocation(entry, direct));
            && t.locations == s.locations && s.next in t.acquiring && t.acquiring[s.next].location == s.entries[entry].location
            && t.acquiring[s.next].direct == direct
            && var l := s.locations[s.entries[entry].location];
               t.acquiring[s.next].locks ==> l.mergedAt.None? && l.partCount >= 2 && l.unsupportedAt.None?
  {
  }

  lemma RefusedWhen(t: State, c: Config, id: nat)
    requires Located(t.locations, t.composers, c) && id in t.acquiring && !CanInsert(t, id)
    requires t.acquiring[id].location in t.locations
    ensures var l := t.locations[t.acquiring[id].location];
            t.acquiring[id].locks && (l.deletionRequestedAt.Some? || l.mergedAt.Some?)
  {
    assert Consistent(t.locations[t.acquiring[id].location], c);
  }

  /** A reader that has looked up a location is refused its lease only when the
      row is gone, or when it could have been merged and has since been fenced or
      merged. So nobody who looks up a merged location, a single part or one that
      cannot be merged has to look twice. */
  lemma RefusedReadersWereOvertaken(s: State, c: Config, entry: nat, direct: bool, steps: seq<Step>)
    requires Inv(s, c) && Possible(s, c, ReadLocation(entry, direct)) && AcquireReader(s.next) !in steps
    requires Run(Next(s, c, ReadLocation(entry, direct)), c, steps).Some?
    ensures var t, location := Run(Next(s, c, ReadLocation(entry, direct)), c, steps).value, s.entries[entry].location;
            !CanInsert(t, s.next) ==>
              || location !in t.locations
              || (&& s.locations[location].mergedAt.None? && s.locations[location].partCount >= 2
                  && s.locations[location].unsupportedAt.None?
                  && (t.locations[location].deletionRequestedAt.Some? || t.locations[location].mergedAt.Some?))
  {
    var u := Next(s, c, ReadLocation(entry, direct));
    LookingFinds(s, c, entry, direct);
    StepKeepsInv(s, c, ReadLocation(entry, direct));
    SnapshotStaysOver(u, c, steps, s.next);
    EveryRunKeepsInv(u, c, steps);
    var t := Run(u, c, steps).value;
    if !CanInsert(t, s.next) && t.acquiring[s.next].location in t.locations {
      RefusedWhen(t, c, s.next);
    }
  }

  /** A merge learns that its object is complete only from an answer. */
  lemma DoneIsAnswered(s: State, c: Config, step: Step, token: nat)
    requires Possible(s, c, step) && IdsAreDrawn(s) && step != LandMerge(token, true)
    requires token in s.composers ==> !s.composers[token].done
    ensures token in Next(s, c, step).composers ==> !Next(s, c, step).composers[token].done
  {
    if Stores(step) || step.AcquireMaterialization? {
    } else if Inner(step) {
      InnerFrame(s, c, step);
    } else {
      OutsideKeepsWorkers(s, c, step);
    }
  }

  /** No merge is recorded that storage has not confirmed. */
  lemma {:induction false} FinishFollowsAnAnswer(s: State, c: Config, steps: seq<Step>, token: nat)
    requires Inv(s, c) && (token in s.composers ==> !s.composers[token].done)
    requires Run(s, c, steps).Some? && LandMerge(token, true) !in steps
    ensures FinishMaterialization(token) !in steps
    decreases |steps|
  {
    if steps != [] {
      DoneIsAnswered(s, c, steps[0], token);
      StepKeepsInv(s, c, steps[0]);
      FinishFollowsAnAnswer(Next(s, c, steps[0]), c, steps[1..], token);
    }
  }
}
