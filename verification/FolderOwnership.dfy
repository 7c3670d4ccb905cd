/** What every interleaving of the folder protocol keeps. */
module FolderOwnership {
  import opened Int64
  import opened Octets
  import opened Options
  import opened FolderProtocol
  import opened Sequences

  ghost predicate Drawn<T>(rows: map<nat, T>, next: nat) {
    forall id <- rows :: id < next
  }

  /** Ids in use were drawn from the counter. */
  ghost predicate IdsAreDrawn(s: State) {
    && Drawn(s.locations, s.next) && Drawn(s.entries, s.next) && Drawn(s.leases, s.next)
    && Drawn(s.acquiring, s.next) && Drawn(s.composers, s.next) && Drawn(s.tasks, s.next) && Drawn(s.finalizers, s.next)
    && (forall id <- s.acquiring :: s.acquiring[id].location < s.next)
    && (forall id <- s.composers :: s.composers[id].location < s.next)
  }

  /** The history agrees with the rows: a folder being uploaded has an upload
      row, a stored one a location row, and a retired one was queued whole. */
  ghost predicate Owned(owner: map<Folder, Owner>, uploads: map<Folder, Upload>, locations: map<nat, Location>, queued: set<Place>) {
    && (forall f <- uploads :: f in owner && owner[f] == Uploading)
    && (forall l <- locations :: locations[l].folder in owner && owner[locations[l].folder] == Stored(l))
    && (forall f <- owner ::
          match owner[f]
          case Uploading => f in uploads
          case Stored(l) => l in locations && locations[l].folder == f
          case Retired => Place(f, Root) in queued)
  }

  /** Nothing of an upload is queued; of a stored folder the blocks are, the
      parts exactly when their deletion was claimed, and never the whole. */
  ghost predicate QueuedOnlyWhenDue(owner: map<Folder, Owner>, locations: map<nat, Location>, queued: set<Place>) {
    forall f <- owner ::
      match owner[f]
      case Uploading => Place(f, Root) !in queued && Place(f, Parts) !in queued && Place(f, Blocks) !in queued
      case Stored(l) =>
        && Place(f, Root) !in queued && Place(f, Blocks) in queued
        && (l in locations ==> (Place(f, Parts) in queued <==> locations[l].partsDeletedAt.Some?))
      case Retired => true
  }

  ghost predicate Tasked(owner: map<Folder, Owner>, queued: set<Place>, tasks: map<nat, Place>) {
    && (forall p <- queued :: p.folder in owner)
    && (forall t <- tasks :: tasks[t] in queued)
  }

  ghost predicate OneUploadPerTuple(uploads: map<Folder, Upload>) {
    forall a <- uploads, b <- uploads :: uploads[a].tuple == uploads[b].tuple ==> a == b
  }

  /** The states a location row can be in. */
  ghost predicate Consistent(l: Location, c: Config) {
    && |l.sizes| == l.partCount >= 1 && Sum(l.sizes) <= MAX_INT64
    && (l.partsDeletedAt.Some? ==> l.mergedAt.Some?)
    && (l.mergedAt.Some? ==> l.partCount >= 2 && !c.materializationDisabled && l.unsupportedAt.None? && l.token.None?)
    && (l.token.Some? ==> l.partCount >= 2 && !c.materializationDisabled && l.unsupportedAt.None?)
  }

  ghost predicate Located(locations: map<nat, Location>, composers: map<nat, Composer>, c: Config) {
    && (forall l <- locations :: Consistent(locations[l], c))
    && (forall t <- composers :: composers[t].location in locations ==>
          composers[t].folder == locations[composers[t].location].folder)
  }

  ghost predicate HasSized(objects: map<Object, Content>, f: Finalizer) {
    forall i <- f.sizes :: Object(f.folder, Part(i)) in objects
  }

  ghost predicate PartsPresent(objects: map<Object, Content>, locations: map<nat, Location>) {
    forall l <- locations :: locations[l].partsDeletedAt.None? ==> HasParts(objects, locations[l].folder, locations[l].partCount)
  }

  ghost predicate MergedPresent(objects: map<Object, Content>, locations: map<nat, Location>) {
    forall l <- locations :: locations[l].mergedAt.Some? ==> Object(locations[l].folder, Merged) in objects
  }

  ghost predicate SizedPresent(objects: map<Object, Content>, uploads: map<Folder, Upload>, finalizers: map<nat, Finalizer>) {
    forall f <- finalizers :: finalizers[f].folder in uploads ==> HasSized(objects, finalizers[f])
  }

  ghost predicate LandedPresent(objects: map<Object, Content>, locations: map<nat, Location>, composers: map<nat, Composer>) {
    forall t <- composers :: composers[t].done && composers[t].location in locations ==>
      Object(composers[t].folder, Merged) in objects
  }

  ghost predicate FinalizersKnown(finalizers: map<nat, Finalizer>, owner: map<Folder, Owner>) {
    forall f <- finalizers :: finalizers[f].partCount >= 1 && finalizers[f].folder in owner
  }

  /** Whatever a live row says is in storage is there. */
  ghost predicate Present(s: State) {
    && PartsPresent(s.objects, s.locations)
    && MergedPresent(s.objects, s.locations)
    && SizedPresent(s.objects, s.uploads, s.finalizers)
    && LandedPresent(s.objects, s.locations, s.composers)
    && FinalizersKnown(s.finalizers, s.owner)
  }

  /** The representation that a lease or a half-finished acquisition is for. */
  ghost predicate Readable(l: Location, scope: Scope) {
    match scope
    case Storage => l.mergedAt.Some?
    case PartsScope => l.partsDeletedAt.None?
  }

  /** A half-finished acquisition that will not lock the row relies on parts
      that cannot be deleted. */
  ghost predicate Relies(l: Location, a: Snapshot, c: Config) {
    match a.scope
    case Storage => l.mergedAt.Some?
    case PartsScope => a.locks || (l.partsDeletedAt.None? && !MayMerge(l, c))
  }

  ghost predicate Leased(locations: map<nat, Location>, leases: map<nat, Lease>) {
    forall id <- leases :: leases[id].location in locations && Readable(locations[leases[id].location], leases[id].scope)
  }

  ghost predicate Acquiring(locations: map<nat, Location>, acquiring: map<nat, Snapshot>, c: Config) {
    forall id <- acquiring :: acquiring[id].location in locations ==>
      Relies(locations[acquiring[id].location], acquiring[id], c)
  }

  /** An entry leads to a live location, and a tuple has one entry. */
  ghost predicate Referring(locations: map<nat, Location>, entries: map<nat, Entry>) {
    && (forall e <- entries :: entries[e].location in locations && locations[entries[e].location].deletionRequestedAt.None?)
    && (forall a <- entries, b <- entries :: entries[a].tuple == entries[b].tuple ==> a == b)
  }

  /** Folders, rows and tasks. */
  ghost predicate Ownership(s: State) {
    && Owned(s.owner, s.uploads, s.locations, s.queued)
    && QueuedOnlyWhenDue(s.owner, s.locations, s.queued)
    && Tasked(s.owner, s.queued, s.tasks)
    && OneUploadPerTuple(s.uploads)
  }

  /** Ids, locations, leases and entries. */
  ghost predicate Rows(s: State, c: Config) {
    && IdsAreDrawn(s)
    && Located(s.locations, s.composers, c)
    && Leased(s.locations, s.leases)
    && Acquiring(s.locations, s.acquiring, c)
    && Referring(s.locations, s.entries)
  }

  ghost predicate Inv(s: State, c: Config) {
    Ownership(s) && Rows(s, c) && Present(s)
  }

  lemma CreateKeepsOwnership(s: State, c: Config, folder: Folder, tuple: Tuple)
    requires Ownership(s) && CanCreate(s, folder, tuple)
    ensures Ownership(Create(s, folder, tuple))
  {
  }

  lemma DropUploadKeepsOwnership(s: State, folder: Folder)
    requires Ownership(s) && folder in s.uploads
    ensures Ownership(DropUpload(s, folder))
  {
  }

  lemma PromoteKeepsOwned(s: State, folder: Folder, sizes: seq<int>)
    requires Ownership(s) && IdsAreDrawn(s) && folder in s.uploads
    ensures var t := Promote(s, folder, sizes); Owned(t.owner, t.uploads, t.locations, t.queued)
  {
  }

  lemma PromoteKeepsQueued(s: State, folder: Folder, sizes: seq<int>)
    requires Ownership(s) && IdsAreDrawn(s) && folder in s.uploads
    ensures var t := Promote(s, folder, sizes); QueuedOnlyWhenDue(t.owner, t.locations, t.queued)
  {
  }

  lemma PromoteKeepsOwnership(s: State, c: Config, folder: Folder, sizes: seq<int>)
    requires Ownership(s) && IdsAreDrawn(s) && folder in s.uploads
    ensures Ownership(Promote(s, folder, sizes))
  {
    PromoteKeepsOwned(s, folder, sizes);
    PromoteKeepsQueued(s, folder, sizes);
  }

  lemma PromoteKeepsIds(s: State, folder: Folder, sizes: seq<int>)
    requires IdsAreDrawn(s)
    ensures IdsAreDrawn(Promote(s, folder, sizes))
  {
  }

  /** A new row with an id that nothing refers to yet. */
  lemma NewLocation(s: State, c: Config, l: Location)
    requires Rows(s, c) && Consistent(l, c)
    ensures var locations := s.locations[s.next := l];
            && Located(locations, s.composers, c) && Leased(locations, s.leases)
            && Acquiring(locations, s.acquiring, c) && Referring(locations, s.entries)
  {
  }

  lemma PromoteKeepsRows(s: State, c: Config, folder: Folder, sizes: seq<int>)
    requires Rows(s, c) && folder in s.uploads && sizes != [] && Sum(sizes) <= MAX_INT64
    ensures Rows(Promote(s, folder, sizes), c)
  {
    PromoteKeepsIds(s, folder, sizes);
    NewLocation(s, c, Promote(s, folder, sizes).locations[s.next]);
  }

  lemma PromoteKeepsPresent(s: State, c: Config, folder: Folder, sizes: seq<int>)
    requires Inv(s, c) && folder in s.uploads && HasParts(s.objects, folder, |sizes|)
    ensures Present(Promote(s, folder, sizes))
  {
  }

  lemma PointEntryKeepsRows(s: State, c: Config, entry: nat, tuple: Tuple, location: nat)
    requires Rows(s, c) && location in s.locations && s.locations[location].deletionRequestedAt.None?
    requires forall e <- s.entries :: s.entries[e].tuple == tuple ==> e == entry
    requires entry < s.next
    ensures Rows(PointEntry(s, entry, tuple, location), c)
  {
  }

  lemma NewEntryKeepsRows(s: State, c: Config, tuple: Tuple, location: nat)
    requires Rows(s, c) && location in s.locations && s.locations[location].deletionRequestedAt.None?
    requires forall e <- s.entries :: s.entries[e].tuple != tuple
    ensures Rows(PointEntry(s.(next := s.next + 1), s.next, tuple, location), c)
  {
  }

  lemma MarkDeletedKeepsOwnership(s: State, location: nat)
    requires Ownership(s) && location in s.locations
    ensures Ownership(MarkDeleted(s, location))
  {
  }

  lemma MarkDeletedKeepsRows(s: State, c: Config, location: nat)
    requires Rows(s, c) && location in s.locations && !Referenced(s, location)
    ensures Rows(MarkDeleted(s, location), c)
  {
  }

  lemma MarkDeletedKeepsPresent(s: State, location: nat)
    requires Present(s) && location in s.locations
    ensures Present(MarkDeleted(s, location))
  {
  }

  lemma RetireKeepsOwnership(s: State, location: nat)
    requires Ownership(s) && location in s.locations
    ensures Ownership(Retire(s, location))
  {
  }

  lemma RetireKeepsRows(s: State, c: Config, location: nat)
    requires Rows(s, c) && location in s.locations && !Referenced(s, location) && !Read(s, location)
    ensures Rows(Retire(s, location), c)
  {
  }

  lemma RetireKeepsPresent(s: State, location: nat)
    requires Present(s) && location in s.locations
    ensures Present(Retire(s, location))
  {
  }

  lemma FenceKeepsOwnership(s: State, c: Config, location: nat)
    requires Ownership(s)
    ensures Ownership(Fence(s, c, location))
  {
    if location in s.locations && !Referenced(s, location) {
      MarkDeletedKeepsOwnership(s, location);
      RetireKeepsOwnership(MarkDeleted(s, location), location);
    }
  }

  /** Fencing deletes a row only when no entry leads to it and no lease is left. */
  lemma FenceKeepsRows(s: State, c: Config, location: nat)
    requires Rows(s, c)
    ensures Rows(Fence(s, c, location), c)
  {
    if location in s.locations && !Referenced(s, location) {
      var t := MarkDeleted(s, location);
      MarkDeletedKeepsRows(s, c, location);
      assert t.entries == s.entries && !Referenced(t, location);
      if !Read(t, location) {
        RetireKeepsRows(t, c, location);
      }
    }
  }

  lemma FenceKeepsPresent(s: State, c: Config, location: nat)
    requires Present(s)
    ensures Present(Fence(s, c, location))
  {
    if location in s.locations && !Referenced(s, location) {
      MarkDeletedKeepsPresent(s, location);
      RetireKeepsPresent(MarkDeleted(s, location), location);
    }
  }

  lemma DetachKeepsRows(s: State, c: Config, location: nat, doomed: set<nat>)
    requires Rows(s, c)
    ensures Rows(DetachEntries(s, location, doomed), c)
  {
  }

  lemma SettleKeepsOwnership(s: State, c: Config, entry: Option<nat>, tuple: Tuple, location: nat)
    requires Ownership(s) && (entry.Some? ==> entry.value in s.entries)
    ensures Ownership(Settle(s, c, entry, tuple, location))
  {
    if entry.Some? {
      FenceKeepsOwnership(PointEntry(s, entry.value, tuple, location), c, s.entries[entry.value].location);
    }
  }

  lemma SettleKeepsRows(s: State, c: Config, entry: Option<nat>, tuple: Tuple, location: nat)
    requires Rows(s, c) && location in s.locations && s.locations[location].deletionRequestedAt.None?
    requires forall e <- s.entries :: s.entries[e].tuple == tuple ==> entry == Some(e)
    requires entry.Some? ==> entry.value in s.entries
    ensures Rows(Settle(s, c, entry, tuple, location), c)
  {
    match entry
    case None =>
      NewEntryKeepsRows(s, c, tuple, location);
    case Some(e) =>
      PointEntryKeepsRows(s, c, e, tuple, location);
      FenceKeepsRows(PointEntry(s, e, tuple, location), c, s.entries[e].location);
  }

  lemma SettleKeepsPresent(s: State, c: Config, entry: Option<nat>, tuple: Tuple, location: nat)
    requires Present(s) && (entry.Some? ==> entry.value in s.entries)
    ensures Present(Settle(s, c, entry, tuple, location))
  {
    if entry.Some? {
      FenceKeepsPresent(PointEntry(s, entry.value, tuple, location), c, s.entries[entry.value].location);
    }
  }

  lemma OnlyEntry(s: State, tuple: Tuple)
    requires SingleMatch(s, tuple)
    ensures forall e <- s.entries :: s.entries[e].tuple == tuple ==> TheEntry(s, tuple) == Some(e)
  {
    forall e | e in s.entries && s.entries[e].tuple == tuple
      ensures TheEntry(s, tuple) == Some(e)
    {
      assert Matches(s, e, tuple);
    }
  }

  lemma FinalizeKeepsOwnership(s: State, c: Config, id: nat)
    requires Ownership(s) && IdsAreDrawn(s) && CanFinalize(s, id)
    ensures Ownership(Finalize(s, c, id))
  {
    var f := s.finalizers[id];
    PromoteKeepsOwnership(s, c, f.folder, SizesFound(f));
    SettleKeepsOwnership(Promote(s, f.folder, SizesFound(f)), c, TheEntry(s, f.tuple), f.tuple, s.next);
  }

  lemma FinalizeKeepsRows(s: State, c: Config, id: nat)
    requires Rows(s, c) && CanFinalize(s, id) && s.finalizers[id].partCount >= 1
    ensures Rows(Finalize(s, c, id), c)
  {
    var f := s.finalizers[id];
    PromoteKeepsRows(s, c, f.folder, SizesFound(f));
    OnlyEntry(s, f.tuple);
    SettleKeepsRows(Promote(s, f.folder, SizesFound(f)), c, TheEntry(s, f.tuple), f.tuple, s.next);
  }

  lemma FinalizeKeepsPresent(s: State, c: Config, id: nat)
    requires Inv(s, c) && CanFinalize(s, id)
    ensures Present(Finalize(s, c, id))
  {
    var f := s.finalizers[id];
    PromoteKeepsPresent(s, c, f.folder, SizesFound(f));
    SettleKeepsPresent(Promote(s, f.folder, SizesFound(f)), c, TheEntry(s, f.tuple), f.tuple, s.next);
  }

  lemma ClaimPartsKeepsOwnership(s: State, location: nat)
    requires Ownership(s) && location in s.locations
    ensures Ownership(ClaimParts(s, location))
  {
  }

  lemma ClaimPartsKeepsRows(s: State, c: Config, location: nat)
    requires Rows(s, c) && CanClaimParts(s, location)
    ensures Rows(ClaimParts(s, location), c)
  {
  }

  lemma ClaimPartsKeepsPresent(s: State, location: nat)
    requires Present(s) && location in s.locations
    ensures Present(ClaimParts(s, location))
  {
  }

  lemma MaterializeKeepsOwnership(s: State, c: Config, location: nat)
    requires Ownership(s) && location in s.locations
    ensures Ownership(Materialize(s, c, location))
  {
  }

  lemma MaterializeKeepsRows(s: State, c: Config, location: nat)
    requires Rows(s, c) && CanMaterialize(s, c, location)
    ensures Rows(Materialize(s, c, location), c)
  {
  }

  lemma MaterializeKeepsPresent(s: State, c: Config, location: nat)
    requires Present(s) && IdsAreDrawn(s) && location in s.locations
    ensures Present(Materialize(s, c, location))
  {
  }

  lemma InsertKeepsRows(s: State, c: Config, id: nat)
    requires Rows(s, c) && CanInsert(s, id)
    ensures Rows(InsertLease(s, c, id), c)
  {
  }

  /** Steps of uploads and of the clock that change no owner and no object. */
  predicate Uploads(step: Step) {
    step.Wait? || step.TouchUpload? || step.BeginInspection? || step.SizePart? || step.CompleteDeletion?
  }

  lemma UploadsKeepOwnership(s: State, c: Config, step: Step)
    requires Ownership(s) && Uploads(step) && Possible(s, c, step)
    ensures Ownership(Next(s, c, step))
  {
  }

  lemma InspectionsKeepRows(s: State, c: Config, step: Step)
    requires Rows(s, c) && (step.BeginInspection? || step.SizePart?) && Possible(s, c, step)
    ensures Rows(Next(s, c, step), c)
  {
  }

  lemma UploadsKeepRows(s: State, c: Config, step: Step)
    requires Rows(s, c) && Uploads(step) && Possible(s, c, step)
    ensures Rows(Next(s, c, step), c)
  {
    if step.BeginInspection? || step.SizePart? {
      InspectionsKeepRows(s, c, step);
    }
  }

  lemma InspectionsKeepPresent(s: State, c: Config, step: Step)
    requires Inv(s, c) && (step.BeginInspection? || step.SizePart?) && Possible(s, c, step)
    ensures Present(Next(s, c, step))
  {
  }

  lemma UploadsKeepPresent(s: State, c: Config, step: Step)
    requires Inv(s, c) && Uploads(step) && Possible(s, c, step)
    ensures Present(Next(s, c, step))
  {
    if step.BeginInspection? || step.SizePart? {
      InspectionsKeepPresent(s, c, step);
    }
  }

  lemma WriteKeepsInv(s: State, c: Config, obj: Object, content: Content)
    requires Inv(s, c)
    ensures Inv(s.(objects := s.objects[obj := content]), c)
  {
  }

  predicate Reads(step: Step) {
    step.RenewReader? || step.ReleaseReader? || step.PurgeExpiredReaders?
  }

  lemma LookingKeepsRows(s: State, c: Config, entry: nat, direct: bool)
    requires Rows(s, c) && Possible(s, c, ReadLocation(entry, direct))
    ensures Rows(Next(s, c, ReadLocation(entry, direct)), c)
  {
  }

  lemma RenewKeepsRows(s: State, c: Config, lease: nat, direct: bool)
    requires Rows(s, c) && Possible(s, c, RenewReader(lease, direct))
    ensures Rows(Next(s, c, RenewReader(lease, direct)), c)
  {
  }

  lemma DropLeasesKeepsRows(s: State, c: Config, leases: map<nat, Lease>)
    requires Rows(s, c) && forall id <- leases :: id in s.leases && leases[id] == s.leases[id]
    ensures Rows(s.(leases := leases), c)
  {
  }

  lemma ReadsKeepRows(s: State, c: Config, step: Step)
    requires Rows(s, c) && Reads(step) && Possible(s, c, step)
    ensures Rows(Next(s, c, step), c)
  {
    match step
    case RenewReader(lease, direct) => RenewKeepsRows(s, c, lease, direct);
    case ReleaseReader(lease) => DropLeasesKeepsRows(s, c, s.leases - {lease});
    case PurgeExpiredReaders => DropLeasesKeepsRows(s, c, PurgeExpired(s).leases);
    case _ =>
  }

  ghost predicate LeasesOnly(s: State, t: State) {
    t == s.(leases := t.leases, acquiring := t.acquiring, next := t.next)
  }

  lemma ReadsChangeLeasesOnly(s: State, c: Config, step: Step)
    requires (Reads(step) || step.ReadLocation?) && Possible(s, c, step)
    ensures LeasesOnly(s, Next(s, c, step))
  {
  }

  lemma LeasesOnlyKeepsRest(s: State, t: State)
    requires Ownership(s) && Present(s) && LeasesOnly(s, t)
    ensures Ownership(t) && Present(t)
  {
  }

  /** A merge may land at any time, even when its location has long gone. */
  lemma ComposedKeepsInv(s: State, c: Config, token: nat, answered: bool)
    requires Inv(s, c) && token in s.composers
    ensures Inv(Composed(s, token, answered), c)
  {
  }

  lemma CopiedKeepsInv(s: State, c: Config, token: nat, index: nat)
    requires Inv(s, c) && Possible(s, c, CopyPart(token, index))
    ensures Inv(Copied(s, token, index), c)
  {
  }

  /** A change of a row that keeps what others rely on. */
  ghost predicate Refines(s: State, c: Config, location: nat, l: Location) {
    && location in s.locations && Consistent(l, c)
    && var was := s.locations[location];
       && l.folder == was.folder && l.partCount == was.partCount
       && l.partsDeletedAt == was.partsDeletedAt && l.deletionRequestedAt == was.deletionRequestedAt
       && (was.unsupportedAt.Some? ==> l.unsupportedAt.Some?)
       && (was.mergedAt.Some? ==> l.mergedAt.Some?)
       && (l.mergedAt.Some? ==> was.mergedAt.Some? || (MayMerge(was, c) && Object(l.folder, Merged) in s.objects))
  }

  lemma UpdateKeepsOwnership(s: State, c: Config, location: nat, l: Location)
    requires Ownership(s) && Refines(s, c, location, l)
    ensures Ownership(UpdateLocation(s, location, l))
  {
  }

  lemma UpdateKeepsRows(s: State, c: Config, location: nat, l: Location)
    requires Rows(s, c) && Refines(s, c, location, l)
    ensures Rows(UpdateLocation(s, location, l), c)
  {
  }

  lemma UpdateKeepsPresent(s: State, c: Config, location: nat, l: Location)
    requires Present(s) && Refines(s, c, location, l)
    ensures Present(UpdateLocation(s, location, l))
  {
  }

  predicate Merge(step: Step) {
    step.RenewMaterialization? || step.FinishMaterialization? || step.MarkUnsupported? || step.ReleaseMaterialization?
  }

  lemma MergeRefines(s: State, c: Config, step: Step) returns (location: nat, l: Location)
    requires Located(s.locations, s.composers, c) && LandedPresent(s.objects, s.locations, s.composers)
    requires Merge(step) && Possible(s, c, step)
    ensures Refines(s, c, location, l) && Next(s, c, step) == UpdateLocation(s, location, l)
  {
    location := s.composers[step.token].location;
    l := Next(s, c, step).locations[location];
  }

  /** The heart of the protocol: what was ever queued for deletion, whether or
      not its task is still there, is in no live representation. */
  lemma DeleteObjectKeepsPresent(s: State, c: Config, area: Area, obj: Object)
    requires Inv(s, c) && Place(obj.folder, area) in s.queued && Covers(area, obj.name)
    ensures Present(s.(objects := s.objects - {obj}))
  {
  }

  lemma ClaimOrphanKeepsOwnership(s: State, folder: Folder)
    requires Ownership(s) && folder !in s.uploads
    requires forall l <- s.locations :: s.locations[l].folder != folder
    ensures Ownership(Enqueue(s.(owner := s.owner[folder := Retired]), Place(folder, Root)))
  {
  }

  lemma ClaimOrphanKeepsRest(s: State, c: Config, folder: Folder)
    requires Rows(s, c) && Present(s)
    ensures var t := Enqueue(s.(owner := s.owner[folder := Retired]), Place(folder, Root)); Rows(t, c) && Present(t)
  {
  }

  lemma MergeKeepsOwnership(s: State, c: Config, step: Step)
    requires Inv(s, c) && Merge(step) && Possible(s, c, step)
    ensures Ownership(Next(s, c, step))
  {
    var location, l := MergeRefines(s, c, step);
    UpdateKeepsOwnership(s, c, location, l);
  }

  lemma MergeKeepsRows(s: State, c: Config, step: Step)
    requires Inv(s, c) && Merge(step) && Possible(s, c, step)
    ensures Rows(Next(s, c, step), c)
  {
    var location, l := MergeRefines(s, c, step);
    UpdateKeepsRows(s, c, location, l);
  }

  lemma MergeKeepsPresent(s: State, c: Config, step: Step)
    requires Inv(s, c) && Merge(step) && Possible(s, c, step)
    ensures Present(Next(s, c, step))
  {
    var location, l := MergeRefines(s, c, step);
    UpdateKeepsPresent(s, c, location, l);
  }

  /** Steps that make a folder somebody else's. */
  predicate Hands(step: Step) {
    step.CreateUpload? || step.CompleteUpload? || step.DeleteUpload? || step.DeleteIfInactive? || step.ClaimOrphan?
  }

  lemma DropKeepsInv(s: State, c: Config, folder: Folder)
    requires Inv(s, c) && folder in s.uploads
    ensures Inv(DropUpload(s, folder), c)
  {
    DropUploadKeepsOwnership(s, folder);
    DropKeepsRest(s, c, folder);
  }

  lemma DropKeepsRest(s: State, c: Config, folder: Folder)
    requires Rows(s, c) && Present(s)
    ensures Rows(DropUpload(s, folder), c) && Present(DropUpload(s, folder))
  {
  }

  lemma CreateKeepsInv(s: State, c: Config, folder: Folder, tuple: Tuple)
    requires Inv(s, c) && CanCreate(s, folder, tuple)
    ensures Inv(Create(s, folder, tuple), c)
  {
    CreateKeepsOwnership(s, c, folder, tuple);
  }

  lemma FinalizeKeepsInv(s: State, c: Config, id: nat)
    requires Inv(s, c) && CanFinalize(s, id)
    ensures Inv(Finalize(s, c, id), c)
  {
    FinalizeKeepsOwnership(s, c, id);
    FinalizeKeepsRows(s, c, id);
    FinalizeKeepsPresent(s, c, id);
  }

  lemma ClaimOrphanKeepsInv(s: State, c: Config, folder: Folder)
    requires Inv(s, c) && folder !in s.uploads
    requires forall l <- s.locations :: s.locations[l].folder != folder
    ensures Inv(Enqueue(s.(owner := s.owner[folder := Retired]), Place(folder, Root)), c)
  {
    ClaimOrphanKeepsOwnership(s, folder);
    ClaimOrphanKeepsRest(s, c, folder);
  }

  lemma HandsKeepInv(s: State, c: Config, step: Step)
    requires Inv(s, c) && Hands(step) && !step.CompleteUpload? && Possible(s, c, step)
    ensures Inv(Next(s, c, step), c)
  {
    match step
    case CreateUpload(folder, tuple) => CreateKeepsInv(s, c, folder, tuple);
    case DeleteUpload(folder) => DropKeepsInv(s, c, folder);
    case DeleteIfInactive(folder, _) => DropKeepsInv(s, c, folder);
    case ClaimOrphan(folder) => ClaimOrphanKeepsInv(s, c, folder);
    case _ =>
  }

  lemma DeleteObjectKeepsInv(s: State, c: Config, area: Area, obj: Object)
    requires Inv(s, c) && Place(obj.folder, area) in s.queued && Covers(area, obj.name)
    ensures Inv(s.(objects := s.objects - {obj}), c)
  {
    DeleteObjectKeepsPresent(s, c, area, obj);
  }

  predicate Stores(step: Step) {
    step.WriteObject? || step.DeleteObject? || step.CopyPart? || step.LandMerge?
  }

  lemma ObjectsKeepInv(s: State, c: Config, step: Step)
    requires Inv(s, c) && (step.WriteObject? || step.DeleteObject?) && Possible(s, c, step)
    ensures Inv(Next(s, c, step), c)
  {
    if step.WriteObject? {
      WriteKeepsInv(s, c, step.obj, step.content);
    } else {
      DeleteObjectKeepsInv(s, c, step.area, step.obj);
    }
  }

  lemma ComposingKeepsInv(s: State, c: Config, step: Step)
    requires Inv(s, c) && (step.CopyPart? || step.LandMerge?) && Possible(s, c, step)
    ensures Inv(Next(s, c, step), c)
  {
    if step.CopyPart? {
      CopiedKeepsInv(s, c, step.token, step.index);
    } else {
      ComposedKeepsInv(s, c, step.token, step.answered);
    }
  }

  lemma StoresKeepInv(s: State, c: Config, step: Step)
    requires Inv(s, c) && Stores(step) && Possible(s, c, step)
    ensures Inv(Next(s, c, step), c)
  {
    if step.WriteObject? || step.DeleteObject? {
      ObjectsKeepInv(s, c, step);
    } else {
      ComposingKeepsInv(s, c, step);
    }
  }

  lemma DetachKeepsInv(s: State, c: Config, location: nat, doomed: set<nat>)
    requires Inv(s, c)
    ensures Inv(Fence(DetachEntries(s, location, doomed), c, location), c)
  {
    var t := DetachEntries(s, location, doomed);
    DetachKeepsRows(s, c, location, doomed);
    FenceKeepsOwnership(t, c, location);
    FenceKeepsRows(t, c, location);
    FenceKeepsPresent(t, c, location);
  }

  lemma InsertKeepsInv(s: State, c: Config, id: nat)
    requires Inv(s, c) && CanInsert(s, id)
    ensures Inv(InsertLease(s, c, id), c)
  {
    InsertKeepsRows(s, c, id);
    LeasesOnlyKeepsRest(s, InsertLease(s, c, id));
  }

  lemma ClaimPartsKeepsInv(s: State, c: Config, location: nat)
    requires Inv(s, c) && CanClaimParts(s, location)
    ensures Inv(ClaimParts(s, location), c)
  {
    ClaimPartsKeepsOwnership(s, location);
    ClaimPartsKeepsRows(s, c, location);
    ClaimPartsKeepsPresent(s, location);
  }

  lemma MaterializeKeepsInv(s: State, c: Config, location: nat)
    requires Inv(s, c) && CanMaterialize(s, c, location)
    ensures Inv(Materialize(s, c, location), c)
  {
    MaterializeKeepsOwnership(s, c, location);
    MaterializeKeepsRows(s, c, location);
    MaterializeKeepsPresent(s, c, location);
  }

  lemma RowsOfPartsKeepInv(s: State, c: Config, step: Step)
    requires Inv(s, c) && (step.ClaimPartsDeletion? || step.AcquireMaterialization?) && Possible(s, c, step)
    ensures Inv(Next(s, c, step), c)
  {
    if step.ClaimPartsDeletion? {
      ClaimPartsKeepsInv(s, c, step.location);
    } else {
      MaterializeKeepsInv(s, c, step.location);
    }
  }

  /** Steps on the rows of stored folders. */
  predicate Manages(step: Step) {
    step.AcquireReader? || step.ClaimPartsDeletion? || step.AcquireMaterialization?
  }

  lemma ManagesKeepInv(s: State, c: Config, step: Step)
    requires Inv(s, c) && Manages(step) && Possible(s, c, step)
    ensures Inv(Next(s, c, step), c)
  {
    if step.AcquireReader? {
      InsertKeepsInv(s, c, step.reader);
    } else {
      RowsOfPartsKeepInv(s, c, step);
    }
  }

  lemma StepKeepsInv(s: State, c: Config, step: Step)
    requires Inv(s, c) && Possible(s, c, step)
    ensures Inv(Next(s, c, step), c)
  {
    if step.CompleteUpload? {
      FinalizeKeepsInv(s, c, step.finalizer);
    } else if Hands(step) {
      HandsKeepInv(s, c, step);
    } else if Stores(step) {
      StoresKeepInv(s, c, step);
    } else if step.DetachAndFence? {
      DetachKeepsInv(s, c, step.location, step.doomed);
    } else if Manages(step) {
      ManagesKeepInv(s, c, step);
    } else if Uploads(step) {
      UploadsKeepOwnership(s, c, step);
      UploadsKeepRows(s, c, step);
      UploadsKeepPresent(s, c, step);
    } else if step.ReadLocation? {
      LookingKeepsRows(s, c, step.entry, step.direct);
      ReadsChangeLeasesOnly(s, c, step);
      LeasesOnlyKeepsRest(s, Next(s, c, step));
    } else if Reads(step) {
      ReadsKeepRows(s, c, step);
      ReadsChangeLeasesOnly(s, c, step);
      LeasesOnlyKeepsRest(s, Next(s, c, step));
    } else {
      MergeKeepsOwnership(s, c, step);
      MergeKeepsRows(s, c, step);
      MergeKeepsPresent(s, c, step);
    }
  }

  /** The state after the steps, or None when one of them is not possible. */
  function Run(s: State, c: Config, steps: seq<Step>): Option<State>
    decreases |steps|
  {
    if steps == [] then Some(s)
    else if Possible(s, c, steps[0]) then Run(Next(s, c, steps[0]), c, steps[1..])
    else None
  }

  /** What holds in every state that any interleaving reaches. */
  lemma {:induction false} EveryRunKeepsInv(s: State, c: Config, steps: seq<Step>)
    requires Inv(s, c)
    ensures Run(s, c, steps).Some? ==> Inv(Run(s, c, steps).value, c)
    decreases |steps|
  {
    if steps != [] && Possible(s, c, steps[0]) {
      StepKeepsInv(s, c, steps[0]);
      EveryRunKeepsInv(Next(s, c, steps[0]), c, steps[1..]);
    }
  }

  lemma FromStart(now: int, c: Config, steps: seq<Step>)
    ensures Run(Start(now), c, steps).Some? ==> Inv(Run(Start(now), c, steps).value, c)
  {
    EveryRunKeepsInv(Start(now), c, steps);
  }

  // What that means for folders.

  predicate IsStored(s: State, folder: Folder) {
    exists l <- s.locations :: s.locations[l].folder == folder
  }

  predicate IsRetired(s: State, folder: Folder) {
    Place(folder, Root) in s.queued
  }

  /** A folder that has appeared belongs to an upload row, to one location row,
      or was queued for deletion as a whole: exactly one of the three. */
  lemma ExactlyOneOwner(s: State, c: Config, folder: Folder)
    requires Inv(s, c) && folder in s.owner
    ensures folder in s.uploads <==> !IsStored(s, folder) && !IsRetired(s, folder)
    ensures IsStored(s, folder) <==> folder !in s.uploads && !IsRetired(s, folder)
    ensures IsRetired(s, folder) <==> folder !in s.uploads && !IsStored(s, folder)
    ensures forall k <- s.locations, l <- s.locations ::
              s.locations[k].folder == s.locations[l].folder ==> k == l
  {
  }

  /** Nobody queues a live location: not its folder, and its parts only once
      merged and claimed. */
  lemma LiveLocationsAreNotQueued(s: State, c: Config, location: nat)
    requires Inv(s, c) && location in s.locations
    ensures var l := s.locations[location];
            && Place(l.folder, Root) !in s.queued
            && (Place(l.folder, Parts) in s.queued <==> l.partsDeletedAt.Some?)
            && (l.partsDeletedAt.Some? ==> l.mergedAt.Some?)
            && (forall t <- s.tasks :: s.tasks[t].folder == l.folder ==>
                  s.tasks[t].area.Blocks? || (s.tasks[t].area.Parts? && l.mergedAt.Some?))
  {
  }

  /** The step ends the upload session of a folder, one way or the other. */
  predicate Ends(s: State, step: Step, folder: Folder) {
    || (step.CompleteUpload? && step.finalizer in s.finalizers && s.finalizers[step.finalizer].folder == folder)
    || (step.DeleteUpload? && step.folder == folder)
    || (step.DeleteIfInactive? && step.folder == folder)
  }

  function Endings(s: State, c: Config, steps: seq<Step>, folder: Folder): nat
    decreases |steps|
  {
    if steps == [] || !Possible(s, c, steps[0]) then 0
    else (if Ends(s, steps[0], folder) then 1 else 0) + Endings(Next(s, c, steps[0]), c, steps[1..], folder)
  }

  predicate Over(s: State, folder: Folder) {
    folder in s.owner && folder !in s.uploads
  }

  lemma MarkDeletedFrame(s: State, location: nat)
    requires location in s.locations
    ensures var t := MarkDeleted(s, location);
            && t.now == s.now && t.next == s.next && t.finalizers == s.finalizers
            && t.uploads == s.uploads && t.owner == s.owner && t.locations.Keys == s.locations.Keys
            && (forall id <- s.leases :: s.leases[id].expiresAt > s.now ==> id in t.leases && t.leases[id] == s.leases[id])
  {
  }

  lemma ReadAfterMarking(s: State, location: nat)
    requires location in s.locations
    ensures Read(MarkDeleted(s, location), location)
       <==> exists id <- s.leases :: s.leases[id].location == location && s.leases[id].expiresAt > s.now
  {
    var t := MarkDeleted(s, location);
    forall id | id in s.leases && s.leases[id].location == location && s.leases[id].expiresAt > s.now
      ensures Read(t, location)
    {
      assert id in t.leases;
    }
  }

  /** A fenced row goes exactly when it may. */
  lemma RetiresExactlyWhenDue(s: State, c: Config, location: nat)
    requires location in s.locations && !Referenced(s, location)
    ensures var t := MarkDeleted(s, location);
            Fence(s, c, location) == if MayGo(s, c, location) then Retire(t, location) else t
  {
    ReadAfterMarking(s, location);
  }

  /** Fencing touches no upload and no clock, gives folders only away, keeps
      every unexpired lease and deletes at most this row, when it may. */
  lemma FenceFrame(s: State, c: Config, location: nat)
    ensures var t := Fence(s, c, location);
            && t.now == s.now && s.next <= t.next && t.finalizers == s.finalizers
            && t.uploads == s.uploads && s.owner.Keys <= t.owner.Keys
            && (forall id <- s.leases :: s.leases[id].expiresAt > s.now ==> id in t.leases && t.leases[id] == s.leases[id])
            && s.locations.Keys - {location} <= t.locations.Keys
            && (location in s.locations && location !in t.locations ==> MayGo(s, c, location))
  {
    if location in s.locations && !Referenced(s, location) {
      MarkDeletedFrame(s, location);
      RetireFrame(MarkDeleted(s, location), location);
      RetiresExactlyWhenDue(s, c, location);
    }
  }

  lemma RetireFrame(s: State, location: nat)
    requires location in s.locations
    ensures var t := Retire(s, location);
            && t.now == s.now && s.next <= t.next && t.finalizers == s.finalizers
            && t.uploads == s.uploads && s.owner.Keys <= t.owner.Keys && t.leases == s.leases
            && t.locations.Keys == s.locations.Keys - {location}
  {
  }

  /** Fenced for the grace period, and neither read nor merged. */
  ghost predicate MayGo(s: State, c: Config, location: nat)
    requires location in s.locations
  {
    var l := s.locations[location];
    && s.now >= (if l.deletionRequestedAt.Some? then l.deletionRequestedAt.value else s.now) + c.deletionGrace
    && !Merging(l, s.now)
    && forall id <- s.leases :: s.leases[id].location == location ==> s.leases[id].expiresAt <= s.now
  }

  predicate AllDetached(s: State, location: nat, doomed: set<nat>) {
    forall e <- s.entries :: s.entries[e].location == location ==> e in doomed
  }

  lemma ReferencedAfterDetaching(s: State, location: nat, doomed: set<nat>)
    ensures Referenced(DetachEntries(s, location, doomed), location) <==> !AllDetached(s, location, doomed)
  {
    var t := DetachEntries(s, location, doomed);
    if !AllDetached(s, location, doomed) {
      var e :| e in s.entries && s.entries[e].location == location && e !in doomed;
      assert e in t.entries && t.entries[e].location == location;
    }
  }

  lemma FenceIsExact(s: State, c: Config, location: nat)
    requires location in s.locations && !Referenced(s, location)
    ensures var t := Fence(s, c, location);
            if MayGo(s, c, location) then
              location !in t.locations && Place(s.locations[location].folder, Root) in t.tasks.Values
            else
              location in t.locations && t.locations[location].deletionRequestedAt.Some?
  {
    var t := MarkDeleted(s, location);
    RetiresExactlyWhenDue(s, c, location);
    if MayGo(s, c, location) {
      assert Fence(s, c, location).tasks[t.next] == Place(s.locations[location].folder, Root);
    }
  }

  /** Detaching entries fences the location exactly when none is left, and
      deletes it, queueing its folder, exactly when it may go as well. */
  lemma DetachingIsExact(s: State, c: Config, location: nat, doomed: set<nat>)
    requires location in s.locations
    ensures var t := Next(s, c, DetachAndFence(location, doomed));
            if !AllDetached(s, location, doomed) then t.locations == s.locations && t.tasks == s.tasks
            else if MayGo(s, c, location) then
              location !in t.locations && Place(s.locations[location].folder, Root) in t.tasks.Values
            else
              location in t.locations && t.locations[location].deletionRequestedAt.Some?
  {
    ReferencedAfterDetaching(s, location, doomed);
    if AllDetached(s, location, doomed) {
      FenceIsExact(DetachEntries(s, location, doomed), c, location);
    }
  }

  lemma SettleFrame(s: State, c: Config, entry: Option<nat>, tuple: Tuple, location: nat)
    requires entry.Some? ==> entry.value in s.entries
    ensures var t := Settle(s, c, entry, tuple, location);
            && t.now == s.now && s.next <= t.next && t.finalizers == s.finalizers
            && t.uploads == s.uploads && s.owner.Keys <= t.owner.Keys
            && (forall l <- s.leases :: s.leases[l].expiresAt > s.now ==> l in t.leases && t.leases[l] == s.leases[l])
            && (forall l <- s.locations :: l in t.locations || MayGo(s, c, l))
  {
    if entry.Some? {
      FenceFrame(PointEntry(s, entry.value, tuple, location), c, s.entries[entry.value].location);
    }
  }

  lemma FinalizeFrame(s: State, c: Config, id: nat)
    requires IdsAreDrawn(s) && CanFinalize(s, id)
    ensures var t := Finalize(s, c, id);
            && t.now == s.now && s.next <= t.next && t.finalizers == s.finalizers
            && t.uploads == s.uploads - {s.finalizers[id].folder}
            && s.owner.Keys + {s.finalizers[id].folder} <= t.owner.Keys
            && (forall l <- s.leases :: s.leases[l].expiresAt > s.now ==> l in t.leases && t.leases[l] == s.leases[l])
            && (forall l <- s.locations :: l in t.locations || MayGo(s, c, l))
  {
    var f := s.finalizers[id];
    SettleFrame(Promote(s, f.folder, SizesFound(f)), c, TheEntry(s, f.tuple), f.tuple, s.next);
  }

  lemma OverStaysOver(s: State, c: Config, step: Step, folder: Folder)
    requires Inv(s, c) && Possible(s, c, step) && Over(s, folder)
    ensures Over(Next(s, c, step), folder)
  {
    if step.CompleteUpload? {
      FinalizeFrame(s, c, step.finalizer);
    } else if step.DetachAndFence? {
      FenceFrame(DetachEntries(s, step.location, step.doomed), c, step.location);
    } else {
      OthersAreMild(s, c, step);
    }
  }

  lemma EndingIsOver(s: State, c: Config, step: Step, folder: Folder)
    requires Inv(s, c) && Possible(s, c, step) && Ends(s, step, folder)
    ensures !Over(s, folder) && Over(Next(s, c, step), folder)
  {
    if step.CompleteUpload? {
      FinalizeFrame(s, c, step.finalizer);
    } else {
      OthersAreMild(s, c, step);
    }
  }

  predicate Other(step: Step) {
    !step.CompleteUpload? && !step.DetachAndFence?
  }

  /** Steps that touch a lease. */
  predicate Leases(step: Step) {
    step.AcquireReader? || step.RenewReader? || step.ReleaseReader? || step.PurgeExpiredReaders? || step.ClaimPartsDeletion?
  }

  /** No row of a location goes, and no upload begins in a folder that is known. */
  ghost predicate Mild(s: State, t: State, step: Step) {
    && s.now <= t.now && s.next <= t.next && s.locations.Keys <= t.locations.Keys && s.owner.Keys <= t.owner.Keys
    && (forall f <- t.uploads :: f in s.uploads || f !in s.owner)
    && (step.DeleteUpload? || step.DeleteIfInactive? ==> step.folder !in t.uploads && step.folder in t.owner)
    && (!Leases(step) ==> t.leases == s.leases)
    && (!step.BeginInspection? && !step.SizePart? ==> t.finalizers == s.finalizers)
  }

  lemma UploadsAreMild(s: State, c: Config, step: Step)
    requires Uploads(step) && Possible(s, c, step)
    ensures Mild(s, Next(s, c, step), step)
  {
  }

  lemma HandsAreMild(s: State, c: Config, step: Step)
    requires Hands(step) && !step.CompleteUpload? && Possible(s, c, step)
    ensures Mild(s, Next(s, c, step), step)
  {
  }

  lemma StoresAreMild(s: State, c: Config, step: Step)
    requires Stores(step) && Possible(s, c, step)
    ensures Mild(s, Next(s, c, step), step)
  {
  }

  lemma LookingIsMild(s: State, c: Config, entry: nat, direct: bool)
    requires Possible(s, c, ReadLocation(entry, direct))
    ensures Mild(s, Next(s, c, ReadLocation(entry, direct)), ReadLocation(entry, direct))
  {
  }

  lemma ReadsAreMild(s: State, c: Config, step: Step)
    requires Reads(step) && Possible(s, c, step)
    ensures Mild(s, Next(s, c, step), step)
  {
  }

  lemma ManagesAreMild(s: State, c: Config, step: Step)
    requires Manages(step) && Possible(s, c, step)
    ensures Mild(s, Next(s, c, step), step)
  {
  }

  lemma MergesAreMild(s: State, c: Config, step: Step)
    requires Merge(step) && Possible(s, c, step)
    ensures Mild(s, Next(s, c, step), step)
  {
  }

  lemma OthersAreMild(s: State, c: Config, step: Step)
    requires Other(step) && Possible(s, c, step)
    ensures Mild(s, Next(s, c, step), step)
  {
    if Uploads(step) {
      UploadsAreMild(s, c, step);
    } else if Hands(step) {
      HandsAreMild(s, c, step);
    } else if Stores(step) {
      StoresAreMild(s, c, step);
    } else if step.ReadLocation? {
      LookingIsMild(s, c, step.entry, step.direct);
    } else if Reads(step) {
      ReadsAreMild(s, c, step);
    } else if Manages(step) {
      ManagesAreMild(s, c, step);
    } else {
      MergesAreMild(s, c, step);
    }
  }

  /** Finalization, the deletion of an invalid upload and idle deletion exclude
      each other: over any run one upload ends at most once. */
  lemma {:induction false} UploadsEndOnce(s: State, c: Config, steps: seq<Step>, folder: Folder)
    requires Inv(s, c)
    ensures Endings(s, c, steps, folder) <= 1
    ensures Over(s, folder) ==> Endings(s, c, steps, folder) == 0
    decreases |steps|
  {
    if steps != [] && Possible(s, c, steps[0]) {
      if Ends(s, steps[0], folder) {
        EndingIsOver(s, c, steps[0], folder);
      }
      if Over(s, folder) {
        OverStaysOver(s, c, steps[0], folder);
      }
      StepKeepsInv(s, c, steps[0]);
      UploadsEndOnce(Next(s, c, steps[0]), c, steps[1..], folder);
    }
  }

  // What that means for readers.

  /** Everything a reader with this lease may still open is in storage. */
  ghost predicate Protected(s: State, lease: Lease) {
    && lease.location in s.locations
    && var l := s.locations[lease.location];
       match lease.scope
       case Storage => Object(l.folder, Merged) in s.objects
       case PartsScope => HasParts(s.objects, l.folder, l.partCount)
  }

  lemma LeasesProtect(s: State, c: Config, id: nat)
    requires Inv(s, c) && id in s.leases
    ensures Protected(s, s.leases[id])
  {
  }

  predicate Leaves(step: Step, id: nat) {
    (step.ReleaseReader? && step.lease == id) || (step.RenewReader? && step.lease == id)
  }

  lemma OthersKeepLease(s: State, c: Config, step: Step, id: nat)
    requires Other(step) && Possible(s, c, step)
    requires id in s.leases && id < s.next && !Leaves(step, id) && s.now < s.leases[id].expiresAt
    ensures var t := Next(s, c, step); id in t.leases && t.leases[id] == s.leases[id]
  {
    if !Leases(step) {
      OthersAreMild(s, c, step);
    }
  }

  lemma LeaseStays(s: State, c: Config, step: Step, id: nat)
    requires Inv(s, c) && Possible(s, c, step) && id in s.leases && !Leaves(step, id) && s.now < s.leases[id].expiresAt
    ensures var t := Next(s, c, step); id in t.leases && t.leases[id] == s.leases[id]
  {
    if step.CompleteUpload? {
      FinalizeFrame(s, c, step.finalizer);
    } else if step.DetachAndFence? {
      FenceFrame(DetachEntries(s, step.location, step.doomed), c, step.location);
    } else {
      OthersKeepLease(s, c, step, id);
    }
  }

  lemma ClockRuns(s: State, c: Config, step: Step)
    requires Inv(s, c) && Possible(s, c, step)
    ensures Next(s, c, step).now >= s.now && Next(s, c, step).next >= s.next
  {
    if step.CompleteUpload? {
      FinalizeFrame(s, c, step.finalizer);
    } else if step.DetachAndFence? {
      FenceFrame(DetachEntries(s, step.location, step.doomed), c, step.location);
    } else {
      OthersAreMild(s, c, step);
    }
  }

  lemma {:induction false} TimePasses(s: State, c: Config, steps: seq<Step>)
    requires Inv(s, c)
    ensures Run(s, c, steps).Some? ==> Run(s, c, steps).value.now >= s.now
    decreases |steps|
  {
    if steps != [] && Possible(s, c, steps[0]) {
      ClockRuns(s, c, steps[0]);
      StepKeepsInv(s, c, steps[0]);
      TimePasses(Next(s, c, steps[0]), c, steps[1..]);
    }
  }

  /** A lease that is neither released nor renewed keeps what it is for in
      storage until it expires, whatever else happens. */
  lemma {:induction false} ReadersAreSafeUntilExpiry(s: State, c: Config, steps: seq<Step>, id: nat)
    requires Inv(s, c) && id in s.leases && forall step <- steps :: !Leaves(step, id)
    ensures var end := Run(s, c, steps);
            end.Some? && end.value.now < s.leases[id].expiresAt ==>
              id in end.value.leases && end.value.leases[id] == s.leases[id] && Protected(end.value, s.leases[id])
    decreases |steps|
  {
    if steps == [] {
      LeasesProtect(s, c, id);
    } else if Possible(s, c, steps[0]) {
      TimePasses(s, c, steps);
      StepKeepsInv(s, c, steps[0]);
      if s.now < s.leases[id].expiresAt {
        LeaseStays(s, c, steps[0], id);
        ReadersAreSafeUntilExpiry(Next(s, c, steps[0]), c, steps[1..], id);
      }
    }
  }

  /** A location row goes only after it was fenced, the grace period passed,
      nobody holds an unexpired lease on it, and no merge is under way. */
  lemma RowsLeaveAfterGrace(s: State, c: Config, step: Step, location: nat)
    requires IdsAreDrawn(s) && Possible(s, c, step) && c.deletionGrace > 0
    requires location in s.locations && location !in Next(s, c, step).locations
    ensures MayGo(s, c, location) && s.locations[location].deletionRequestedAt.Some?
  {
    if step.CompleteUpload? {
      FinalizeFrame(s, c, step.finalizer);
    } else if step.DetachAndFence? {
      FenceFrame(DetachEntries(s, step.location, step.doomed), c, step.location);
    } else {
      OthersAreMild(s, c, step);
    }
  }
}
