/** Who owns a storage folder, over every interleaving of uploads, finalization,
    readers, materialization, eviction and deletion (internal/cache/service.go,
    internal/uploadsession/session.go, internal/storagelifecycle/service.go,
    internal/cleanup/orphaned_storage.go, internal/storageoutbox/outbox.go).

    Every database transaction is one step; storage writes, deletions and the
    clock move between them. A reader's acquisition is two steps, because its
    transaction does not always lock the row it has read. An inspection takes the
    size of one part at a time, a merge copies one part at a time before its
    object lands, and a deletion removes one object at a time. Folders are named
    by upload ids, which are drawn fresh; the other ids are drawn from a counter. */
module FolderProtocol {
  import opened Int64
  import opened Octets
  import opened Options
  import opened Sequences
  import opened UploadSessions

  type Folder = nat

  datatype Tuple = Tuple(key: string, version: string, scope: string, repoID: string)

  datatype Name = Merged | Part(index: nat) | Block(id: string)

  datatype Object = Object(folder: Folder, name: Name)

  type Content = Bytes

  /** A deletion task names a whole folder or one of its two subfolders. */
  datatype Area = Root | Parts | Blocks

  predicate Covers(area: Area, name: Name) {
    match area
    case Root => true
    case Parts => name.Part?
    case Blocks => name.Block?
  }

  datatype Place = Place(folder: Folder, area: Area)

  datatype Upload = Upload(tuple: Tuple, createdAt: int, lastPartAt: Option<int>)

  /** A finalization that has not committed yet, with the sizes it has found. */
  datatype Finalizer = Finalizer(folder: Folder, tuple: Tuple, partCount: nat, sizes: map<nat, int>)

  predicate AllSized(f: Finalizer) {
    forall i :: 0 <= i < f.partCount ==> i in f.sizes
  }

  function SizesFound(f: Finalizer): seq<int> {
    seq(f.partCount, i requires 0 <= i < f.partCount => if i in f.sizes then f.sizes[i] else 0)
  }

  /** `sizes` are the part sizes that the finalization found: the row records
      their sum, and the part index that is cached with it is made from them. */
  datatype Location = Location(
    folder: Folder,
    partCount: nat,
    sizes: seq<int>,
    deletionRequestedAt: Option<int>,
    mergeStartedAt: Option<int>,
    token: Option<nat>,
    tokenExpiresAt: int,
    mergedAt: Option<int>,
    unsupportedAt: Option<int>,
    partsDeletedAt: Option<int>)

  datatype Entry = Entry(tuple: Tuple, location: nat, updatedAt: int)

  datatype Scope = Storage | PartsScope

  datatype Lease = Lease(location: nat, scope: Scope, expiresAt: int)

  /** A reader between reading the location and inserting its lease. */
  datatype Snapshot = Snapshot(location: nat, scope: Scope, locks: bool, direct: bool)

  /** A background merge with the parts it has copied; `done` once it knows that
      the composed object is complete. Its id is the materialization token. */
  datatype Composer = Composer(location: nat, folder: Folder, partCount: nat, copied: map<nat, Content>, done: bool)

  predicate AllCopied(m: Composer) {
    forall i :: 0 <= i < m.partCount ==> i in m.copied
  }

  function CopiedParts(m: Composer): seq<Content> {
    seq(m.partCount, i requires 0 <= i < m.partCount => if i in m.copied then m.copied[i] else [])
  }

  /** Who is answerable for a folder. */
  datatype Owner = Uploading | Stored(location: nat) | Retired

  datatype Config = Config(
    materializationDisabled: bool,
    readerLease: int,
    directLease: int,
    deletionGrace: int,
    materializationLease: int)

  /** `owner`, `queued` and `saved` are history: which folders have appeared and
      whose they are, which places have ever been queued for deletion, and what
      the parts of a location were when it was finalized. */
  datatype State = State(
    now: int,
    next: nat,
    owner: map<Folder, Owner>,
    queued: set<Place>,
    uploads: map<Folder, Upload>,
    finalizers: map<nat, Finalizer>,
    locations: map<nat, Location>,
    entries: map<nat, Entry>,
    leases: map<nat, Lease>,
    acquiring: map<nat, Snapshot>,
    composers: map<nat, Composer>,
    tasks: map<nat, Place>,
    objects: map<Object, Content>,
    saved: map<nat, seq<Content>>)

  function Start(now: int): State {
    State(now, 0, map[], {}, map[], map[], map[], map[], map[], map[], map[], map[], map[], map[])
  }

  // Transactions on uploads.

  function Enqueue(s: State, place: Place): State {
    s.(tasks := s.tasks[s.next := place], next := s.next + 1, queued := s.queued + {place})
  }

  predicate CanCreate(s: State, folder: Folder, tuple: Tuple) {
    folder !in s.owner && forall f <- s.uploads :: s.uploads[f].tuple != tuple
  }

  function Create(s: State, folder: Folder, tuple: Tuple): State {
    s.(uploads := s.uploads[folder := Upload(tuple, s.now, None)], owner := s.owner[folder := Uploading])
  }

  /** The row goes and its whole folder is queued. */
  function DropUpload(s: State, folder: Folder): State {
    Enqueue(s.(uploads := s.uploads - {folder}, owner := s.owner[folder := Retired]), Place(folder, Root))
  }

  predicate HasParts(objects: map<Object, Content>, folder: Folder, count: nat) {
    forall i :: 0 <= i < count ==> Object(folder, Part(i)) in objects
  }

  function PartContents(objects: map<Object, Content>, folder: Folder, count: nat): seq<Content> {
    if count == 0 then []
    else
      var last := Object(folder, Part(count - 1));
      PartContents(objects, folder, count - 1) + [if last in objects then objects[last] else []]
  }

  /** The row becomes a location, and its blocks are queued. */
  function Promote(s: State, folder: Folder, sizes: seq<int>): State {
    var location := Location(folder, |sizes|, sizes, None, None, None, 0, None, None, None);
    Enqueue(s.(locations := s.locations[s.next := location], next := s.next + 1,
               uploads := s.uploads - {folder}, owner := s.owner[folder := Stored(s.next)],
               saved := s.saved[s.next := PartContents(s.objects, folder, |sizes|)]),
            Place(folder, Blocks))
  }

  predicate Matches(s: State, e: nat, tuple: Tuple) {
    e in s.entries && s.entries[e].tuple == tuple
  }

  function PointEntry(s: State, entry: nat, tuple: Tuple, location: nat): State {
    s.(entries := s.entries[entry := Entry(tuple, location, s.now)])
  }

  // Fencing.

  predicate Referenced(s: State, location: nat) {
    exists e <- s.entries :: s.entries[e].location == location
  }

  predicate Read(s: State, location: nat) {
    exists l <- s.leases :: s.leases[l].location == location
  }

  predicate Merging(l: Location, now: int) {
    if l.token.Some? then l.tokenExpiresAt > now
    else l.mergedAt.None? && l.unsupportedAt.None? && l.mergeStartedAt.Some?
         && l.mergeStartedAt.value > now - LEGACY_MATERIALIZATION
  }

  const LEGACY_MATERIALIZATION := 15 * 60 * 1000

  function MarkDeleted(s: State, location: nat): State
    requires location in s.locations
  {
    var l := s.locations[location];
    s.(locations := s.locations[location :=
         l.(deletionRequestedAt := Some(if l.deletionRequestedAt.Some? then l.deletionRequestedAt.value else s.now))],
       leases := map id | id in s.leases && (s.leases[id].location != location || s.leases[id].expiresAt > s.now)
                   :: s.leases[id])
  }

  function Retire(s: State, location: nat): State
    requires location in s.locations
  {
    var folder := s.locations[location].folder;
    Enqueue(s.(locations := s.locations - {location}, owner := s.owner[folder := Retired]), Place(folder, Root))
  }

  /** fenceDetachedLocation: mark, and delete the row once nobody reads or
      merges it and the grace period is over. */
  function Fence(s: State, c: Config, location: nat): State {
    if location !in s.locations || Referenced(s, location) then s
    else
      var t := MarkDeleted(s, location);
      var l := t.locations[location];
      if Read(t, location) || Merging(l, s.now) || s.now < l.deletionRequestedAt.value + c.deletionGrace then t
      else Retire(t, location)
  }

  function DetachEntries(s: State, location: nat, doomed: set<nat>): State {
    s.(entries := map e | e in s.entries && !(e in doomed && s.entries[e].location == location) :: s.entries[e])
  }

  predicate SingleMatch(s: State, tuple: Tuple) {
    forall a <- s.entries, b <- s.entries :: Matches(s, a, tuple) && Matches(s, b, tuple) ==> a == b
  }

  function TheEntry(s: State, tuple: Tuple): (e: Option<nat>)
    requires SingleMatch(s, tuple)
    ensures e.Some? ==> Matches(s, e.value, tuple)
    ensures e.None? ==> forall x <- s.entries :: !Matches(s, x, tuple)
  {
    if exists x <- s.entries :: Matches(s, x, tuple) then
      var x :| x in s.entries && Matches(s, x, tuple); Some(x)
    else None
  }

  /** The entry is made for the new location, or moved to it from its old one. */
  function Settle(s: State, c: Config, entry: Option<nat>, tuple: Tuple, location: nat): State
    requires entry.Some? ==> entry.value in s.entries
  {
    match entry
    case None => PointEntry(s.(next := s.next + 1), s.next, tuple, location)
    case Some(e) => Fence(PointEntry(s, e, tuple, location), c, s.entries[e].location)
  }

  /** completeUploadRecord. It follows an inspection of all the parts that could
      add up their sizes; the lookup of the entry fails when there are several. */
  predicate CanFinalize(s: State, id: nat) {
    && id in s.finalizers && AllSized(s.finalizers[id]) && Sum(SizesFound(s.finalizers[id])) <= MAX_INT64
    && s.finalizers[id].folder in s.uploads
    && SingleMatch(s, s.finalizers[id].tuple)
  }

  function Finalize(s: State, c: Config, id: nat): State
    requires CanFinalize(s, id)
  {
    var f := s.finalizers[id];
    Settle(Promote(s, f.folder, SizesFound(f)), c, TheEntry(s, f.tuple), f.tuple, s.next)
  }

  // Readers.

  function Classify(l: Location, direct: bool): Option<Scope> {
    if l.deletionRequestedAt.Some? then None
    else if l.mergedAt.Some? then Some(Storage)
    else if l.partsDeletedAt.Some? then None
    else if direct && l.partCount != 1 then None
    else Some(PartsScope)
  }

  predicate MayMerge(l: Location, c: Config) {
    !c.materializationDisabled && l.partCount >= 2 && l.unsupportedAt.None?
  }

  predicate CanInsert(s: State, id: nat) {
    && id in s.acquiring && s.acquiring[id].location in s.locations
    && var l := s.locations[s.acquiring[id].location];
       s.acquiring[id].locks ==>
         l.deletionRequestedAt.None? && l.mergedAt.None? && l.partsDeletedAt.None?
  }

  function InsertLease(s: State, c: Config, id: nat): State
    requires CanInsert(s, id)
  {
    var a := s.acquiring[id];
    var expiresAt := s.now + if a.direct then c.directLease else c.readerLease;
    s.(leases := s.leases[s.next := Lease(a.location, a.scope, expiresAt)], next := s.next + 1,
       acquiring := s.acquiring - {id})
  }

  function PurgeExpired(s: State): State {
    s.(leases := map id | id in s.leases && s.leases[id].expiresAt > s.now :: s.leases[id])
  }

  // Parts deletion and materialization.

  predicate CanClaimParts(s: State, location: nat) {
    && location in s.locations
    && var l := s.locations[location];
       && l.deletionRequestedAt.None? && l.mergedAt.Some? && l.partsDeletedAt.None?
       && forall id <- s.leases ::
            s.leases[id].location == location && s.leases[id].scope.PartsScope? ==> s.leases[id].expiresAt <= s.now
  }

  function ClaimParts(s: State, location: nat): State
    requires location in s.locations
  {
    var l := s.locations[location];
    Enqueue(s.(locations := s.locations[location := l.(partsDeletedAt := Some(s.now))],
               leases := map id | id in s.leases
                                  && (s.leases[id].location != location || s.leases[id].scope.Storage? || s.leases[id].expiresAt > s.now)
                           :: s.leases[id]),
            Place(l.folder, Parts))
  }

  predicate CanMaterialize(s: State, c: Config, location: nat) {
    && !c.materializationDisabled && location in s.locations
    && var l := s.locations[location];
       && l.deletionRequestedAt.None? && l.partCount >= 2 && l.mergedAt.None?
       && l.unsupportedAt.None? && l.partsDeletedAt.None? && !Merging(l, s.now)
  }

  function Materialize(s: State, c: Config, location: nat): State
    requires location in s.locations
  {
    var l := s.locations[location];
    s.(locations := s.locations[location :=
         l.(mergeStartedAt := Some(s.now), token := Some(s.next), tokenExpiresAt := s.now + c.materializationLease)],
       composers := s.composers[s.next := Composer(location, l.folder, l.partCount, map[], false)],
       next := s.next + 1)
  }

  /** The location still holds this token; `live` adds that it has not expired. */
  predicate Holds(s: State, token: nat, live: bool) {
    && token in s.composers && s.composers[token].location in s.locations
    && var l := s.locations[s.composers[token].location];
       l.token == Some(token) && l.mergedAt.None? && (live ==> l.tokenExpiresAt > s.now)
  }

  function UpdateLocation(s: State, location: nat, l: Location): State {
    s.(locations := s.locations[location := l])
  }

  function Copied(s: State, token: nat, index: nat): State
    requires token in s.composers && Object(s.composers[token].folder, Part(index)) in s.objects
  {
    var m := s.composers[token];
    s.(composers := s.composers[token := m.(copied := m.copied[index := s.objects[Object(m.folder, Part(index))]])])
  }

  /** The object is complete in storage, whether or not the merge learns of it. */
  function Composed(s: State, token: nat, answered: bool): State
    requires token in s.composers
  {
    var m := s.composers[token];
    s.(composers := s.composers[token := m.(done := m.done || answered)],
       objects := s.objects[Object(m.folder, Merged) := Flatten(CopiedParts(m))])
  }

  function Sized(s: State, id: nat, index: nat): State
    requires id in s.finalizers && Object(s.finalizers[id].folder, Part(index)) in s.objects
  {
    var f := s.finalizers[id];
    s.(finalizers := s.finalizers[id := f.(sizes := f.sizes[index := |s.objects[Object(f.folder, Part(index))]|])])
  }

  datatype Step =
    | Wait(time: nat)
    | CreateUpload(folder: Folder, tuple: Tuple)
    | WriteObject(obj: Object, content: Content)
    | TouchUpload(folder: Folder)
    | BeginInspection(folder: Folder, partCount: nat)
    | SizePart(finalizer: nat, index: nat)
    | CompleteUpload(finalizer: nat)
    | DeleteUpload(folder: Folder)
    | DeleteIfInactive(folder: Folder, cutoff: int)
    | ClaimOrphan(folder: Folder)
    | DeleteObject(area: Area, obj: Object)
    | CompleteDeletion(task: nat)
    | DetachAndFence(location: nat, doomed: set<nat>)
    | ReadLocation(entry: nat, direct: bool)
    | AcquireReader(reader: nat)
    | RenewReader(lease: nat, direct: bool)
    | ReleaseReader(lease: nat)
    | PurgeExpiredReaders
    | ClaimPartsDeletion(location: nat)
    | AcquireMaterialization(location: nat)
    | CopyPart(token: nat, index: nat)
    | LandMerge(token: nat, answered: bool)
    | RenewMaterialization(token: nat)
    | FinishMaterialization(token: nat)
    | MarkUnsupported(token: nat)
    | ReleaseMaterialization(token: nat)

  predicate Possible(s: State, c: Config, step: Step) {
    match step
    case Wait(_) => true
    case CreateUpload(folder, tuple) => CanCreate(s, folder, tuple)
    case WriteObject(obj, _) => obj.folder in s.owner && !obj.name.Merged?
    case TouchUpload(folder) => folder in s.uploads
    case BeginInspection(folder, partCount) => folder in s.uploads && partCount >= 1
    case SizePart(id, index) =>
      && id in s.finalizers && index < s.finalizers[id].partCount && index !in s.finalizers[id].sizes
      && Object(s.finalizers[id].folder, Part(index)) in s.objects
    case CompleteUpload(id) => CanFinalize(s, id)
    case DeleteUpload(folder) => folder in s.uploads
    case DeleteIfInactive(folder, cutoff) =>
      folder in s.uploads && Inactive(s.uploads[folder].createdAt, s.uploads[folder].lastPartAt, cutoff)
    case ClaimOrphan(folder) =>
      && folder !in s.uploads
      && (forall l <- s.locations :: s.locations[l].folder != folder)
      && (forall t <- s.tasks :: s.tasks[t].folder != folder)
    // A processor may still be deleting when another one has removed the task.
    case DeleteObject(area, obj) => Place(obj.folder, area) in s.queued && Covers(area, obj.name)
    case CompleteDeletion(task) => task in s.tasks
    case DetachAndFence(_, _) => true
    case ReadLocation(entry, direct) =>
      && entry in s.entries && s.entries[entry].location in s.locations
      && Classify(s.locations[s.entries[entry].location], direct).Some?
    case AcquireReader(reader) => CanInsert(s, reader)
    case RenewReader(lease, _) => lease in s.leases && s.leases[lease].expiresAt > s.now
    case ReleaseReader(_) => true
    case PurgeExpiredReaders => true
    case ClaimPartsDeletion(location) => CanClaimParts(s, location)
    case AcquireMaterialization(location) => CanMaterialize(s, c, location)
    case CopyPart(token, index) =>
      && token in s.composers && index < s.composers[token].partCount
      && Object(s.composers[token].folder, Part(index)) in s.objects
    case LandMerge(token, _) => token in s.composers && AllCopied(s.composers[token])
    case RenewMaterialization(token) => Holds(s, token, true)
    case FinishMaterialization(token) => Holds(s, token, true) && s.composers[token].done
    case MarkUnsupported(token) => Holds(s, token, true)
    case ReleaseMaterialization(token) => Holds(s, token, false)
  }

  function Next(s: State, c: Config, step: Step): State
    requires Possible(s, c, step)
  {
    match step
    case Wait(time) => s.(now := s.now + time)
    case CreateUpload(folder, tuple) => Create(s, folder, tuple)
    case WriteObject(obj, content) => s.(objects := s.objects[obj := content])
    case TouchUpload(folder) => s.(uploads := s.uploads[folder := s.uploads[folder].(lastPartAt := Some(s.now))])
    case BeginInspection(folder, partCount) =>
      s.(finalizers := s.finalizers[s.next := Finalizer(folder, s.uploads[folder].tuple, partCount, map[])], next := s.next + 1)
    case SizePart(id, index) => Sized(s, id, index)
    case CompleteUpload(id) => Finalize(s, c, id)
    case DeleteUpload(folder) => DropUpload(s, folder)
    case DeleteIfInactive(folder, _) => DropUpload(s, folder)
    case ClaimOrphan(folder) => Enqueue(s.(owner := s.owner[folder := Retired]), Place(folder, Root))
    case DeleteObject(_, obj) => s.(objects := s.objects - {obj})
    case CompleteDeletion(task) => s.(tasks := s.tasks - {task})
    case DetachAndFence(location, doomed) => Fence(DetachEntries(s, location, doomed), c, location)
    case ReadLocation(entry, direct) =>
      var location := s.entries[entry].location;
      var l := s.locations[location];
      var scope := Classify(l, direct).value;
      s.(acquiring := s.acquiring[s.next := Snapshot(location, scope, scope.PartsScope? && MayMerge(l, c), direct)],
         next := s.next + 1)
    case AcquireReader(reader) => InsertLease(s, c, reader)
    case RenewReader(lease, direct) =>
      s.(leases := s.leases[lease := s.leases[lease].(expiresAt := s.now + if direct then c.directLease else c.readerLease)])
    case ReleaseReader(lease) => s.(leases := s.leases - {lease})
    case PurgeExpiredReaders => PurgeExpired(s)
    case ClaimPartsDeletion(location) => ClaimParts(s, location)
    case AcquireMaterialization(location) => Materialize(s, c, location)
    case CopyPart(token, index) => Copied(s, token, index)
    case LandMerge(token, answered) => Composed(s, token, answered)
    case RenewMaterialization(token) =>
      var location := s.composers[token].location;
      UpdateLocation(s, location, s.locations[location].(tokenExpiresAt := s.now + c.materializationLease))
    case FinishMaterialization(token) =>
      var location := s.composers[token].location;
      UpdateLocation(s, location, s.locations[location].(mergedAt := Some(s.now), token := None))
    case MarkUnsupported(token) =>
      var location := s.composers[token].location;
      UpdateLocation(s, location,
                     s.locations[location].(unsupportedAt := Some(s.now), mergeStartedAt := None, token := None))
    case ReleaseMaterialization(token) =>
      var location := s.composers[token].location;
      UpdateLocation(s, location, s.locations[location].(mergeStartedAt := None, token := None))
  }
}
