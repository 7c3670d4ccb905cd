/** That the folder protocol gets its work done: from every state it can save an
    upload, serve it, merge it, remove its parts and evict it. */
module FolderProgress {
  import opened FolderContents
  import opened FolderEffects
  import opened FolderLifecycles
  import opened FolderOwnership
  import opened FolderProtocol
  import opened FolderSizes
  import opened Int64
  import opened Octets
  import opened Options
  import opened Sequences
  import opened UploadSessions

  lemma {:induction false} RunAppend(s: State, c: Config, a: seq<Step>, b: seq<Step>)
    ensures Run(s, c, a + b) == if Run(s, c, a).Some? then Run(Run(s, c, a).value, c, b) else None
    decreases |a|
  {
    if a == [] {
      assert a + b == b;
    } else {
      assert (a + b)[1..] == a[1..] + b;
      if Possible(s, c, a[0]) {
        RunAppend(Next(s, c, a[0]), c, a[1..], b);
      }
    }
  }

  lemma RunOne(s: State, c: Config, step: Step)
    requires Possible(s, c, step)
    ensures Run(s, c, [step]) == Some(Next(s, c, step))
  {
  }

  /** One more step. */
  lemma RunSnoc(s: State, c: Config, steps: seq<Step>, t: State, step: Step)
    requires Run(s, c, steps) == Some(t) && Possible(t, c, step)
    ensures Run(s, c, steps + [step]) == Some(Next(t, c, step))
  {
    RunAppend(s, c, steps, [step]);
    RunOne(t, c, step);
  }

  lemma UpdatedTwice<K, V>(m: map<K, V>, k: K, first: V, second: V)
    ensures m[k := first][k := second] == m[k := second]
  {
  }

  // Saving an upload.

  function Writes(folder: Folder, parts: seq<Content>): seq<Step> {
    if parts == [] then []
    else
      var last := |parts| - 1;
      Writes(folder, parts[..last]) + [WriteObject(Object(folder, Part(last)), parts[last])]
  }

  function WithParts(objects: map<Object, Content>, folder: Folder, parts: seq<Content>): map<Object, Content> {
    if parts == [] then objects
    else
      var last := |parts| - 1;
      WithParts(objects, folder, parts[..last])[Object(folder, Part(last)) := parts[last]]
  }

  lemma {:induction false} WritesRun(s: State, c: Config, folder: Folder, parts: seq<Content>)
    requires folder in s.owner
    ensures Run(s, c, Writes(folder, parts)) == Some(s.(objects := WithParts(s.objects, folder, parts)))
    decreases |parts|
  {
    if parts == [] {
      assert s == s.(objects := s.objects);
    } else {
      var last := |parts| - 1;
      var t := s.(objects := WithParts(s.objects, folder, parts[..last]));
      WritesRun(s, c, folder, parts[..last]);
      RunSnoc(s, c, Writes(folder, parts[..last]), t, WriteObject(Object(folder, Part(last)), parts[last]));
    }
  }

  lemma {:induction false} WithPartsAt(objects: map<Object, Content>, folder: Folder, parts: seq<Content>)
    ensures var written := WithParts(objects, folder, parts);
            forall i :: 0 <= i < |parts| ==>
              Object(folder, Part(i)) in written && written[Object(folder, Part(i))] == parts[i]
    decreases |parts|
  {
    if parts != [] {
      WithPartsAt(objects, folder, parts[..|parts| - 1]);
    }
  }

  lemma WrittenContents(objects: map<Object, Content>, folder: Folder, parts: seq<Content>)
    ensures HasParts(WithParts(objects, folder, parts), folder, |parts|)
    ensures PartContents(WithParts(objects, folder, parts), folder, |parts|) == parts
  {
    WithPartsAt(objects, folder, parts);
    PartContentsAt(WithParts(objects, folder, parts), folder, |parts|);
  }

  function Sizings(id: nat, count: nat): seq<Step> {
    if count == 0 then [] else Sizings(id, count - 1) + [SizePart(id, count - 1)]
  }

  function Measured(parts: seq<Content>, count: nat): map<nat, int>
    requires count <= |parts|
  {
    map i | 0 <= i < count :: |parts[i]|
  }

  lemma SizingStep(s: State, c: Config, id: nat, f: Finalizer, parts: seq<Content>, count: nat)
    requires count < |parts| == f.partCount && f.sizes == map[]
    requires Object(f.folder, Part(count)) in s.objects && s.objects[Object(f.folder, Part(count))] == parts[count]
    ensures var t := s.(finalizers := s.finalizers[id := f.(sizes := Measured(parts, count))]);
            && Possible(t, c, SizePart(id, count))
            && Next(t, c, SizePart(id, count)) == s.(finalizers := s.finalizers[id := f.(sizes := Measured(parts, count + 1))])
  {
    var t := s.(finalizers := s.finalizers[id := f.(sizes := Measured(parts, count))]);
    assert Measured(parts, count)[count := |parts[count]|] == Measured(parts, count + 1);
    UpdatedTwice(s.finalizers, id, f.(sizes := Measured(parts, count)), f.(sizes := Measured(parts, count + 1)));
  }

  lemma {:induction false} SizingsRun(s: State, c: Config, id: nat, f: Finalizer, parts: seq<Content>, count: nat)
    requires id in s.finalizers && s.finalizers[id] == f && f.partCount == |parts| && f.sizes == map[] && count <= |parts|
    requires forall i :: 0 <= i < |parts| ==>
               Object(f.folder, Part(i)) in s.objects && s.objects[Object(f.folder, Part(i))] == parts[i]
    ensures Run(s, c, Sizings(id, count)) == Some(s.(finalizers := s.finalizers[id := f.(sizes := Measured(parts, count))]))
  {
    if count == 0 {
      assert Measured(parts, 0) == map[];
      assert s.finalizers[id := f.(sizes := map[])] == s.finalizers;
    } else {
      SizingsRun(s, c, id, f, parts, count - 1);
      var t := s.(finalizers := s.finalizers[id := f.(sizes := Measured(parts, count - 1))]);
      SizingStep(s, c, id, f, parts, count - 1);
      RunSnoc(s, c, Sizings(id, count - 1), t, SizePart(id, count - 1));
    }
  }

  /** An upload of these parts under a new folder, from its creation to the
      inspection of its last part; `id` is the next id of the counter. */
  function Preparing(folder: Folder, tuple: Tuple, parts: seq<Content>, id: nat): seq<Step> {
    ([CreateUpload(folder, tuple)] + Writes(folder, parts)) + ([BeginInspection(folder, |parts|)] + Sizings(id, |parts|))
  }

  function Prepared(s: State, folder: Folder, tuple: Tuple, parts: seq<Content>): State {
    Create(s, folder, tuple).(
      objects := WithParts(s.objects, folder, parts), next := s.next + 1,
      finalizers := s.finalizers[s.next := Finalizer(folder, tuple, |parts|, Measured(parts, |parts|))])
  }

  function Written(s: State, folder: Folder, tuple: Tuple, parts: seq<Content>): State {
    Create(s, folder, tuple).(objects := WithParts(s.objects, folder, parts))
  }

  lemma WritingRuns(s: State, c: Config, folder: Folder, tuple: Tuple, parts: seq<Content>)
    requires CanCreate(s, folder, tuple)
    ensures Run(s, c, [CreateUpload(folder, tuple)] + Writes(folder, parts)) == Some(Written(s, folder, tuple, parts))
  {
    RunOne(s, c, CreateUpload(folder, tuple));
    WritesRun(Create(s, folder, tuple), c, folder, parts);
    RunAppend(s, c, [CreateUpload(folder, tuple)], Writes(folder, parts));
  }

  function Begun(s: State, folder: Folder, tuple: Tuple, parts: seq<Content>): State {
    Written(s, folder, tuple, parts).(
      finalizers := s.finalizers[s.next := Finalizer(folder, tuple, |parts|, map[])], next := s.next + 1)
  }

  lemma BeginningRuns(s: State, c: Config, folder: Folder, tuple: Tuple, parts: seq<Content>)
    requires parts != []
    ensures Run(Written(s, folder, tuple, parts), c, [BeginInspection(folder, |parts|)]) == Some(Begun(s, folder, tuple, parts))
  {
    RunOne(Written(s, folder, tuple, parts), c, BeginInspection(folder, |parts|));
  }

  lemma SizingRuns(s: State, c: Config, folder: Folder, tuple: Tuple, parts: seq<Content>)
    ensures Run(Begun(s, folder, tuple, parts), c, Sizings(s.next, |parts|)) == Some(Prepared(s, folder, tuple, parts))
  {
    var f := Finalizer(folder, tuple, |parts|, map[]);
    WithPartsAt(s.objects, folder, parts);
    SizingsRun(Begun(s, folder, tuple, parts), c, s.next, f, parts, |parts|);
    UpdatedTwice(s.finalizers, s.next, f, f.(sizes := Measured(parts, |parts|)));
  }

  lemma InspectingRuns(s: State, c: Config, folder: Folder, tuple: Tuple, parts: seq<Content>)
    requires parts != []
    ensures Run(Written(s, folder, tuple, parts), c, [BeginInspection(folder, |parts|)] + Sizings(s.next, |parts|))
         == Some(Prepared(s, folder, tuple, parts))
  {
    BeginningRuns(s, c, folder, tuple, parts);
    SizingRuns(s, c, folder, tuple, parts);
    RunAppend(Written(s, folder, tuple, parts), c, [BeginInspection(folder, |parts|)], Sizings(s.next, |parts|));
  }

  lemma PreparingRuns(s: State, c: Config, folder: Folder, tuple: Tuple, parts: seq<Content>)
    requires CanCreate(s, folder, tuple) && parts != []
    ensures Run(s, c, Preparing(folder, tuple, parts, s.next)) == Some(Prepared(s, folder, tuple, parts))
  {
    WritingRuns(s, c, folder, tuple, parts);
    InspectingRuns(s, c, folder, tuple, parts);
    RunAppend(s, c, [CreateUpload(folder, tuple)] + Writes(folder, parts),
              [BeginInspection(folder, |parts|)] + Sizings(s.next, |parts|));
  }

  /** What saving an upload comes to: a row for the new folder, with the sizes
      and the contents of the parts, and an entry of the tuple that leads to it. */
  ghost predicate Saves(s: State, t: State, folder: Folder, tuple: Tuple, parts: seq<Content>, location: nat) {
    && location in t.locations && location in t.saved
    && t.locations[location] == Location(folder, |parts|, Lengths(parts), None, None, None, 0, None, None, None)
    && t.saved[location] == parts && PartContents(t.objects, folder, |parts|) == parts
    && LeadsTo(s, t.entries, tuple, location)
    && folder !in t.uploads && t.now == s.now
  }

  lemma MeasuredSizes(f: Finalizer, parts: seq<Content>)
    requires f.partCount == |parts| && f.sizes == Measured(parts, |parts|)
    ensures AllSized(f) && SizesFound(f) == Lengths(parts)
  {
  }

  /** Before the commit. */
  ghost predicate Ready(s: State, t: State, folder: Folder, tuple: Tuple, parts: seq<Content>, id: nat) {
    && t.entries == s.entries && t.now == s.now && folder in t.uploads
    && id in t.finalizers && t.finalizers[id] == Finalizer(folder, tuple, |parts|, Measured(parts, |parts|))
    && PartContents(t.objects, folder, |parts|) == parts
  }

  lemma PreparedIsReady(s: State, folder: Folder, tuple: Tuple, parts: seq<Content>)
    ensures Ready(s, Prepared(s, folder, tuple, parts), folder, tuple, parts, s.next)
    ensures Prepared(s, folder, tuple, parts).next == s.next + 1
  {
    WrittenContents(s.objects, folder, parts);
  }

  lemma ReadyCanFinalize(s: State, t: State, folder: Folder, tuple: Tuple, parts: seq<Content>, id: nat)
    requires Ready(s, t, folder, tuple, parts, id) && Referring(t.locations, t.entries) && |Flatten(parts)| <= MAX_INT64
    ensures CanFinalize(t, id)
  {
    MeasuredSizes(t.finalizers[id], parts);
    FlattenLength(parts);
  }

  lemma CommitRow(t: State, c: Config, id: nat, parts: seq<Content>)
    requires Inv(t, c) && CanFinalize(t, id)
    requires t.finalizers[id].partCount == |parts| && t.finalizers[id].sizes == Measured(parts, |parts|)
    ensures var u, f := Finalize(t, c, id), t.finalizers[id];
            && t.next in u.locations
            && u.locations[t.next] == Location(f.folder, |parts|, Lengths(parts), None, None, None, 0, None, None, None)
            && LeadsTo(t, u.entries, f.tuple, t.next) && u.uploads == t.uploads - {f.folder}
  {
    MeasuredSizes(t.finalizers[id], parts);
    FinalizeCompletes(t, c, id);
  }

  lemma SameLeads(s: State, t: State, entries: map<nat, Entry>, tuple: Tuple, location: nat)
    requires LeadsTo(t, entries, tuple, location) && t.entries == s.entries && t.now == s.now
    ensures LeadsTo(s, entries, tuple, location)
  {
  }

  lemma CommitSaves(s: State, t: State, c: Config, folder: Folder, tuple: Tuple, parts: seq<Content>, id: nat)
    requires Inv(t, c) && CanFinalize(t, id) && Ready(s, t, folder, tuple, parts, id)
    ensures Saves(s, Finalize(t, c, id), folder, tuple, parts, t.next)
  {
    var u := Finalize(t, c, id);
    CommitRow(t, c, id, parts);
    SameLeads(s, t, u.entries, tuple, t.next);
    FinalizeMakes(t, c, id);
    FinalizeKeepsObjects(t, c, id);
    FinalizeFrame(t, c, id);
  }

  lemma CommitRuns(
    s: State, c: Config, steps: seq<Step>, t: State, folder: Folder, tuple: Tuple, parts: seq<Content>, id: nat)
    requires Inv(s, c) && Run(s, c, steps) == Some(t) && Ready(s, t, folder, tuple, parts, id) && |Flatten(parts)| <= MAX_INT64
    ensures var end := Run(s, c, steps + [CompleteUpload(id)]);
            end.Some? && Inv(end.value, c) && Saves(s, end.value, folder, tuple, parts, t.next)
  {
    EveryRunKeepsInv(s, c, steps);
    ReadyCanFinalize(s, t, folder, tuple, parts, id);
    CommitSaves(s, t, c, folder, tuple, parts, id);
    RunSnoc(s, c, steps, t, CompleteUpload(id));
    EveryRunKeepsInv(s, c, steps + [CompleteUpload(id)]);
  }

  function Saving(folder: Folder, tuple: Tuple, parts: seq<Content>, id: nat): seq<Step> {
    Preparing(folder, tuple, parts, id) + [CompleteUpload(id)]
  }

  /** From every state, any parts can be saved under a new folder for a tuple
      that is not being uploaded, if their sizes can be added up. */
  lemma UploadsCanBeSaved(s: State, c: Config, folder: Folder, tuple: Tuple, parts: seq<Content>)
    requires Inv(s, c) && folder !in s.owner && (forall f <- s.uploads :: s.uploads[f].tuple != tuple)
    requires parts != [] && |Flatten(parts)| <= MAX_INT64
    ensures var end := Run(s, c, Saving(folder, tuple, parts, s.next));
            end.Some? && Inv(end.value, c) && Saves(s, end.value, folder, tuple, parts, s.next + 1)
  {
    PreparingRuns(s, c, folder, tuple, parts);
    PreparedIsReady(s, folder, tuple, parts);
    CommitRuns(s, c, Preparing(folder, tuple, parts, s.next), Prepared(s, folder, tuple, parts), folder, tuple, parts, s.next);
  }

  // Serving readers.

  /** Every entry can be read, whichever form its location is in; a direct
      download needs one object that holds everything. */
  lemma EntriesCanBeLookedUp(s: State, c: Config, entry: nat, direct: bool)
    requires Inv(s, c) && entry in s.entries
    ensures var l := s.locations[s.entries[entry].location];
            Possible(s, c, ReadLocation(entry, direct)) <==> direct ==> l.mergedAt.Some? || l.partCount == 1
  {
    assert Consistent(s.locations[s.entries[entry].location], c);
  }

  function Acquiring(entry: nat, direct: bool, reader: nat): seq<Step> {
    [ReadLocation(entry, direct), AcquireReader(reader)]
  }

  /** A new lease, and nothing else that matters. */
  ghost predicate Acquires(s: State, t: State, lease: nat, l: Lease) {
    && lease in t.leases && t.leases[lease] == l
    && t.locations == s.locations && t.objects == s.objects && t.entries == s.entries && t.saved == s.saved && t.now == s.now
  }

  /** It is the merged object that is read where there is one. */
  function Preferred(l: Location): Scope {
    if l.mergedAt.Some? then Storage else PartsScope
  }

  lemma LookedUp(s: State, c: Config, entry: nat, direct: bool)
    requires Inv(s, c) && Possible(s, c, ReadLocation(entry, direct))
    ensures var t, location := Next(s, c, ReadLocation(entry, direct)), s.entries[entry].location;
            && t.next == s.next + 1 && CanInsert(t, s.next)
            && t.acquiring[s.next].location == location && t.acquiring[s.next].direct == direct
            && t.acquiring[s.next].scope == Preferred(s.locations[location])
  {
    assert Consistent(s.locations[s.entries[entry].location], c);
  }

  lemma Inserted(s: State, c: Config, id: nat)
    requires CanInsert(s, id)
    ensures var a := s.acquiring[id];
            Acquires(s, InsertLease(s, c, id), s.next, Lease(a.location, a.scope, s.now + LeaseLength(c, a.direct)))
  {
  }

  lemma BothRun(s: State, c: Config, one: Step, two: Step)
    requires Possible(s, c, one) && Possible(Next(s, c, one), c, two)
    ensures Run(s, c, [one, two]) == Some(Next(Next(s, c, one), c, two))
  {
    RunOne(s, c, one);
    RunSnoc(s, c, [one], Next(s, c, one), two);
    assert [one] + [two] == [one, two];
  }

  lemma AcquiringRuns(s: State, c: Config, entry: nat, direct: bool)
    requires Inv(s, c) && Possible(s, c, ReadLocation(entry, direct))
    ensures var location := s.entries[entry].location;
            var end := Run(s, c, Acquiring(entry, direct, s.next));
            end.Some? && Acquires(s, end.value, s.next + 1,
                                  Lease(location, Preferred(s.locations[location]), s.now + LeaseLength(c, direct)))
  {
    var t := Next(s, c, ReadLocation(entry, direct));
    LookedUp(s, c, entry, direct);
    LeasingFrame(s, c, ReadLocation(entry, direct));
    Inserted(t, c, s.next);
    BothRun(s, c, ReadLocation(entry, direct), AcquireReader(s.next));
  }

  ghost predicate ServedUntil(t: State, c: Config, steps: seq<Step>, lease: nat, location: nat, expiry: int) {
    var end := Run(t, c, steps);
    end.Some? && end.value.now < expiry ==>
      && lease in end.value.leases && end.value.leases[lease].location == location
      && Protected(end.value, end.value.leases[lease])
  }

  ghost predicate Held(s: State, end: Option<State>, c: Config, entry: nat, direct: bool)
    requires entry in s.entries && s.entries[entry].location in s.locations
  {
    var location := s.entries[entry].location;
    && end.Some? && Inv(end.value, c)
    && Acquires(s, end.value, s.next + 1,
                Lease(location, Preferred(s.locations[location]), s.now + LeaseLength(c, direct)))
  }

  lemma AcquiringHolds(s: State, c: Config, entry: nat, direct: bool)
    requires Inv(s, c) && Possible(s, c, ReadLocation(entry, direct))
    ensures Held(s, Run(s, c, Acquiring(entry, direct, s.next)), c, entry, direct)
  {
    AcquiringRuns(s, c, entry, direct);
    EveryRunKeepsInv(s, c, Acquiring(entry, direct, s.next));
  }

  lemma HeldIsServed(s: State, end: Option<State>, c: Config, entry: nat, direct: bool, steps: seq<Step>)
    requires entry in s.entries && s.entries[entry].location in s.locations && Held(s, end, c, entry, direct)
    requires forall step <- steps :: !Leaves(step, s.next + 1)
    ensures ServedUntil(end.value, c, steps, s.next + 1, s.entries[entry].location, s.now + LeaseLength(c, direct))
  {
    ReadersAreSafeUntilExpiry(end.value, c, steps, s.next + 1);
  }

  /** A reader that looks up an entry and at once asks for its lease gets it, for
      the whole lease time, whatever else happens meanwhile, and until then what
      the lease is for stays in storage. */
  lemma EntriesAreServed(s: State, c: Config, entry: nat, direct: bool, steps: seq<Step>)
    requires Inv(s, c) && Possible(s, c, ReadLocation(entry, direct))
    requires forall step <- steps :: !Leaves(step, s.next + 1)
    ensures var t := Run(s, c, Acquiring(entry, direct, s.next));
            t.Some? && ServedUntil(t.value, c, steps, s.next + 1, s.entries[entry].location, s.now + LeaseLength(c, direct))
  {
    AcquiringHolds(s, c, entry, direct);
    HeldIsServed(s, Run(s, c, Acquiring(entry, direct, s.next)), c, entry, direct, steps);
  }

  /** The run ends with a lease for which the reader gets these bytes. */
  ghost predicate ServesAfter(s: State, c: Config, steps: seq<Step>, lease: nat, bytes: Content) {
    var end := Run(s, c, steps);
    && end.Some? && lease in end.value.leases
    && end.value.leases[lease].location in end.value.locations && Served(end.value, end.value.leases[lease]) == bytes
  }

  lemma SavedIsServed(s: State, t: State, c: Config, folder: Folder, tuple: Tuple, parts: seq<Content>, location: nat, entry: nat)
    requires Inv(t, c) && Saves(s, t, folder, tuple, parts, location)
    requires entry in t.entries && t.entries[entry].location == location
    ensures ServesAfter(t, c, Acquiring(entry, false, t.next), t.next + 1, Flatten(parts))
  {
    EntriesCanBeLookedUp(t, c, entry, false);
    AcquiringRuns(t, c, entry, false);
  }

  /** The tuple has an entry, and whoever looks it up gets these bytes. */
  ghost predicate ServedAs(s: State, c: Config, tuple: Tuple, bytes: Content) {
    && (exists entry <- s.entries :: s.entries[entry].tuple == tuple)
    && (forall entry <- s.entries :: s.entries[entry].tuple == tuple ==>
          ServesAfter(s, c, Acquiring(entry, false, s.next), s.next + 1, bytes))
  }

  lemma SavedIsReadable(s: State, t: State, c: Config, folder: Folder, tuple: Tuple, parts: seq<Content>, location: nat)
    requires Inv(t, c) && Saves(s, t, folder, tuple, parts, location)
    ensures ServedAs(t, c, tuple, Flatten(parts))
  {
    forall entry | entry in t.entries && t.entries[entry].tuple == tuple
      ensures ServesAfter(t, c, Acquiring(entry, false, t.next), t.next + 1, Flatten(parts))
    {
      SavedIsServed(s, t, c, folder, tuple, parts, location, entry);
    }
  }

  /** Whatever is uploaded can be read: from every state, parts saved under a new
      folder come back to the reader of their tuple, byte for byte. */
  lemma WhatIsUploadedIsRead(s: State, c: Config, folder: Folder, tuple: Tuple, parts: seq<Content>)
    requires Inv(s, c) && folder !in s.owner && (forall f <- s.uploads :: s.uploads[f].tuple != tuple)
    requires parts != [] && |Flatten(parts)| <= MAX_INT64
    ensures var end := Run(s, c, Saving(folder, tuple, parts, s.next));
            end.Some? && ServedAs(end.value, c, tuple, Flatten(parts))
  {
    UploadsCanBeSaved(s, c, folder, tuple, parts);
    SavedIsReadable(s, Run(s, c, Saving(folder, tuple, parts, s.next)).value, c, folder, tuple, parts, s.next + 1);
  }

  // Merging.

  function Copyings(token: nat, count: nat): seq<Step> {
    if count == 0 then [] else Copyings(token, count - 1) + [CopyPart(token, count - 1)]
  }

  /** The first parts of a folder. */
  function FirstParts(objects: map<Object, Content>, folder: Folder, count: nat): map<nat, Content>
    requires HasParts(objects, folder, count)
  {
    map i | 0 <= i < count :: objects[Object(folder, Part(i))]
  }

  lemma CopyingStep(s: State, c: Config, token: nat, m: Composer, count: nat)
    requires count < m.partCount && HasParts(s.objects, m.folder, m.partCount)
    ensures var t := s.(composers := s.composers[token := m.(copied := FirstParts(s.objects, m.folder, count))]);
            && Possible(t, c, CopyPart(token, count))
            && Next(t, c, CopyPart(token, count))
            == s.(composers := s.composers[token := m.(copied := FirstParts(s.objects, m.folder, count + 1))])
  {
    var t := s.(composers := s.composers[token := m.(copied := FirstParts(s.objects, m.folder, count))]);
    var content := s.objects[Object(m.folder, Part(count))];
    assert FirstParts(s.objects, m.folder, count)[count := content] == FirstParts(s.objects, m.folder, count + 1);
    UpdatedTwice(s.composers, token, m.(copied := FirstParts(s.objects, m.folder, count)),
                 m.(copied := FirstParts(s.objects, m.folder, count + 1)));
  }

  lemma NothingCopied(s: State, token: nat, m: Composer)
    requires token in s.composers && s.composers[token] == m && m.copied == map[]
    ensures s.(composers := s.composers[token := m.(copied := FirstParts(s.objects, m.folder, 0))]) == s
  {
    assert FirstParts(s.objects, m.folder, 0) == map[];
    assert s.composers[token := m] == s.composers;
  }

  lemma {:induction false} CopyingsRun(s: State, c: Config, token: nat, m: Composer, count: nat)
    requires token in s.composers && s.composers[token] == m && m.copied == map[]
    requires count <= m.partCount && HasParts(s.objects, m.folder, m.partCount)
    ensures Run(s, c, Copyings(token, count))
         == Some(s.(composers := s.composers[token := m.(copied := FirstParts(s.objects, m.folder, count))]))
  {
    if count == 0 {
      NothingCopied(s, token, m);
    } else {
      CopyingsRun(s, c, token, m, count - 1);
      CopyingStep(s, c, token, m, count - 1);
      RunSnoc(s, c, Copyings(token, count - 1),
              s.(composers := s.composers[token := m.(copied := FirstParts(s.objects, m.folder, count - 1))]),
              CopyPart(token, count - 1));
    }
  }

  lemma AllAreCopied(objects: map<Object, Content>, m: Composer)
    requires HasParts(objects, m.folder, m.partCount) && m.copied == FirstParts(objects, m.folder, m.partCount)
    ensures AllCopied(m) && CopiedParts(m) == PartContents(objects, m.folder, m.partCount)
  {
    PartContentsAt(objects, m.folder, m.partCount);
  }

  /** Nobody holds the location: the last merge gave it up, or its lease ran out,
      or it is one from before there were leases and began long ago. */
  predicate Unclaimed(l: Location, now: int) {
    match l.token
    case Some(_) => l.tokenExpiresAt <= now
    case None => l.mergeStartedAt.Some? ==> l.mergeStartedAt.value + 15 * 60 * 1000 <= now
  }

  /** A live location in several parts that storage can merge. */
  predicate Mergeable(l: Location) {
    l.deletionRequestedAt.None? && l.partCount >= 2 && l.mergedAt.None? && l.unsupportedAt.None?
  }

  /** Where merging is enabled, a location can be taken over exactly when it can
      be merged and nobody holds it. */
  lemma MergesBeginExactly(s: State, c: Config, location: nat)
    requires Inv(s, c) && location in s.locations && !c.materializationDisabled
    ensures Possible(s, c, AcquireMaterialization(location))
       <==> Mergeable(s.locations[location]) && Unclaimed(s.locations[location], s.now)
  {
    assert Consistent(s.locations[location], c);
  }

  lemma HoldsExactly(s: State, c: Config, token: nat, live: bool)
    requires Located(s.locations, s.composers, c) && token in s.composers && s.composers[token].location in s.locations
    ensures var l := s.locations[s.composers[token].location];
            Holds(s, token, live) <==> l.token == Some(token) && (live ==> l.tokenExpiresAt > s.now)
  {
    assert Consistent(s.locations[s.composers[token].location], c);
  }

  lemma MergeStepsNeed(s: State, c: Config, token: nat)
    ensures Possible(s, c, RenewMaterialization(token)) <==> Holds(s, token, true)
    ensures Possible(s, c, MarkUnsupported(token)) <==> Holds(s, token, true)
    ensures Possible(s, c, FinishMaterialization(token)) <==> Holds(s, token, true) && s.composers[token].done
    ensures Possible(s, c, ReleaseMaterialization(token)) <==> Holds(s, token, false)
  {
  }

  /** Only who holds an unexpired lease decides over a merge; to give it up the
      lease need not be unexpired, and to finish it the object must be complete. */
  lemma HoldersDecideExactly(s: State, c: Config, token: nat)
    requires Inv(s, c) && token in s.composers && s.composers[token].location in s.locations
    ensures var l := s.locations[s.composers[token].location];
            var live := l.token == Some(token) && l.tokenExpiresAt > s.now;
            && (Possible(s, c, RenewMaterialization(token)) <==> live)
            && (Possible(s, c, MarkUnsupported(token)) <==> live)
            && (Possible(s, c, FinishMaterialization(token)) <==> live && s.composers[token].done)
            && (Possible(s, c, ReleaseMaterialization(token)) <==> l.token == Some(token))
  {
    HoldsExactly(s, c, token, true);
    HoldsExactly(s, c, token, false);
    MergeStepsNeed(s, c, token);
  }

  lemma LandingRuns(s: State, c: Config, token: nat, m: Composer)
    requires token in s.composers && s.composers[token] == m && AllCopied(m)
    ensures Run(s, c, [LandMerge(token, false), LandMerge(token, true)])
         == Some(s.(composers := s.composers[token := m.(done := true)],
                    objects := s.objects[Object(m.folder, Merged) := Flatten(CopiedParts(m))]))
  {
    var bytes := Flatten(CopiedParts(m));
    assert s.composers[token := m.(done := m.done || false)] == s.composers;
    var landed := s.objects[Object(m.folder, Merged) := bytes];
    assert Next(s, c, LandMerge(token, false)) == s.(objects := landed);
    BothRun(s, c, LandMerge(token, false), LandMerge(token, true));
    UpdatedTwice(s.objects, Object(m.folder, Merged), bytes, bytes);
  }

  lemma FinishingRuns(s: State, c: Config, token: nat, location: nat)
    requires Of(s, token, location) && location in s.locations && s.composers[token].done && c.materializationLease > 0
    requires s.locations[location].token == Some(token) && s.locations[location].mergedAt.None?
    requires s.locations[location].tokenExpiresAt > s.now
    ensures Run(s, c, [RenewMaterialization(token), FinishMaterialization(token)])
         == Some(UpdateLocation(s, location, s.locations[location].(
              tokenExpiresAt := s.now + c.materializationLease, mergedAt := Some(s.now), token := None)))
  {
    var renewed := s.locations[location].(tokenExpiresAt := s.now + c.materializationLease);
    var t := UpdateLocation(s, location, renewed);
    assert Next(s, c, RenewMaterialization(token)) == t;
    BothRun(s, c, RenewMaterialization(token), FinishMaterialization(token));
    var merged := renewed.(mergedAt := Some(s.now), token := None);
    UpdatedTwice(s.locations, location, renewed, merged);
  }

  lemma FinishingAfter(s: State, c: Config, steps: seq<Step>, t: State, token: nat, location: nat)
    requires Run(s, c, steps) == Some(t)
    requires Of(t, token, location) && location in t.locations && t.composers[token].done && c.materializationLease > 0
    requires t.locations[location].token == Some(token) && t.locations[location].mergedAt.None?
    requires t.locations[location].tokenExpiresAt > t.now
    ensures Run(s, c, steps + [RenewMaterialization(token), FinishMaterialization(token)])
         == Some(UpdateLocation(t, location, t.locations[location].(
              tokenExpiresAt := t.now + c.materializationLease, mergedAt := Some(t.now), token := None)))
  {
    FinishingRuns(t, c, token, location);
    RunAppend(s, c, steps, [RenewMaterialization(token), FinishMaterialization(token)]);
  }

  function Composing(token: nat, count: nat): seq<Step> {
    Copyings(token, count) + [LandMerge(token, false), LandMerge(token, true)]
  }

  lemma ComposingRuns(s: State, c: Config, token: nat, m: Composer)
    requires token in s.composers && s.composers[token] == m && m.copied == map[]
    requires HasParts(s.objects, m.folder, m.partCount)
    ensures Run(s, c, Composing(token, m.partCount))
         == Some(s.(composers := s.composers[token := m.(copied := FirstParts(s.objects, m.folder, m.partCount), done := true)],
                    objects := s.objects[Object(m.folder, Merged) := Flatten(PartContents(s.objects, m.folder, m.partCount))]))
  {
    var copied := m.(copied := FirstParts(s.objects, m.folder, m.partCount));
    var t := s.(composers := s.composers[token := copied]);
    CopyingsRun(s, c, token, m, m.partCount);
    AllAreCopied(s.objects, copied);
    LandingRuns(t, c, token, copied);
    RunAppend(s, c, Copyings(token, m.partCount), [LandMerge(token, false), LandMerge(token, true)]);
    UpdatedTwice(s.composers, token, copied, copied.(done := true));
  }

  /** A merge from its begin to its end; storage answers at the second attempt. */
  function MergingSteps(location: nat, token: nat, count: nat): seq<Step> {
    [AcquireMaterialization(location)]
    + (Composing(token, count) + [RenewMaterialization(token), FinishMaterialization(token)])
  }

  /** The location is merged and its merged object is all its parts in order;
      nothing else has changed that a reader could see. */
  ghost predicate Merges(s: State, t: State, location: nat)
    requires location in s.locations
  {
    var l := s.locations[location];
    && t.now == s.now && t.entries == s.entries && t.leases == s.leases && t.saved == s.saved && t.tasks == s.tasks
    && t.objects == s.objects[Object(l.folder, Merged) := Flatten(PartContents(s.objects, l.folder, l.partCount))]
    && location in t.locations && SameBut(s.locations, t.locations, location)
    && t.locations[location] == l.(mergedAt := Some(s.now), mergeStartedAt := Some(s.now), token := None,
                                   tokenExpiresAt := t.locations[location].tokenExpiresAt)
  }

  lemma MergingRuns(s: State, c: Config, location: nat)
    requires location in s.locations && CanMaterialize(s, c, location) && c.materializationLease > 0
    requires HasParts(s.objects, s.locations[location].folder, s.locations[location].partCount)
    ensures var end := Run(s, c, MergingSteps(location, s.next, s.locations[location].partCount));
            end.Some? && Merges(s, end.value, location)
  {
    var l, token, t := s.locations[location], s.next, Materialize(s, c, location);
    var rest := Composing(token, l.partCount) + [RenewMaterialization(token), FinishMaterialization(token)];
    RunOne(s, c, AcquireMaterialization(location));
    RunAppend(s, c, [AcquireMaterialization(location)], rest);
    ComposingRuns(t, c, token, t.composers[token]);
    FinishingAfter(t, c, Composing(token, l.partCount), Run(t, c, Composing(token, l.partCount)).value, token, location);
  }

  /** Where merging is enabled, every live location that can be merged and that
      nobody holds can be merged, and then it holds what its parts held. */
  lemma LocationsCanBeMerged(s: State, c: Config, location: nat)
    requires Inv(s, c) && location in s.locations && !c.materializationDisabled && c.materializationLease > 0
    requires Mergeable(s.locations[location]) && Unclaimed(s.locations[location], s.now)
    ensures var end := Run(s, c, MergingSteps(location, s.next, s.locations[location].partCount));
            end.Some? && Merges(s, end.value, location)
  {
    assert Consistent(s.locations[location], c);
    MergesBeginExactly(s, c, location);
    MergingRuns(s, c, location);
  }

  // Deleting.

  predicate In(obj: Object, place: Place) {
    obj.folder == place.folder && Covers(place.area, obj.name)
  }

  function Inside(objects: map<Object, Content>, place: Place): set<Object> {
    set obj <- objects | In(obj, place)
  }

  function Deletions(area: Area, doomed: seq<Object>): seq<Step> {
    if doomed == [] then [] else [DeleteObject(area, doomed[0])] + Deletions(area, doomed[1..])
  }

  lemma {:induction false} DeletionsRun(s: State, c: Config, place: Place, doomed: seq<Object>)
    requires place in s.queued && forall obj <- doomed :: In(obj, place)
    ensures Run(s, c, Deletions(place.area, doomed)) == Some(s.(objects := s.objects - Elements(doomed)))
    decreases |doomed|
  {
    if doomed == [] {
      assert s.objects - Elements(doomed) == s.objects;
    } else {
      var t := s.(objects := s.objects - {doomed[0]});
      assert In(doomed[0], place) && place == Place(doomed[0].folder, place.area);
      assert Next(s, c, DeleteObject(place.area, doomed[0])) == t;
      RunOne(s, c, DeleteObject(place.area, doomed[0]));
      RunAppend(s, c, [DeleteObject(place.area, doomed[0])], Deletions(place.area, doomed[1..]));
      DeletionsRun(t, c, place, doomed[1..]);
      assert t.objects - Elements(doomed[1..]) == s.objects - Elements(doomed);
    }
  }

  lemma {:induction false} SetsCanBeListed<T>(all: set<T>)
    ensures exists list: seq<T> :: Elements(list) == all
    decreases |all|
  {
    if all == {} {
      assert Elements<T>([]) == all;
    } else {
      var x :| x in all;
      SetsCanBeListed(all - {x});
      var list: seq<T> :| Elements(list) == all - {x};
      assert Elements([x] + list) == {x} + Elements(list);
    }
  }

  /** Whatever was queued can be deleted, object by object, and nothing else is
      touched. */
  lemma QueuedPlacesCanBeEmptied(s: State, c: Config, place: Place)
    requires place in s.queued
    ensures exists doomed: seq<Object> ::
              Run(s, c, Deletions(place.area, doomed)) == Some(s.(objects := s.objects - Inside(s.objects, place)))
  {
    SetsCanBeListed(Inside(s.objects, place));
    var doomed: seq<Object> :| Elements(doomed) == Inside(s.objects, place);
    forall obj | obj in doomed
      ensures In(obj, place)
    {
      assert obj in Elements(doomed);
    }
    DeletionsRun(s, c, place, doomed);
  }

  predicate PartsAreIdle(l: Location) {
    l.deletionRequestedAt.None? && l.mergedAt.Some? && l.partsDeletedAt.None?
  }

  predicate PartsAreRead(s: State, location: nat) {
    exists id <- s.leases ::
      Live(s.leases, id, s.now) && s.leases[id].location == location && s.leases[id].scope.PartsScope?
  }

  /** Parts are claimed exactly when the location is live and merged, no claim
      came before, and no unexpired lease is for the parts. */
  lemma PartsAreClaimedExactly(s: State, c: Config, location: nat)
    requires location in s.locations
    ensures Possible(s, c, ClaimPartsDeletion(location)) <==> PartsAreIdle(s.locations[location]) && !PartsAreRead(s, location)
  {
  }

  lemma ClaimedPartsAreQueued(s: State, c: Config, location: nat)
    requires Possible(s, c, ClaimPartsDeletion(location))
    ensures var place := Place(s.locations[location].folder, Parts);
            var t := Next(s, c, ClaimPartsDeletion(location));
            place in t.queued && Tasks(t.tasks, place) && t.objects == s.objects && t.entries == s.entries
  {
    var t := Next(s, c, ClaimPartsDeletion(location));
    assert t.tasks[s.next] == Place(s.locations[location].folder, Parts);
  }

  /** A folder that is in no upload, location or task can be claimed, and is
      queued as a whole. */
  lemma OrphansAreClaimedExactly(s: State, c: Config, folder: Folder)
    ensures Possible(s, c, ClaimOrphan(folder))
       <==> folder !in s.uploads && !IsStored(s, folder) && !exists t <- s.tasks :: s.tasks[t].folder == folder
    ensures Possible(s, c, ClaimOrphan(folder)) ==>
              Place(folder, Root) in Next(s, c, ClaimOrphan(folder)).queued
              && Tasks(Next(s, c, ClaimOrphan(folder)).tasks, Place(folder, Root))
  {
    if Possible(s, c, ClaimOrphan(folder)) {
      assert Next(s, c, ClaimOrphan(folder)).tasks[s.next] == Place(folder, Root);
    }
  }

  // Evicting.

  /** After this time nothing can hold the location back. */
  ghost predicate FreeAt(s: State, c: Config, location: nat, time: int)
    requires location in s.locations
  {
    var l := s.locations[location];
    && time >= (if l.deletionRequestedAt.Some? then l.deletionRequestedAt.value else s.now) + c.deletionGrace
    && (forall id <- s.leases :: s.leases[id].location == location ==> s.leases[id].expiresAt <= time)
    && (if l.token.Some? then l.tokenExpiresAt <= time
        else l.mergedAt.None? && l.unsupportedAt.None? && l.mergeStartedAt.Some? ==>
          l.mergeStartedAt.value + 15 * 60 * 1000 <= time)
  }

  function Evicting(location: nat, entries: set<nat>, time: nat): seq<Step> {
    [DetachAndFence(location, entries), Wait(time)] + [DetachAndFence(location, {})]
  }

  lemma FreeMayGo(s: State, c: Config, location: nat)
    requires location in s.locations
    ensures FreeAt(s, c, location, s.now) <==> MayGo(s, c, location)
  {
  }

  function Fenced(s: State, c: Config, location: nat): State {
    Fence(DetachEntries(s, location, s.entries.Keys), c, location)
  }

  ghost predicate AfterFencing(s: State, u: State, c: Config, location: nat)
    requires location in s.locations
  {
    !Referenced(u, location) && NoMoreLeases(s, u) && u.now == s.now && FencedOrGone(s, u, c, location)
  }

  lemma FirstFencing(s: State, c: Config, location: nat)
    requires location in s.locations
    ensures AfterFencing(s, Fenced(s, c, location), c, location)
  {
    var t := DetachEntries(s, location, s.entries.Keys);
    ReferencedAfterDetaching(s, location, s.entries.Keys);
    FenceHere(t, c, location);
    FenceGrants(t, c, location);
    FenceFrame(t, c, location);
    FenceLeavesEntries(t, c, location);
    assert MayGo(t, c, location) <==> MayGo(s, c, location);
  }

  lemma FenceLeavesEntries(s: State, c: Config, location: nat)
    ensures Fence(s, c, location).entries == s.entries
  {
    if location in s.locations && !Referenced(s, location) {
      RetiresExactlyWhenDue(s, c, location);
    }
  }

  /** Some time after a first fencing that left the row. */
  lemma FreeLater(s: State, w: State, c: Config, location: nat)
    requires location in s.locations && location in w.locations && NoMoreLeases(s, w) && w.now >= s.now
    requires var l := s.locations[location];
             w.locations[location] == l.(deletionRequestedAt :=
               Some(if l.deletionRequestedAt.Some? then l.deletionRequestedAt.value else s.now))
    ensures FreeAt(s, c, location, w.now) <==> MayGo(w, c, location)
  {
    if MayGo(w, c, location) {
      forall id | id in s.leases && s.leases[id].location == location
        ensures s.leases[id].expiresAt <= w.now
      {
        if s.leases[id].expiresAt > s.now {
          assert id in w.leases && w.leases[id] == s.leases[id];
        }
      }
    }
  }

  lemma SecondFencing(s: State, c: Config, location: nat)
    requires !Referenced(s, location)
    ensures var t := Fence(DetachEntries(s, location, {}), c, location);
            if location !in s.locations then t.locations == s.locations && t.tasks == s.tasks
            else if MayGo(s, c, location) then
              location !in t.locations && Tasks(t.tasks, Place(s.locations[location].folder, Root))
            else location in t.locations
  {
    var u := DetachEntries(s, location, {});
    assert !Referenced(u, location);
    if location in s.locations {
      FenceHere(u, c, location);
      assert MayGo(u, c, location) <==> MayGo(s, c, location);
    }
  }

  /** The run ended with a second fencing, some time after a first one. */
  ghost predicate FencedTwice(s: State, u: State, c: Config, location: nat, time: nat, end: Option<State>)
    requires location in s.locations
  {
    && AfterFencing(s, u, c, location)
    && end == Some(Fence(DetachEntries(u.(now := s.now + time), location, {}), c, location))
  }

  lemma EvictingRuns(s: State, c: Config, location: nat, time: nat)
    requires location in s.locations
    ensures exists u :: FencedTwice(s, u, c, location, time, Run(s, c, Evicting(location, s.entries.Keys, time)))
  {
    var u := Fenced(s, c, location);
    FirstFencing(s, c, location);
    BothRun(s, c, DetachAndFence(location, s.entries.Keys), Wait(time));
    RunSnoc(s, c, [DetachAndFence(location, s.entries.Keys), Wait(time)], u.(now := u.now + time), DetachAndFence(location, {}));
    assert FencedTwice(s, u, c, location, time, Run(s, c, Evicting(location, s.entries.Keys, time)));
  }

  ghost predicate GoneWhenFree(s: State, t: State, c: Config, location: nat, time: nat)
    requires location in s.locations
  {
    && (location !in t.locations <==> FreeAt(s, c, location, s.now + time))
    && (location !in t.locations ==> Tasks(t.tasks, Place(s.locations[location].folder, Root)))
  }

  lemma WaitedOut(s: State, u: State, c: Config, location: nat, time: nat, end: Option<State>)
    requires location in s.locations && FencedTwice(s, u, c, location, time, end)
    ensures end.Some? && GoneWhenFree(s, end.value, c, location, time)
  {
    var w := u.(now := s.now + time);
    SecondFencing(w, c, location);
    FreeMayGo(s, c, location);
    if location in u.locations {
      FreeLater(s, w, c, location);
    }
  }

  /** A location goes when its entries are detached and the grace period, the
      leases on it and the lease of its merge have run out, and not before; then
      its folder is queued. */
  lemma LocationsGoExactly(s: State, c: Config, location: nat, time: nat)
    requires Inv(s, c) && location in s.locations
    ensures var end := Run(s, c, Evicting(location, s.entries.Keys, time));
            end.Some? && GoneWhenFree(s, end.value, c, location, time)
  {
    EvictingRuns(s, c, location, time);
    var u :| FencedTwice(s, u, c, location, time, Run(s, c, Evicting(location, s.entries.Keys, time)));
    WaitedOut(s, u, c, location, time, Run(s, c, Evicting(location, s.entries.Keys, time)));
  }

  // Ending uploads.

  /** An upload can go on, with any parts and blocks, and can be given up, at any time. */
  lemma UploadsCanGoOnOrEnd(s: State, c: Config, folder: Folder, name: Name, content: Content)
    requires Inv(s, c) && folder in s.uploads
    ensures Possible(s, c, WriteObject(Object(folder, name), content)) <==> !name.Merged?
    ensures Possible(s, c, TouchUpload(folder)) && ActiveUpload(Next(s, c, TouchUpload(folder)), folder, s.now)
    ensures Possible(s, c, DeleteUpload(folder))
  {
  }

  /** Once an upload is over, its tuple can be uploaded again. */
  lemma TuplesComeFree(s: State, c: Config, step: Step, folder: Folder, another: Folder)
    requires Inv(s, c) && Possible(s, c, step) && Ends(s, step, folder) && another !in Next(s, c, step).owner
    ensures folder in s.uploads && CanCreate(Next(s, c, step), another, s.uploads[folder].tuple)
  {
    var t := Next(s, c, step);
    SessionsAreKept(s, c, step, folder);
    forall f | f in t.uploads
      ensures t.uploads[f].tuple != s.uploads[folder].tuple
    {
      SessionsAreKept(s, c, step, f);
    }
  }

  // Removing everything.

  /** A time by which all of these leases have expired. */
  ghost function LastExpiry(leases: map<nat, Lease>): (time: int)
    ensures forall id <- leases :: leases[id].expiresAt <= time
    decreases |leases.Keys|
  {
    if leases == map[] then 0
    else
      var some :| some in leases;
      var rest := leases - {some};
      assert rest.Keys == leases.Keys - {some};
      assert forall id <- leases :: id == some || (id in rest && rest[id] == leases[id]);
      Max(LastExpiry(rest), leases[some].expiresAt)
  }

  /** A wait after which nothing holds the location back. */
  ghost function LongEnough(s: State, c: Config, location: nat): (wait: nat)
    requires location in s.locations
    ensures FreeAt(s, c, location, s.now + wait)
  {
    var l := s.locations[location];
    var due := (if l.deletionRequestedAt.Some? then l.deletionRequestedAt.value else s.now) + c.deletionGrace;
    var merge := if l.mergeStartedAt.Some? then l.mergeStartedAt.value + 15 * 60 * 1000 else 0;
    var last := Max(Max(LastExpiry(s.leases), due), Max(merge, l.tokenExpiresAt));
    if last > s.now then last - s.now else 0
  }

  lemma TransactionsKeepObjects(s: State, c: Config, step: Step)
    requires Possible(s, c, step) && !Stores(step)
    ensures Next(s, c, step).objects == s.objects
  {
    if step.CompleteUpload? {
      FinalizeKeepsObjects(s, c, step.finalizer);
    } else if step.DetachAndFence? {
      FenceIsFewer(DetachEntries(s, step.location, step.doomed), c, step.location);
    } else {
      PlainIsFewer(s, c, step);
    }
  }

  lemma {:induction false} TransactionsOnly(s: State, c: Config, steps: seq<Step>)
    requires Run(s, c, steps).Some? && forall step <- steps :: !Stores(step)
    ensures Run(s, c, steps).value.objects == s.objects
    decreases |steps|
  {
    if steps != [] {
      TransactionsKeepObjects(s, c, steps[0]);
      TransactionsOnly(Next(s, c, steps[0]), c, steps[1..]);
    }
  }

  /** No object of the folder is left after the run, and no other was touched. */
  ghost predicate Frees(s: State, c: Config, steps: seq<Step>, folder: Folder) {
    var end := Run(s, c, steps);
    && end.Some?
    && (forall obj <- end.value.objects :: obj.folder != folder)
    && (forall obj <- s.objects :: obj.folder != folder ==> obj in end.value.objects && end.value.objects[obj] == s.objects[obj])
  }

  lemma QueuedFolderIsFreed(s: State, c: Config, steps: seq<Step>, t: State, folder: Folder)
    requires Run(s, c, steps) == Some(t) && t.objects == s.objects && Place(folder, Root) in t.queued
    ensures exists more :: Frees(s, c, more, folder)
  {
    var place := Place(folder, Root);
    QueuedPlacesCanBeEmptied(t, c, place);
    var doomed: seq<Object> :|
      Run(t, c, Deletions(place.area, doomed)) == Some(t.(objects := t.objects - Inside(t.objects, place)));
    RunAppend(s, c, steps, Deletions(place.area, doomed));
    assert Frees(s, c, steps + Deletions(place.area, doomed), folder);
  }

  lemma UploadsAreFreed(s: State, c: Config, folder: Folder)
    requires folder in s.uploads
    ensures exists steps :: Frees(s, c, steps, folder)
  {
    RunOne(s, c, DeleteUpload(folder));
    QueuedFolderIsFreed(s, c, [DeleteUpload(folder)], DropUpload(s, folder), folder);
  }

  lemma TaskedIsQueued(s: State, place: Place)
    requires Ownership(s) && Tasks(s.tasks, place)
    ensures place in s.queued
  {
  }

  lemma EvictingKeepsObjects(s: State, c: Config, location: nat, time: nat)
    requires Run(s, c, Evicting(location, s.entries.Keys, time)).Some?
    ensures Run(s, c, Evicting(location, s.entries.Keys, time)).value.objects == s.objects
  {
    TransactionsOnly(s, c, Evicting(location, s.entries.Keys, time));
  }

  lemma LocationsAreFreed(s: State, c: Config, location: nat)
    requires Inv(s, c) && location in s.locations
    ensures exists steps :: Frees(s, c, steps, s.locations[location].folder)
  {
    var folder := s.locations[location].folder;
    var wait := LongEnough(s, c, location);
    var steps := Evicting(location, s.entries.Keys, wait);
    LocationsGoExactly(s, c, location, wait);
    EveryRunKeepsInv(s, c, steps);
    EvictingKeepsObjects(s, c, location, wait);
    var end := Run(s, c, steps);
    TaskedIsQueued(end.value, Place(folder, Root));
    QueuedFolderIsFreed(s, c, steps, end.value, folder);
  }

  /** Nothing is stranded: from every reachable state, whatever state its folder
      is in, all objects of a folder can be removed by the steps of the protocol
      alone, and no other object is touched by that. */
  lemma EveryFolderCanBeFreed(s: State, c: Config, folder: Folder)
    requires Inv(s, c) && folder in s.owner
    ensures exists steps :: Frees(s, c, steps, folder)
  {
    match s.owner[folder]
    case Uploading => UploadsAreFreed(s, c, folder);
    case Stored(location) => LocationsAreFreed(s, c, location);
    case Retired => QueuedFolderIsFreed(s, c, [], s, folder);
  }
}
