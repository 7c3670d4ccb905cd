/** What a reader gets from a stored folder, over every interleaving of the
    folder protocol. */
module FolderContents {
  import opened Int64
  import opened Octets
  import opened Options
  import opened Sequences
  import opened FolderProtocol
  import opened FolderOwnership

  /** The objects of a location that are there hold what was finalized: the
      parts one by one, the merged object all of them in order. */
  ghost predicate Keeps(objects: map<Object, Content>, l: Location, saved: seq<Content>) {
    && |saved| == l.partCount
    && (forall i :: 0 <= i < l.partCount && Object(l.folder, Part(i)) in objects ==>
          objects[Object(l.folder, Part(i))] == saved[i])
    && (Object(l.folder, Merged) in objects ==> objects[Object(l.folder, Merged)] == Flatten(saved))
  }

  ghost predicate Faithful(s: State) {
    forall l <- s.locations :: l in s.saved && Keeps(s.objects, s.locations[l], s.saved[l])
  }

  /** What a merge has copied is what was finalized. */
  ghost predicate Copies(m: Composer, l: Location, saved: seq<Content>) {
    && m.partCount == l.partCount
    && forall i <- m.copied :: i < |saved| ==> m.copied[i] == saved[i]
  }

  ghost predicate ObjectsOwned(objects: map<Object, Content>, owner: map<Folder, Owner>, uploads: map<Folder, Upload>) {
    forall obj <- objects :: obj.folder in owner && (obj.name.Merged? ==> obj.folder !in uploads)
  }

  ghost predicate ComposersOwned(composers: map<nat, Composer>, owner: map<Folder, Owner>) {
    forall t <- composers ::
      && composers[t].folder in owner
      && (owner[composers[t].folder] == Stored(composers[t].location) || owner[composers[t].folder] == Retired)
  }

  ghost predicate ComposersCopy(composers: map<nat, Composer>, locations: map<nat, Location>, saved: map<nat, seq<Content>>) {
    forall t <- composers :: composers[t].location in locations && composers[t].location in saved ==>
      Copies(composers[t], locations[composers[t].location], saved[composers[t].location])
  }

  /** Where merged objects can come from. */
  ghost predicate Traced(s: State) {
    && ObjectsOwned(s.objects, s.owner, s.uploads)
    && ComposersOwned(s.composers, s.owner)
    && ComposersCopy(s.composers, s.locations, s.saved)
  }

  lemma {:induction false} PartContentsAt(objects: map<Object, Content>, folder: Folder, count: nat)
    requires HasParts(objects, folder, count)
    ensures var contents := PartContents(objects, folder, count);
            |contents| == count && forall i :: 0 <= i < count ==> contents[i] == objects[Object(folder, Part(i))]
  {
    if count > 0 {
      PartContentsAt(objects, folder, count - 1);
    }
  }

  /** The write lands in a part of a live location and is not what was finalized. */
  predicate Corrupts(s: State, step: Step) {
    && step.WriteObject? && step.obj.name.Part?
    && exists l <- s.locations ::
         && s.locations[l].folder == step.obj.folder && step.obj.name.index < s.locations[l].partCount
         && l in s.saved && step.obj.name.index < |s.saved[l]|
         && step.content != s.saved[l][step.obj.name.index]
  }

  lemma WriteIsExact(s: State, c: Config, step: Step)
    requires Inv(s, c) && Faithful(s) && step.WriteObject? && Possible(s, c, step)
    ensures Faithful(Next(s, c, step)) <==> !Corrupts(s, step)
  {
    var t := s.(objects := s.objects[step.obj := step.content]);
    if Corrupts(s, step) {
      var l :| l in s.locations && s.locations[l].folder == step.obj.folder && step.obj.name.index < s.locations[l].partCount
               && step.content != s.saved[l][step.obj.name.index];
      assert !Keeps(t.objects, s.locations[l], s.saved[l]);
    }
  }

  predicate SameParts(l: Location, m: Location) {
    m.folder == l.folder && m.partCount == l.partCount && m.sizes == l.sizes
  }

  /** Rows may go, but those that stay keep their folder and their parts. */
  ghost predicate Fewer(s: State, t: State) {
    && t.objects == s.objects && t.saved == s.saved
    && forall l <- t.locations :: l in s.locations && SameParts(s.locations[l], t.locations[l])
  }

  lemma FewerIsFaithful(s: State, t: State)
    requires Faithful(s) && Fewer(s, t)
    ensures Faithful(t)
  {
    forall l | l in t.locations
      ensures l in t.saved && Keeps(t.objects, t.locations[l], t.saved[l])
    {
      assert Keeps(s.objects, s.locations[l], s.saved[l]);
    }
  }

  lemma PromoteKeepsFaithful(s: State, c: Config, folder: Folder, sizes: seq<int>)
    requires Inv(s, c) && Faithful(s) && Traced(s) && folder in s.uploads && HasParts(s.objects, folder, |sizes|)
    ensures Faithful(Promote(s, folder, sizes))
  {
    PartContentsAt(s.objects, folder, |sizes|);
  }

  lemma PromoteKeepsTraced(s: State, c: Config, folder: Folder, sizes: seq<int>)
    requires Inv(s, c) && Traced(s) && folder in s.uploads
    ensures Traced(Promote(s, folder, sizes))
  {
  }

  lemma MarkDeletedIsFewer(s: State, location: nat)
    requires location in s.locations
    ensures Fewer(s, MarkDeleted(s, location))
  {
  }

  lemma RetireIsFewer(s: State, t: State, location: nat)
    requires Fewer(s, t) && location in t.locations
    ensures Fewer(s, Retire(t, location))
  {
  }

  lemma FenceIsFewer(s: State, c: Config, location: nat)
    ensures Fewer(s, Fence(s, c, location))
  {
    if location in s.locations {
      MarkDeletedIsFewer(s, location);
      RetireIsFewer(s, MarkDeleted(s, location), location);
    }
  }

  lemma RetireKeepsTraced(s: State, location: nat)
    requires Traced(s) && Owned(s.owner, s.uploads, s.locations, s.queued) && location in s.locations
    ensures Traced(Retire(s, location))
  {
  }

  lemma FenceKeepsTraced(s: State, c: Config, location: nat)
    requires Traced(s) && Owned(s.owner, s.uploads, s.locations, s.queued)
    ensures Traced(Fence(s, c, location))
  {
    if location in s.locations {
      var t := MarkDeleted(s, location);
      RetireKeepsTraced(t, location);
    }
  }

  lemma SettleKeepsFaithful(s: State, c: Config, entry: Option<nat>, tuple: Tuple, location: nat)
    requires Faithful(s) && Traced(s) && Owned(s.owner, s.uploads, s.locations, s.queued)
    requires entry.Some? ==> entry.value in s.entries
    ensures var t := Settle(s, c, entry, tuple, location); Faithful(t) && Traced(t) && t.saved == s.saved
  {
    if entry.Some? {
      var pointed, replaced := PointEntry(s, entry.value, tuple, location), s.entries[entry.value].location;
      FenceKeepsTraced(pointed, c, replaced);
      FenceIsFewer(pointed, c, replaced);
      FewerIsFaithful(pointed, Fence(pointed, c, replaced));
    }
  }

  lemma FinalizeKeepsFaithful(s: State, c: Config, id: nat)
    requires Inv(s, c) && Faithful(s) && Traced(s) && CanFinalize(s, id)
    ensures Faithful(Finalize(s, c, id)) && Traced(Finalize(s, c, id))
  {
    var f := s.finalizers[id];
    PromoteKeepsFaithful(s, c, f.folder, SizesFound(f));
    PromoteKeepsTraced(s, c, f.folder, SizesFound(f));
    PromoteKeepsOwned(s, f.folder, SizesFound(f));
    SettleKeepsFaithful(Promote(s, f.folder, SizesFound(f)), c, TheEntry(s, f.tuple), f.tuple, s.next);
  }

  lemma ComposedKeepsTraced(s: State, c: Config, token: nat, answered: bool)
    requires Inv(s, c) && Traced(s) && token in s.composers
    ensures Traced(Composed(s, token, answered))
  {
  }

  lemma UpdatedComposer(
    composers: map<nat, Composer>, owner: map<Folder, Owner>, locations: map<nat, Location>, saved: map<nat, seq<Content>>,
    token: nat, m: Composer)
    requires ComposersCopy(composers, locations, saved) && ComposersOwned(composers, owner)
    requires token in composers && m.location == composers[token].location && m.folder == composers[token].folder
    requires m.location in locations && m.location in saved ==> Copies(m, locations[m.location], saved[m.location])
    ensures ComposersCopy(composers[token := m], locations, saved) && ComposersOwned(composers[token := m], owner)
  {
  }

  lemma OneMoreCopied(m: Composer, l: Location, saved: seq<Content>, index: nat, content: Content)
    requires Copies(m, l, saved) && (index < |saved| ==> content == saved[index])
    ensures Copies(m.(copied := m.copied[index := content]), l, saved)
  {
  }

  lemma CopyIsSaved(objects: map<Object, Content>, l: Location, saved: seq<Content>, m: Composer, index: nat)
    requires Keeps(objects, l, saved) && Copies(m, l, saved) && m.folder == l.folder && index < m.partCount
    requires Object(m.folder, Part(index)) in objects
    ensures Copies(m.(copied := m.copied[index := objects[Object(m.folder, Part(index))]]), l, saved)
  {
    OneMoreCopied(m, l, saved, index, objects[Object(m.folder, Part(index))]);
  }

  /** A part is copied as it was finalized, as long as its location is there. */
  lemma CopiedKeepsTraced(s: State, c: Config, token: nat, index: nat)
    requires Located(s.locations, s.composers, c) && Faithful(s) && Traced(s)
    requires token in s.composers && index < s.composers[token].partCount
    requires Object(s.composers[token].folder, Part(index)) in s.objects
    ensures Traced(Copied(s, token, index))
  {
    var m := s.composers[token];
    if m.location in s.locations {
      CopyIsSaved(s.objects, s.locations[m.location], s.saved[m.location], m, index);
    }
    UpdatedComposer(s.composers, s.owner, s.locations, s.saved, token, Copied(s, token, index).composers[token]);
  }

  lemma MergeKeeps(objects: map<Object, Content>, l: Location, saved: seq<Content>, m: Composer)
    requires Keeps(objects, l, saved) && AllCopied(m)
    requires l.folder == m.folder ==> Copies(m, l, saved)
    ensures Keeps(objects[Object(m.folder, Merged) := Flatten(CopiedParts(m))], l, saved)
  {
    if l.folder == m.folder {
      assert CopiedParts(m) == saved;
    }
  }

  /** A merge writes what was finalized, however late it lands: also one whose
      token was lost long ago, and one whose parts are gone by then. */
  lemma ComposedKeepsFaithful(s: State, c: Config, token: nat, answered: bool)
    requires Inv(s, c) && Faithful(s) && Traced(s) && token in s.composers && AllCopied(s.composers[token])
    ensures Faithful(Composed(s, token, answered))
  {
    forall l | l in s.locations
      ensures Keeps(Composed(s, token, answered).objects, s.locations[l], s.saved[l])
    {
      assert Keeps(s.objects, s.locations[l], s.saved[l]);
      ComposerKnowsItsLocation(s, token, l);
      MergeKeeps(s.objects, s.locations[l], s.saved[l], s.composers[token]);
    }
  }

  lemma ComposerKnowsItsLocation(s: State, token: nat, l: nat)
    requires Owned(s.owner, s.uploads, s.locations, s.queued) && Traced(s)
    requires token in s.composers && l in s.locations && l in s.saved
    ensures s.locations[l].folder == s.composers[token].folder ==> Copies(s.composers[token], s.locations[l], s.saved[l])
  {
    if s.locations[l].folder == s.composers[token].folder {
      assert s.owner[s.composers[token].folder] == Stored(l);
    }
  }

  /** Steps that are neither a write nor a merge nor a finalization. */
  predicate Plain(step: Step) {
    !Stores(step) && !step.CompleteUpload? && !step.DetachAndFence?
  }

  lemma UploadsAreFewer(s: State, c: Config, step: Step)
    requires Uploads(step) && Possible(s, c, step)
    ensures Fewer(s, Next(s, c, step))
  {
  }

  lemma HandsAreFewer(s: State, c: Config, step: Step)
    requires Hands(step) && !step.CompleteUpload? && Possible(s, c, step)
    ensures Fewer(s, Next(s, c, step))
  {
  }

  lemma LookingIsFewer(s: State, c: Config, entry: nat, direct: bool)
    requires Possible(s, c, ReadLocation(entry, direct))
    ensures Fewer(s, Next(s, c, ReadLocation(entry, direct)))
  {
  }

  lemma ReadsAreFewer(s: State, c: Config, step: Step)
    requires Reads(step) && Possible(s, c, step)
    ensures Fewer(s, Next(s, c, step))
  {
  }

  lemma ManagesAreFewer(s: State, c: Config, step: Step)
    requires Manages(step) && Possible(s, c, step)
    ensures Fewer(s, Next(s, c, step))
  {
  }

  lemma MergesAreFewer(s: State, c: Config, step: Step)
    requires Merge(step) && Possible(s, c, step)
    ensures Fewer(s, Next(s, c, step))
  {
  }

  lemma PlainIsFewer(s: State, c: Config, step: Step)
    requires Plain(step) && Possible(s, c, step)
    ensures Fewer(s, Next(s, c, step))
  {
    if Uploads(step) {
      UploadsAreFewer(s, c, step);
    } else if Hands(step) {
      HandsAreFewer(s, c, step);
    } else if step.ReadLocation? {
      LookingIsFewer(s, c, step.entry, step.direct);
    } else if Reads(step) {
      ReadsAreFewer(s, c, step);
    } else if Manages(step) {
      ManagesAreFewer(s, c, step);
    } else {
      MergesAreFewer(s, c, step);
    }
  }

  lemma CreateKeepsTraced(s: State, c: Config, folder: Folder, tuple: Tuple)
    requires Traced(s) && CanCreate(s, folder, tuple)
    ensures Traced(Create(s, folder, tuple))
  {
  }

  lemma GiveUpKeepsTraced(s: State, folder: Folder)
    requires Traced(s) && forall l <- s.locations :: s.locations[l].folder != folder
    ensures Traced(DropUpload(s, folder))
    ensures folder !in s.uploads ==> Traced(Enqueue(s.(owner := s.owner[folder := Retired]), Place(folder, Root)))
  {
  }

  lemma HandKeepsTraced(s: State, c: Config, step: Step)
    requires Inv(s, c) && Traced(s) && Plain(step) && Hands(step) && Possible(s, c, step)
    ensures Traced(Next(s, c, step))
  {
    if step.CreateUpload? {
      CreateKeepsTraced(s, c, step.folder, step.tuple);
    } else {
      GiveUpKeepsTraced(s, step.folder);
    }
  }

  lemma TracedFrame(s: State, t: State)
    requires Traced(s) && Fewer(s, t)
    requires t.owner == s.owner && t.composers == s.composers && t.uploads.Keys == s.uploads.Keys
    ensures Traced(t)
  {
  }

  predicate Quiet(step: Step) {
    Plain(step) && !Hands(step) && !step.AcquireMaterialization?
  }

  lemma QuietFrame(s: State, c: Config, step: Step)
    requires Quiet(step) && Possible(s, c, step)
    ensures var t := Next(s, c, step);
            t.owner == s.owner && t.composers == s.composers && t.uploads.Keys == s.uploads.Keys
  {
  }

  lemma MaterializeKeepsTraced(s: State, c: Config, location: nat)
    requires Inv(s, c) && Traced(s) && location in s.locations
    ensures Traced(Materialize(s, c, location))
  {
  }

  lemma PlainKeepsTraced(s: State, c: Config, step: Step)
    requires Inv(s, c) && Traced(s) && Plain(step) && !Hands(step) && Possible(s, c, step)
    ensures Traced(Next(s, c, step))
  {
    if step.AcquireMaterialization? {
      MaterializeKeepsTraced(s, c, step.location);
    } else {
      QuietFrame(s, c, step);
      PlainIsFewer(s, c, step);
      TracedFrame(s, Next(s, c, step));
    }
  }

  lemma DeleteKeepsFaithful(s: State, c: Config, obj: Object)
    requires Faithful(s) && Traced(s)
    ensures var t := s.(objects := s.objects - {obj}); Faithful(t) && Traced(t)
  {
    forall l | l in s.locations
      ensures Keeps(s.objects - {obj}, s.locations[l], s.saved[l])
    {
      assert Keeps(s.objects, s.locations[l], s.saved[l]);
    }
  }

  lemma ObjectsAreFaithful(s: State, c: Config, step: Step)
    requires Inv(s, c) && Faithful(s) && Traced(s) && (step.WriteObject? || step.DeleteObject?) && Possible(s, c, step)
    ensures Faithful(Next(s, c, step)) <==> !Corrupts(s, step)
    ensures Traced(Next(s, c, step))
  {
    if step.WriteObject? {
      WriteIsExact(s, c, step);
    } else {
      DeleteKeepsFaithful(s, c, step.obj);
    }
  }

  lemma ComposingIsFaithful(s: State, c: Config, step: Step)
    requires Inv(s, c) && Faithful(s) && Traced(s) && (step.CopyPart? || step.LandMerge?) && Possible(s, c, step)
    ensures Faithful(Next(s, c, step)) && Traced(Next(s, c, step))
  {
    if step.CopyPart? {
      CopiedIsFaithful(s, c, step.token, step.index);
    } else {
      LandedIsFaithful(s, c, step.token, step.answered);
    }
  }

  lemma CopiedIsFaithful(s: State, c: Config, token: nat, index: nat)
    requires Inv(s, c) && Faithful(s) && Traced(s) && token in s.composers && index < s.composers[token].partCount
    requires Object(s.composers[token].folder, Part(index)) in s.objects
    ensures Faithful(Copied(s, token, index)) && Traced(Copied(s, token, index))
  {
    CopiedKeepsTraced(s, c, token, index);
    CopiedIsFewer(s, token, index);
    FewerIsFaithful(s, Copied(s, token, index));
  }

  lemma LandedIsFaithful(s: State, c: Config, token: nat, answered: bool)
    requires Inv(s, c) && Faithful(s) && Traced(s) && token in s.composers && AllCopied(s.composers[token])
    ensures Faithful(Composed(s, token, answered)) && Traced(Composed(s, token, answered))
  {
    ComposedKeepsFaithful(s, c, token, answered);
    ComposedKeepsTraced(s, c, token, answered);
  }

  lemma StoresAreFaithful(s: State, c: Config, step: Step)
    requires Inv(s, c) && Faithful(s) && Traced(s) && Stores(step) && Possible(s, c, step)
    ensures Faithful(Next(s, c, step)) <==> !Corrupts(s, step)
    ensures Traced(Next(s, c, step))
  {
    if step.WriteObject? || step.DeleteObject? {
      ObjectsAreFaithful(s, c, step);
    } else {
      ComposingIsFaithful(s, c, step);
    }
  }

  lemma CopiedIsFewer(s: State, token: nat, index: nat)
    requires token in s.composers && Object(s.composers[token].folder, Part(index)) in s.objects
    ensures Fewer(s, Copied(s, token, index))
  {
  }

  lemma PlainIsFaithful(s: State, c: Config, step: Step)
    requires Inv(s, c) && Faithful(s) && Traced(s) && Plain(step) && Possible(s, c, step)
    ensures Faithful(Next(s, c, step)) && Traced(Next(s, c, step))
  {
    PlainIsFewer(s, c, step);
    FewerIsFaithful(s, Next(s, c, step));
    if Hands(step) {
      HandKeepsTraced(s, c, step);
    } else {
      PlainKeepsTraced(s, c, step);
    }
  }

  /** A step spoils what readers get exactly when it is a write of something
      else over a finalized part. */
  lemma StepIsFaithful(s: State, c: Config, step: Step)
    requires Inv(s, c) && Faithful(s) && Traced(s) && Possible(s, c, step)
    ensures Faithful(Next(s, c, step)) <==> !Corrupts(s, step)
    ensures Traced(Next(s, c, step))
  {
    if Stores(step) {
      StoresAreFaithful(s, c, step);
    } else if step.CompleteUpload? {
      FinalizeKeepsFaithful(s, c, step.finalizer);
    } else if step.DetachAndFence? {
      DetachKeepsFaithful(s, c, step.location, step.doomed);
    } else {
      PlainIsFaithful(s, c, step);
    }
  }

  lemma DetachKeepsFaithful(s: State, c: Config, location: nat, doomed: set<nat>)
    requires Inv(s, c) && Faithful(s) && Traced(s)
    ensures var t := Fence(DetachEntries(s, location, doomed), c, location); Faithful(t) && Traced(t)
  {
    var t := DetachEntries(s, location, doomed);
    FenceKeepsTraced(t, c, location);
    FenceIsFewer(t, c, location);
    FewerIsFaithful(t, Fence(t, c, location));
  }

  /** What a reader with this lease gets. */
  function Served(s: State, lease: Lease): Content
    requires lease.location in s.locations
  {
    var l := s.locations[lease.location];
    match lease.scope
    case Storage =>
      var merged := Object(l.folder, Merged);
      if merged in s.objects then s.objects[merged] else []
    case PartsScope => Flatten(PartContents(s.objects, l.folder, l.partCount))
  }

  lemma ServedIsSaved(s: State, lease: Lease)
    requires Faithful(s) && Protected(s, lease)
    ensures lease.location in s.saved && Served(s, lease) == Flatten(s.saved[lease.location])
  {
    var l := s.locations[lease.location];
    assert Keeps(s.objects, l, s.saved[lease.location]);
    if lease.scope.PartsScope? {
      PartContentsAt(s.objects, l.folder, l.partCount);
      assert PartContents(s.objects, l.folder, l.partCount) == s.saved[lease.location];
    }
  }

  /** What was saved for a location is settled when it is finalized. */
  lemma SavedStays(s: State, c: Config, step: Step, location: nat)
    requires location in s.saved && location < s.next && Possible(s, c, step)
    ensures location in Next(s, c, step).saved && Next(s, c, step).saved[location] == s.saved[location]
  {
    if step.CompleteUpload? {
      FinalizeKeepsSaved(s, c, step.finalizer, location);
    } else {
      OthersKeepSaved(s, c, step);
    }
  }

  lemma OthersKeepSaved(s: State, c: Config, step: Step)
    requires !step.CompleteUpload? && Possible(s, c, step)
    ensures Next(s, c, step).saved == s.saved
  {
    if step.DetachAndFence? {
      FenceIsFewer(DetachEntries(s, step.location, step.doomed), c, step.location);
    } else if Plain(step) {
      PlainIsFewer(s, c, step);
    } else {
      StorageKeepsSaved(s, c, step);
    }
  }

  lemma StorageKeepsSaved(s: State, c: Config, step: Step)
    requires Stores(step) && Possible(s, c, step)
    ensures Next(s, c, step).saved == s.saved
  {
  }

  lemma FinalizeKeepsSaved(s: State, c: Config, id: nat, location: nat)
    requires CanFinalize(s, id) && location < s.next && location in s.saved
    ensures location in Finalize(s, c, id).saved && Finalize(s, c, id).saved[location] == s.saved[location]
  {
    var f := s.finalizers[id];
    SettleKeepsSaved(Promote(s, f.folder, SizesFound(f)), c, TheEntry(s, f.tuple), f.tuple, s.next);
  }

  lemma SettleKeepsSaved(s: State, c: Config, entry: Option<nat>, tuple: Tuple, location: nat)
    requires entry.Some? ==> entry.value in s.entries
    ensures Settle(s, c, entry, tuple, location).saved == s.saved
  {
    if entry.Some? {
      FenceIsFewer(PointEntry(s, entry.value, tuple, location), c, s.entries[entry.value].location);
    }
  }
}
