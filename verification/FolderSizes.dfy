/** The part sizes that a finalization records: taken while the upload may still
    be written to, and stored when it commits. */
module FolderSizes {
  import opened FolderContents
  import opened FolderOwnership
  import opened FolderProtocol
  import opened Int64
  import opened Octets
  import opened Options
  import opened Sequences

  /** The recorded sizes are those of the parts as they were finalized. */
  ghost predicate Recorded(locations: map<nat, Location>, saved: map<nat, seq<Content>>) {
    forall l <- locations :: l in saved && locations[l].sizes == Lengths(saved[l])
  }

  /** Every part still has the size that was found. */
  ghost predicate SizesFit(objects: map<Object, Content>, f: Finalizer) {
    forall i :: 0 <= i < f.partCount && i in f.sizes && Object(f.folder, Part(i)) in objects ==>
      |objects[Object(f.folder, Part(i))]| == f.sizes[i]
  }

  /** The step commits sizes that are no longer those of the parts. */
  ghost predicate Misrecords(s: State, step: Step) {
    step.CompleteUpload? && step.finalizer in s.finalizers && !SizesFit(s.objects, s.finalizers[step.finalizer])
  }

  lemma SizesFoundAreLengths(objects: map<Object, Content>, f: Finalizer)
    requires AllSized(f) && HasSized(objects, f)
    ensures SizesFound(f) == Lengths(PartContents(objects, f.folder, f.partCount)) <==> SizesFit(objects, f)
  {
    var contents := PartContents(objects, f.folder, f.partCount);
    PartContentsAt(objects, f.folder, f.partCount);
    if SizesFound(f) == Lengths(contents) {
      forall i | 0 <= i < f.partCount
        ensures |objects[Object(f.folder, Part(i))]| == f.sizes[i]
      {
        assert SizesFound(f)[i] == Lengths(contents)[i];
      }
    }
  }

  lemma MarkDeletedKeepsLocation(s: State, location: nat, other: nat)
    requires location in s.locations && other in s.locations && location != other
    ensures var t := MarkDeleted(s, other); location in t.locations && t.locations[location] == s.locations[location]
  {
  }

  lemma RetireKeepsLocation(s: State, location: nat, other: nat)
    requires location in s.locations && other in s.locations && location != other
    ensures var t := Retire(s, other); location in t.locations && t.locations[location] == s.locations[location]
  {
  }

  lemma FenceKeepsLocation(s: State, c: Config, location: nat, other: nat)
    requires location in s.locations && location != other
    ensures var t := Fence(s, c, other); location in t.locations && t.locations[location] == s.locations[location]
  {
    if other in s.locations {
      MarkDeletedKeepsLocation(s, location, other);
      RetireKeepsLocation(MarkDeleted(s, other), location, other);
    }
  }

  /** The new row and what its parts were when it was made. */
  lemma FinalizeMakes(s: State, c: Config, id: nat)
    requires Referring(s.locations, s.entries) && Drawn(s.locations, s.next) && CanFinalize(s, id)
    ensures var f, t := s.finalizers[id], Finalize(s, c, id);
            && s.next in t.locations && t.locations[s.next].folder == f.folder
            && t.locations[s.next].partCount == f.partCount && t.locations[s.next].sizes == SizesFound(f)
            && t.saved == s.saved[s.next := PartContents(s.objects, f.folder, f.partCount)]
  {
    var f := s.finalizers[id];
    var entry, promoted := TheEntry(s, f.tuple), Promote(s, f.folder, SizesFound(f));
    if entry.Some? {
      var pointed, replaced := PointEntry(promoted, entry.value, f.tuple, s.next), s.entries[entry.value].location;
      FenceKeepsLocation(pointed, c, s.next, replaced);
      FenceIsFewer(pointed, c, replaced);
    }
  }

  /** A finalization records the right sizes exactly when every part still has
      the size that it was found to have. */
  lemma FinalizeRecordsExactly(s: State, c: Config, id: nat)
    requires Inv(s, c) && CanFinalize(s, id)
    ensures var t := Finalize(s, c, id);
            s.next in t.locations && s.next in t.saved
            && (t.locations[s.next].sizes == Lengths(t.saved[s.next]) <==> SizesFit(s.objects, s.finalizers[id]))
  {
    FinalizeMakes(s, c, id);
    SizesFoundAreLengths(s.objects, s.finalizers[id]);
  }

  lemma FewerIsRecorded(s: State, t: State)
    requires Recorded(s.locations, s.saved) && Fewer(s, t)
    ensures Recorded(t.locations, t.saved)
  {
  }

  lemma PromoteIsRecorded(s: State, c: Config, id: nat)
    requires Inv(s, c) && CanFinalize(s, id) && Recorded(s.locations, s.saved) && SizesFit(s.objects, s.finalizers[id])
    ensures var f := s.finalizers[id];
            var t := Promote(s, f.folder, SizesFound(f)); Recorded(t.locations, t.saved)
  {
    SizesFoundAreLengths(s.objects, s.finalizers[id]);
  }

  lemma FinalizeIsRecorded(s: State, c: Config, id: nat)
    requires Inv(s, c) && CanFinalize(s, id) && Recorded(s.locations, s.saved) && SizesFit(s.objects, s.finalizers[id])
    ensures Recorded(Finalize(s, c, id).locations, Finalize(s, c, id).saved)
  {
    var f := s.finalizers[id];
    PromoteIsRecorded(s, c, id);
    SettleIsRecorded(Promote(s, f.folder, SizesFound(f)), c, TheEntry(s, f.tuple), f.tuple, s.next);
  }

  lemma SettleIsRecorded(s: State, c: Config, entry: Option<nat>, tuple: Tuple, location: nat)
    requires Recorded(s.locations, s.saved) && (entry.Some? ==> entry.value in s.entries)
    ensures var t := Settle(s, c, entry, tuple, location); Recorded(t.locations, t.saved)
  {
    if entry.Some? {
      var pointed, replaced := PointEntry(s, entry.value, tuple, location), s.entries[entry.value].location;
      FenceIsFewer(pointed, c, replaced);
      FewerIsRecorded(pointed, Fence(pointed, c, replaced));
    }
  }

  lemma StoresKeepRows(s: State, c: Config, step: Step)
    requires Stores(step) && Possible(s, c, step)
    ensures Next(s, c, step).locations == s.locations && Next(s, c, step).saved == s.saved
  {
  }

  lemma OthersAreRecorded(s: State, c: Config, step: Step)
    requires Recorded(s.locations, s.saved) && !step.CompleteUpload? && Possible(s, c, step)
    ensures Recorded(Next(s, c, step).locations, Next(s, c, step).saved)
  {
    if Stores(step) {
      StoresKeepRows(s, c, step);
    } else if step.DetachAndFence? {
      var t := DetachEntries(s, step.location, step.doomed);
      FenceIsFewer(t, c, step.location);
      FewerIsRecorded(t, Fence(t, c, step.location));
    } else {
      PlainIsFewer(s, c, step);
      FewerIsRecorded(s, Next(s, c, step));
    }
  }

  /** Recorded sizes go wrong in a commit of sizes that are out of date, and in
      no other step. */
  lemma StepIsRecorded(s: State, c: Config, step: Step)
    requires Inv(s, c) && Recorded(s.locations, s.saved) && Possible(s, c, step)
    ensures Recorded(Next(s, c, step).locations, Next(s, c, step).saved) <==> !Misrecords(s, step)
  {
    if step.CompleteUpload? {
      FinalizeRecordsExactly(s, c, step.finalizer);
      if !Misrecords(s, step) {
        FinalizeIsRecorded(s, c, step.finalizer);
      }
    } else {
      OthersAreRecorded(s, c, step);
    }
  }

  // From the inspection of a part to the commit.

  /** What the steps last write to an object. */
  function LastWrite(steps: seq<Step>, obj: Object): Option<Content> {
    if steps == [] then None
    else
      var later := LastWrite(steps[1..], obj);
      if later.Some? then later
      else if steps[0].WriteObject? && steps[0].obj == obj then Some(steps[0].content)
      else None
  }

  /** No step but a write changes a part of an upload. */
  lemma PartsOfUploadsStay(s: State, c: Config, step: Step, obj: Object)
    requires Inv(s, c) && Possible(s, c, step)
    requires obj.name.Part? && obj in s.objects && obj.folder in s.uploads
    ensures var t := Next(s, c, step);
            obj in t.objects
            && t.objects[obj] == if step.WriteObject? && step.obj == obj then step.content else s.objects[obj]
  {
    if step.WriteObject? || step.DeleteObject? {
      StoredPartsStay(s, c, step, obj);
    } else if Stores(step) {
      ComposingKeepsParts(s, c, step, obj);
    } else if step.CompleteUpload? {
      FinalizeKeepsObjects(s, c, step.finalizer);
    } else if step.DetachAndFence? {
      FenceIsFewer(DetachEntries(s, step.location, step.doomed), c, step.location);
    } else {
      PlainIsFewer(s, c, step);
    }
  }

  lemma ComposingKeepsParts(s: State, c: Config, step: Step, obj: Object)
    requires (step.CopyPart? || step.LandMerge?) && Possible(s, c, step)
    requires obj.name.Part? && obj in s.objects
    ensures obj in Next(s, c, step).objects && Next(s, c, step).objects[obj] == s.objects[obj]
  {
  }

  lemma StoredPartsStay(s: State, c: Config, step: Step, obj: Object)
    requires Ownership(s) && (step.WriteObject? || step.DeleteObject?) && Possible(s, c, step)
    requires obj.name.Part? && obj in s.objects && obj.folder in s.uploads
    ensures var t := Next(s, c, step);
            obj in t.objects
            && t.objects[obj] == if step.WriteObject? && step.obj == obj then step.content else s.objects[obj]
  {
  }

  lemma FinalizeKeepsObjects(s: State, c: Config, id: nat)
    requires CanFinalize(s, id)
    ensures Finalize(s, c, id).objects == s.objects
  {
    var f := s.finalizers[id];
    var entry, promoted := TheEntry(s, f.tuple), Promote(s, f.folder, SizesFound(f));
    if entry.Some? {
      FenceIsFewer(PointEntry(promoted, entry.value, f.tuple, s.next), c, s.entries[entry.value].location);
    }
  }

  /** What a finalization has found stays with it. */
  ghost predicate Keeping(s: State, t: State, id: nat)
    requires id in s.finalizers
  {
    && id in t.finalizers && t.finalizers[id].folder == s.finalizers[id].folder
    && t.finalizers[id].partCount == s.finalizers[id].partCount
    && forall i <- s.finalizers[id].sizes :: i in t.finalizers[id].sizes && t.finalizers[id].sizes[i] == s.finalizers[id].sizes[i]
  }

  lemma UploadsKeepFinalizers(s: State, c: Config, step: Step, id: nat)
    requires Drawn(s.finalizers, s.next) && Uploads(step) && Possible(s, c, step) && id in s.finalizers
    ensures Keeping(s, Next(s, c, step), id)
  {
  }

  lemma FinalizersStay(s: State, c: Config, step: Step, id: nat)
    requires Inv(s, c) && Possible(s, c, step) && id in s.finalizers
    ensures Keeping(s, Next(s, c, step), id)
  {
    if step.CompleteUpload? {
      FinalizeFrame(s, c, step.finalizer);
    } else if step.DetachAndFence? {
      FenceFrame(DetachEntries(s, step.location, step.doomed), c, step.location);
    } else if Uploads(step) {
      UploadsKeepFinalizers(s, c, step, id);
    } else {
      OthersAreMild(s, c, step);
    }
  }

  lemma {:induction false} FinalizersStayOver(s: State, c: Config, steps: seq<Step>, id: nat)
    requires Inv(s, c) && id in s.finalizers && Run(s, c, steps).Some?
    ensures Keeping(s, Run(s, c, steps).value, id)
    decreases |steps|
  {
    if steps != [] {
      FinalizersStay(s, c, steps[0], id);
      StepKeepsInv(s, c, steps[0]);
      FinalizersStayOver(Next(s, c, steps[0]), c, steps[1..], id);
    }
  }

  lemma {:induction false} OverStaysOverRuns(s: State, c: Config, steps: seq<Step>, folder: Folder)
    requires Inv(s, c) && Over(s, folder) && Run(s, c, steps).Some?
    ensures Over(Run(s, c, steps).value, folder)
    decreases |steps|
  {
    if steps != [] {
      OverStaysOver(s, c, steps[0], folder);
      StepKeepsInv(s, c, steps[0]);
      OverStaysOverRuns(Next(s, c, steps[0]), c, steps[1..], folder);
    }
  }

  /** While its upload goes on, a part is what was last written to it. */
  lemma {:induction false} PartIsLastWrite(s: State, c: Config, steps: seq<Step>, obj: Object)
    requires Inv(s, c) && Run(s, c, steps).Some? && obj.folder in s.uploads && obj.folder in Run(s, c, steps).value.uploads
    requires obj.name.Part? && obj in s.objects
    ensures var t := Run(s, c, steps).value;
            obj in t.objects
            && t.objects[obj] == if LastWrite(steps, obj).Some? then LastWrite(steps, obj).value else s.objects[obj]
    decreases |steps|
  {
    if steps != [] {
      var t := Next(s, c, steps[0]);
      StepKeepsInv(s, c, steps[0]);
      PartsOfUploadsStay(s, c, steps[0], obj);
      FoldersStayKnown(s, c, steps[0], obj.folder);
      if obj.folder !in t.uploads {
        OverStaysOverRuns(t, c, steps[1..], obj.folder);
        assert false;
      }
      PartIsLastWrite(t, c, steps[1..], obj);
    }
  }

  lemma FoldersStayKnown(s: State, c: Config, step: Step, folder: Folder)
    requires Inv(s, c) && Possible(s, c, step) && folder in s.owner
    ensures folder in Next(s, c, step).owner
  {
    if step.CompleteUpload? {
      FinalizeFrame(s, c, step.finalizer);
    } else if step.DetachAndFence? {
      FenceFrame(DetachEntries(s, step.location, step.doomed), c, step.location);
    } else {
      OthersAreMild(s, c, step);
    }
  }

  /** A part's recorded size is right exactly when nothing of another length was
      the last to be written to the part between its inspection, in `s`, and the
      commit after `steps`. */
  lemma SizeIsRightExactly(s: State, c: Config, steps: seq<Step>, id: nat, i: nat)
    requires Inv(s, c) && id in s.finalizers && i < s.finalizers[id].partCount && i in s.finalizers[id].sizes
    requires var part := Object(s.finalizers[id].folder, Part(i));
             part.folder in s.uploads && part in s.objects && |s.objects[part]| == s.finalizers[id].sizes[i]
    requires Run(s, c, steps).Some? && CanFinalize(Run(s, c, steps).value, id)
    ensures var t := Run(s, c, steps).value;
            var end, last := Finalize(t, c, id), LastWrite(steps, Object(s.finalizers[id].folder, Part(i)));
            && t.next in end.locations && t.next in end.saved && i < |end.locations[t.next].sizes| == |end.saved[t.next]|
            && (end.locations[t.next].sizes[i] == |end.saved[t.next][i]|
                <==> (last.Some? ==> |last.value| == s.finalizers[id].sizes[i]))
  {
    var t := Run(s, c, steps).value;
    EveryRunKeepsInv(s, c, steps);
    FinalizersStayOver(s, c, steps, id);
    PartIsLastWrite(s, c, steps, Object(s.finalizers[id].folder, Part(i)));
    FinalizeMakes(t, c, id);
    PartContentsAt(t.objects, t.finalizers[id].folder, t.finalizers[id].partCount);
  }

  // What a writer can see to.

  /** Every inspection that can still commit is up to date. */
  ghost predicate PendingFit(objects: map<Object, Content>, uploads: map<Folder, Upload>, finalizers: map<nat, Finalizer>) {
    forall id <- finalizers :: finalizers[id].folder in uploads ==> SizesFit(objects, finalizers[id])
  }

  /** The write gives a part another length than an inspection has found. */
  ghost predicate Resizes(s: State, step: Step) {
    && step.WriteObject? && step.obj.name.Part? && step.obj.folder in s.uploads
    && exists id <- s.finalizers ::
         && s.finalizers[id].folder == step.obj.folder && step.obj.name.index < s.finalizers[id].partCount
         && step.obj.name.index in s.finalizers[id].sizes
         && |step.content| != s.finalizers[id].sizes[step.obj.name.index]
  }

  /** Parts may go, but those that stay keep their content; no upload begins in
      a folder that is known. */
  ghost predicate FewerParts(s: State, t: State) {
    && t.finalizers == s.finalizers
    && (forall f <- t.uploads :: f in s.uploads || f !in s.owner)
    && (forall obj <- t.objects :: obj.name.Part? ==> obj in s.objects && t.objects[obj] == s.objects[obj])
  }

  lemma FewerPartsFit(s: State, t: State)
    requires PendingFit(s.objects, s.uploads, s.finalizers) && FinalizersKnown(s.finalizers, s.owner) && FewerParts(s, t)
    ensures PendingFit(t.objects, t.uploads, t.finalizers)
  {
    forall id | id in t.finalizers && t.finalizers[id].folder in t.uploads
      ensures SizesFit(t.objects, t.finalizers[id])
    {
      assert SizesFit(s.objects, s.finalizers[id]);
    }
  }

  lemma WriteFitsExactly(s: State, obj: Object, content: Content)
    requires PendingFit(s.objects, s.uploads, s.finalizers)
    ensures PendingFit(s.objects[obj := content], s.uploads, s.finalizers) <==> !Resizes(s, WriteObject(obj, content))
  {
    if Resizes(s, WriteObject(obj, content)) {
      var id :| id in s.finalizers && s.finalizers[id].folder == obj.folder && obj.name.index < s.finalizers[id].partCount
                && obj.name.index in s.finalizers[id].sizes && |content| != s.finalizers[id].sizes[obj.name.index];
      assert !SizesFit(s.objects[obj := content], s.finalizers[id]);
    }
  }

  lemma SizedFits(s: State, id: nat, index: nat)
    requires PendingFit(s.objects, s.uploads, s.finalizers)
    requires id in s.finalizers && Object(s.finalizers[id].folder, Part(index)) in s.objects
    ensures PendingFit(Sized(s, id, index).objects, s.uploads, Sized(s, id, index).finalizers)
  {
  }

  lemma StoresAreFewerParts(s: State, c: Config, step: Step)
    requires Stores(step) && !step.WriteObject? && Possible(s, c, step)
    ensures FewerParts(s, Next(s, c, step))
  {
  }

  lemma OthersAreFewerParts(s: State, c: Config, step: Step)
    requires Inv(s, c) && !step.WriteObject? && !step.BeginInspection? && !step.SizePart? && Possible(s, c, step)
    ensures FewerParts(s, Next(s, c, step))
  {
    if Stores(step) {
      StoresAreFewerParts(s, c, step);
    } else if step.CompleteUpload? {
      FinalizeFrame(s, c, step.finalizer);
      FinalizeKeepsObjects(s, c, step.finalizer);
    } else if step.DetachAndFence? {
      FenceFrame(DetachEntries(s, step.location, step.doomed), c, step.location);
      FenceIsFewer(DetachEntries(s, step.location, step.doomed), c, step.location);
    } else {
      OthersAreMild(s, c, step);
      PlainIsFewer(s, c, step);
    }
  }

  /** Inspections go out of date in a write of another length, and in no other step. */
  lemma StepFitsExactly(s: State, c: Config, step: Step)
    requires Inv(s, c) && PendingFit(s.objects, s.uploads, s.finalizers) && Possible(s, c, step)
    ensures PendingFit(Next(s, c, step).objects, Next(s, c, step).uploads, Next(s, c, step).finalizers) <==> !Resizes(s, step)
  {
    if step.WriteObject? {
      WriteFitsExactly(s, step.obj, step.content);
    } else if step.SizePart? {
      SizedFits(s, step.finalizer, step.index);
    } else if !step.BeginInspection? {
      OthersAreFewerParts(s, c, step);
      FewerPartsFit(s, Next(s, c, step));
    }
  }
}
