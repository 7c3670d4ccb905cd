/** What readers get over whole runs of the folder protocol. */
module FolderReads {
  import opened FolderContents
  import opened FolderOwnership
  import opened FolderProtocol
  import opened FolderSizes
  import opened Int64
  import opened Octets
  import opened Options
  import opened Sequences

  /** Live locations hold what was finalized, and their sizes are of that. */
  ghost predicate Right(s: State) {
    Faithful(s) && Recorded(s.locations, s.saved)
  }

  ghost predicate Good(s: State, c: Config) {
    Inv(s, c) && Traced(s) && Right(s)
  }

  /** The step neither overwrites a finalized part with something else nor
      commits sizes that are out of date. */
  ghost predicate Sound(s: State, step: Step) {
    !Corrupts(s, step) && !Misrecords(s, step)
  }

  ghost predicate AllSound(s: State, c: Config, steps: seq<Step>)
    decreases |steps|
  {
    steps != [] && Possible(s, c, steps[0]) ==>
      Sound(s, steps[0]) && AllSound(Next(s, c, steps[0]), c, steps[1..])
  }

  ghost predicate AlwaysRight(s: State, c: Config, steps: seq<Step>)
    decreases |steps|
  {
    Right(s) && (steps != [] && Possible(s, c, steps[0]) ==> AlwaysRight(Next(s, c, steps[0]), c, steps[1..]))
  }

  lemma StepIsRight(s: State, c: Config, step: Step)
    requires Good(s, c) && Possible(s, c, step)
    ensures Right(Next(s, c, step)) <==> Sound(s, step)
    ensures Sound(s, step) ==> Good(Next(s, c, step), c)
  {
    StepKeepsInv(s, c, step);
    StepIsFaithful(s, c, step);
    StepIsRecorded(s, c, step);
  }

  /** A run keeps contents and sizes right exactly when each of its steps is sound. */
  lemma {:induction false} RunIsRightExactly(s: State, c: Config, steps: seq<Step>)
    requires Good(s, c)
    ensures AlwaysRight(s, c, steps) <==> AllSound(s, c, steps)
    decreases |steps|
  {
    if steps != [] && Possible(s, c, steps[0]) {
      var t := Next(s, c, steps[0]);
      StepIsRight(s, c, steps[0]);
      if Sound(s, steps[0]) {
        RunIsRightExactly(t, c, steps[1..]);
      } else {
        assert !AlwaysRight(t, c, steps[1..]);
      }
    }
  }

  lemma {:induction false} SoundRunsAreGood(s: State, c: Config, steps: seq<Step>)
    requires Good(s, c) && AllSound(s, c, steps)
    ensures Run(s, c, steps).Some? ==> Good(Run(s, c, steps).value, c)
    decreases |steps|
  {
    if steps != [] && Possible(s, c, steps[0]) {
      StepIsRight(s, c, steps[0]);
      SoundRunsAreGood(Next(s, c, steps[0]), c, steps[1..]);
    }
  }

  // What a caller can see to.

  /** Parts are written while their upload row is there, and an upload commits
      while its parts have the sizes that were found. */
  ghost predicate Timely(s: State, step: Step) {
    && (step.WriteObject? ==> step.obj.folder in s.uploads)
    && !Misrecords(s, step)
  }

  ghost predicate AllTimely(s: State, c: Config, steps: seq<Step>)
    decreases |steps|
  {
    steps != [] && Possible(s, c, steps[0]) ==>
      Timely(s, steps[0]) && AllTimely(Next(s, c, steps[0]), c, steps[1..])
  }

  lemma TimelyIsSound(s: State, c: Config, step: Step)
    requires Inv(s, c) && Timely(s, step)
    ensures Sound(s, step)
  {
  }

  lemma {:induction false} TimelyRunsAreSound(s: State, c: Config, steps: seq<Step>)
    requires Inv(s, c) && AllTimely(s, c, steps)
    ensures AllSound(s, c, steps)
    decreases |steps|
  {
    if steps != [] && Possible(s, c, steps[0]) {
      TimelyIsSound(s, c, steps[0]);
      StepKeepsInv(s, c, steps[0]);
      TimelyRunsAreSound(Next(s, c, steps[0]), c, steps[1..]);
    }
  }

  /** Parts are written while their upload row is there, and not with another
      length than an inspection under way has found. */
  ghost predicate Careful(s: State, step: Step) {
    (step.WriteObject? ==> step.obj.folder in s.uploads) && !Resizes(s, step)
  }

  ghost predicate AllCareful(s: State, c: Config, steps: seq<Step>)
    decreases |steps|
  {
    steps != [] && Possible(s, c, steps[0]) ==>
      Careful(s, steps[0]) && AllCareful(Next(s, c, steps[0]), c, steps[1..])
  }

  lemma CarefulIsTimely(s: State, c: Config, step: Step)
    requires PendingFit(s.objects, s.uploads, s.finalizers) && Careful(s, step) && Possible(s, c, step)
    ensures Timely(s, step)
  {
  }

  /** It is enough to look at the writes. */
  lemma {:induction false} CarefulRunsAreTimely(s: State, c: Config, steps: seq<Step>)
    requires Inv(s, c) && PendingFit(s.objects, s.uploads, s.finalizers) && AllCareful(s, c, steps)
    ensures AllTimely(s, c, steps)
    decreases |steps|
  {
    if steps != [] && Possible(s, c, steps[0]) {
      CarefulIsTimely(s, c, steps[0]);
      StepKeepsInv(s, c, steps[0]);
      StepFitsExactly(s, c, steps[0]);
      CarefulRunsAreTimely(Next(s, c, steps[0]), c, steps[1..]);
    }
  }

  lemma CarefulRunsAreRight(s: State, c: Config, steps: seq<Step>)
    requires Good(s, c) && PendingFit(s.objects, s.uploads, s.finalizers) && AllCareful(s, c, steps)
    ensures AlwaysRight(s, c, steps)
  {
    CarefulRunsAreTimely(s, c, steps);
    TimelyRunsAreSound(s, c, steps);
    RunIsRightExactly(s, c, steps);
  }

  lemma CarefulWritersAreEnough(now: int, c: Config, steps: seq<Step>)
    requires AllCareful(Start(now), c, steps)
    ensures AlwaysRight(Start(now), c, steps)
  {
    CarefulRunsAreRight(Start(now), c, steps);
  }

  /** Over a sound run a reader gets the bytes that were finalized, as many as
      were recorded, from whichever representation and however merging, parts
      deletion, eviction and other readers interleave. */
  lemma ReadersGetWhatWasSaved(now: int, c: Config, steps: seq<Step>, id: nat)
    requires AllSound(Start(now), c, steps)
    ensures var end := Run(Start(now), c, steps);
            end.Some? && id in end.value.leases ==>
              var lease := end.value.leases[id];
              && lease.location in end.value.locations && lease.location in end.value.saved
              && Served(end.value, lease) == Flatten(end.value.saved[lease.location])
              && |Served(end.value, lease)| == Sum(end.value.locations[lease.location].sizes) <= MAX_INT64
  {
    var end := Run(Start(now), c, steps);
    SoundRunsAreGood(Start(now), c, steps);
    if end.Some? && id in end.value.leases {
      var lease := end.value.leases[id];
      LeasesProtect(end.value, c, id);
      ServedIsSaved(end.value, lease);
      FlattenLength(end.value.saved[lease.location]);
    }
  }

  // Inspections after the commit.

  lemma {:induction false} SavedStaysOver(s: State, c: Config, steps: seq<Step>, location: nat)
    requires Inv(s, c) && location in s.saved && location < s.next && Run(s, c, steps).Some?
    ensures var t := Run(s, c, steps).value; location in t.saved && t.saved[location] == s.saved[location]
    decreases |steps|
  {
    if steps != [] {
      SavedStays(s, c, steps[0], location);
      ClockRuns(s, c, steps[0]);
      StepKeepsInv(s, c, steps[0]);
      SavedStaysOver(Next(s, c, steps[0]), c, steps[1..], location);
    }
  }

  /** A part that is looked at in any state of a sound run has the size that it
      was finalized with, so a part index that is loaded later, one part at a
      time, is the one of the finalized parts. */
  lemma {:induction false} LaterSizesAreSaved(s: State, c: Config, steps: seq<Step>, moment: nat, location: nat, i: nat)
    requires Good(s, c) && AllSound(s, c, steps) && Run(s, c, steps).Some?
    requires moment <= |steps| && Run(s, c, steps[..moment]).Some?
    requires var u := Run(s, c, steps[..moment]).value;
             && location in u.locations && i < u.locations[location].partCount
             && Object(u.locations[location].folder, Part(i)) in u.objects
    ensures var t, u := Run(s, c, steps).value, Run(s, c, steps[..moment]).value;
            && location in t.saved && i < |t.saved[location]|
            && |u.objects[Object(u.locations[location].folder, Part(i))]| == |t.saved[location][i]|
    decreases |steps|
  {
    if moment == 0 {
      assert Keeps(s.objects, s.locations[location], s.saved[location]);
      SavedStaysOver(s, c, steps, location);
    } else {
      assert steps[..moment][1..] == steps[1..][..moment - 1];
      StepIsRight(s, c, steps[0]);
      LaterSizesAreSaved(Next(s, c, steps[0]), c, steps[1..], moment - 1, location, i);
    }
  }

  /** An inspection found this size for the part after `moment` steps. */
  ghost predicate FoundAt(s: State, c: Config, steps: seq<Step>, location: nat, i: nat, size: int, moment: nat) {
    && moment <= |steps| && Run(s, c, steps[..moment]).Some?
    && var u := Run(s, c, steps[..moment]).value;
       && location in u.locations && i < u.locations[location].partCount
       && var part := Object(u.locations[location].folder, Part(i));
          part in u.objects && |u.objects[part]| == size
  }

  lemma FoundIsSaved(s: State, c: Config, steps: seq<Step>, location: nat, i: nat, size: int, moment: nat)
    requires Good(s, c) && AllSound(s, c, steps) && Run(s, c, steps).Some?
    requires FoundAt(s, c, steps, location, i, size, moment)
    ensures var t := Run(s, c, steps).value;
            location in t.saved && i < |t.saved[location]| && size == |t.saved[location][i]|
  {
    LaterSizesAreSaved(s, c, steps, moment, location, i);
  }

  lemma EndIsRecorded(s: State, c: Config, steps: seq<Step>, location: nat)
    requires Good(s, c) && AllSound(s, c, steps) && Run(s, c, steps).Some?
    requires location in Run(s, c, steps).value.locations
    ensures var t := Run(s, c, steps).value;
            location in t.saved && |t.saved[location]| == t.locations[location].partCount
            && t.locations[location].sizes == Lengths(t.saved[location])
  {
    SoundRunsAreGood(s, c, steps);
    var t := Run(s, c, steps).value;
    assert Keeps(t.objects, t.locations[location], t.saved[location]);
  }

  /** So every later inspection agrees with the one of the finalization. */
  lemma LaterIndexIsRecorded(
    s: State, c: Config, steps: seq<Step>, location: nat, sizes: seq<int>, moments: seq<nat>)
    requires Good(s, c) && AllSound(s, c, steps) && Run(s, c, steps).Some?
    requires var t := Run(s, c, steps).value;
             location in t.locations && |sizes| == |moments| == t.locations[location].partCount
    requires forall i :: 0 <= i < |sizes| ==> FoundAt(s, c, steps, location, i, sizes[i], moments[i])
    ensures sizes == Run(s, c, steps).value.locations[location].sizes
  {
    var t := Run(s, c, steps).value;
    EndIsRecorded(s, c, steps, location);
    forall i | 0 <= i < |sizes|
      ensures sizes[i] == |t.saved[location][i]|
    {
      FoundIsSaved(s, c, steps, location, i, sizes[i], moments[i]);
    }
  }

  // Runs that are not sound.

  const FIRST := Object(0, Part(0))
  const SECOND := Object(0, Part(1))

  /** An upload of two parts, inspected in full. */
  function Inspected(tuple: Tuple, rest: seq<Step>): seq<Step> {
    [CreateUpload(0, tuple)] + ([WriteObject(FIRST, [7])] + ([WriteObject(SECOND, [5])]
      + ([BeginInspection(0, 2)] + ([SizePart(0, 0)] + ([SizePart(0, 1)] + rest)))))
  }

  function Uploaded(tuple: Tuple, objects: map<Object, Content>): State {
    Create(Start(0), 0, tuple).(objects := objects)
  }

  function Inspecting(tuple: Tuple, first: Content, sizes: map<nat, int>): State {
    Uploaded(tuple, map[FIRST := first, SECOND := [5]]).(finalizers := map[0 := Finalizer(0, tuple, 2, sizes)], next := 1)
  }

  lemma RunOne(s: State, c: Config, step: Step, rest: seq<Step>)
    requires Possible(s, c, step)
    ensures Run(s, c, [step] + rest) == Run(Next(s, c, step), c, rest)
  {
    assert ([step] + rest)[1..] == rest;
  }

  lemma PartsWritten(c: Config, tuple: Tuple, rest: seq<Step>)
    ensures Run(Uploaded(tuple, map[]), c, [WriteObject(FIRST, [7])] + ([WriteObject(SECOND, [5])] + rest))
         == Run(Uploaded(tuple, map[FIRST := [7], SECOND := [5]]), c, rest)
  {
    var s := Uploaded(tuple, map[]);
    var t := Uploaded(tuple, map[FIRST := [7]]);
    assert Next(s, c, WriteObject(FIRST, [7])) == t;
    RunOne(s, c, WriteObject(FIRST, [7]), [WriteObject(SECOND, [5])] + rest);
    assert Next(t, c, WriteObject(SECOND, [5])) == Uploaded(tuple, map[FIRST := [7], SECOND := [5]]);
    RunOne(t, c, WriteObject(SECOND, [5]), rest);
  }

  lemma SizesTaken(c: Config, tuple: Tuple, rest: seq<Step>)
    ensures Run(Inspecting(tuple, [7], map[]), c, [SizePart(0, 0)] + ([SizePart(0, 1)] + rest))
         == Run(Inspecting(tuple, [7], map[0 := 1, 1 := 1]), c, rest)
  {
    var s := Inspecting(tuple, [7], map[]);
    var t := Inspecting(tuple, [7], map[0 := 1]);
    assert Next(s, c, SizePart(0, 0)).finalizers == t.finalizers;
    RunOne(s, c, SizePart(0, 0), [SizePart(0, 1)] + rest);
    assert Next(t, c, SizePart(0, 1)).finalizers == Inspecting(tuple, [7], map[0 := 1, 1 := 1]).finalizers;
    RunOne(t, c, SizePart(0, 1), rest);
  }

  lemma InspectedRuns(c: Config, tuple: Tuple, rest: seq<Step>)
    ensures Run(Start(0), c, Inspected(tuple, rest)) == Run(Inspecting(tuple, [7], map[0 := 1, 1 := 1]), c, rest)
  {
    var uploaded := Uploaded(tuple, map[FIRST := [7], SECOND := [5]]);
    var inspection := [BeginInspection(0, 2)] + ([SizePart(0, 0)] + ([SizePart(0, 1)] + rest));
    assert Create(Start(0), 0, tuple) == Uploaded(tuple, map[]);
    RunOne(Start(0), c, CreateUpload(0, tuple), [WriteObject(FIRST, [7])] + ([WriteObject(SECOND, [5])] + inspection));
    PartsWritten(c, tuple, inspection);
    assert Next(uploaded, c, BeginInspection(0, 2)) == Inspecting(tuple, [7], map[]);
    RunOne(uploaded, c, BeginInspection(0, 2), [SizePart(0, 0)] + ([SizePart(0, 1)] + rest));
    SizesTaken(c, tuple, rest);
  }

  lemma CanCommit(tuple: Tuple, first: Content)
    ensures var s := Inspecting(tuple, first, map[0 := 1, 1 := 1]); CanFinalize(s, 0) && SizesFound(s.finalizers[0]) == [1, 1]
  {
    assert SizesFound(Inspecting(tuple, first, map[0 := 1, 1 := 1]).finalizers[0]) == [1, 1];
    assert Sum([1, 1]) == 2;
  }

  lemma ContentsOfTwo(objects: map<Object, Content>)
    requires FIRST in objects && SECOND in objects
    ensures PartContents(objects, 0, 2) == [objects[FIRST], objects[SECOND]]
  {
    assert PartContents(objects, 0, 1) == [objects[FIRST]];
  }

  /** What the commit makes of two parts whose sizes were found to be 1. */
  lemma Committed(c: Config, tuple: Tuple, first: Content)
    ensures var s := Inspecting(tuple, first, map[0 := 1, 1 := 1]);
            CanFinalize(s, 0)
            && var t := Finalize(s, c, 0);
               && t.objects == s.objects && 1 in t.locations && t.locations[1].folder == 0
               && t.locations[1].partCount == 2 && t.locations[1].sizes == [1, 1]
               && t.saved == map[1 := [first, [5]]] && 0 in t.owner
  {
    var s := Inspecting(tuple, first, map[0 := 1, 1 := 1]);
    CanCommit(tuple, first);
    FinalizeMakes(s, c, 0);
    FinalizeKeepsObjects(s, c, 0);
    FinalizeFrame(s, c, 0);
    ContentsOfTwo(s.objects);
  }

  function LateWrite(tuple: Tuple): seq<Step> {
    Inspected(tuple, [CompleteUpload(0)] + [WriteObject(FIRST, [8])])
  }

  /** A part that is still being written when its upload is finalized changes
      the cache afterwards. */
  lemma LateWriteIsSeen(c: Config, tuple: Tuple)
    ensures var end := Run(Start(0), c, LateWrite(tuple)); end.Some? && !Faithful(end.value)
  {
    var late := WriteObject(FIRST, [8]);
    var s := Inspecting(tuple, [7], map[0 := 1, 1 := 1]);
    InspectedRuns(c, tuple, [CompleteUpload(0)] + [late]);
    Committed(c, tuple, [7]);
    RunOne(s, c, CompleteUpload(0), [late]);
    var t := Finalize(s, c, 0);
    RunOne(t, c, late, []);
    assert [late] + [] == [late];
    assert !Keeps(t.objects[FIRST := [8]], t.locations[1], t.saved[1]);
  }

  function EarlyWrite(tuple: Tuple): seq<Step> {
    Inspected(tuple, [WriteObject(FIRST, [7, 8, 9])] + [CompleteUpload(0)])
  }

  /** A part that is still being written when its upload is inspected leaves
      sizes behind that are not those of the finalized parts, though it was
      written before the commit and the contents are what was finalized. */
  lemma EarlyWriteIsMisrecorded(c: Config, tuple: Tuple)
    ensures var end := Run(Start(0), c, EarlyWrite(tuple));
            end.Some? && 1 in end.value.locations && 1 in end.value.saved
            && var l := end.value.locations[1];
               && Keeps(end.value.objects, l, end.value.saved[1]) && HasParts(end.value.objects, 0, 2)
               && l.folder == 0 && l.partCount == 2 && l.sizes == [1, 1] && end.value.saved[1] == [[7, 8, 9], [5]]
  {
    EarlyWriteRuns(c, tuple);
    Committed(c, tuple, [7, 8, 9]);
    var t := Finalize(Inspecting(tuple, [7, 8, 9], map[0 := 1, 1 := 1]), c, 0);
    CommittedParts(t.objects, t.locations[1]);
  }

  lemma CommittedParts(objects: map<Object, Content>, l: Location)
    requires objects == map[FIRST := [7, 8, 9], SECOND := [5]]
    requires l.folder == 0 && l.partCount == 2
    ensures HasParts(objects, 0, 2) && Keeps(objects, l, [[7, 8, 9], [5]])
  {
  }

  lemma EarlyWriteRuns(c: Config, tuple: Tuple)
    ensures var t := Inspecting(tuple, [7, 8, 9], map[0 := 1, 1 := 1]);
            CanFinalize(t, 0) && Run(Start(0), c, EarlyWrite(tuple)) == Some(Finalize(t, c, 0))
  {
    var early := WriteObject(FIRST, [7, 8, 9]);
    var s := Inspecting(tuple, [7], map[0 := 1, 1 := 1]);
    var t := Inspecting(tuple, [7, 8, 9], map[0 := 1, 1 := 1]);
    InspectedRuns(c, tuple, [early] + [CompleteUpload(0)]);
    assert Next(s, c, early) == t;
    RunOne(s, c, early, [CompleteUpload(0)]);
    Committed(c, tuple, [7, 8, 9]);
    RunOne(t, c, CompleteUpload(0), []);
    assert [CompleteUpload(0)] + [] == [CompleteUpload(0)];
  }
}
