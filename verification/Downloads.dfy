/** Opening a byte range of a cache in any of its representations
    (internal/cache/download.go): the merged object, a single part, or several
    parts. Each function describes one open over a snapshot of the stored
    objects. */
module Downloads {
  import opened ByteRanges
  import opened ComposePlanning
  import opened Int64
  import opened ObjectNames
  import opened ObjectStreams
  import opened Octets
  import opened Options
  import opened PartIndexes
  import opened PartsReading
  import opened RangedPartsReading
  import opened Sequences

  datatype Location = Location(folder: string, partCount: int, sizeBytes: Option<int64>)

  /** What the opened stream reads from. */
  datatype Source =
    | OneObject(name: string, offset: int64, count: int64)
    | ManyParts(folder: string, index: PartIndex, offset: int64, count: int64)

  datatype OpenResult =
    | Opened(total: int64, selected: DownloadRange, source: Source)
    | NotFound
    | RangeRejected(total: int64, reason: Resolution)
    | InvalidPartCount
    | LookupError
    | SizeMismatch(total: int64)

  /** The part index, from the cache or from an inspection of the folder. */
  datatype Lookup = Found(index: PartIndex) | PartMissing | LookupFailed

  /** The recorded size, -1 when it is not known. */
  function ContentLength(size: Option<int64>): int64 {
    if size.None? || size.value < 0 then -1 else size.value
  }

  /** The recorded size, or the size of the stored object. */
  function ObjectSize(objects: map<string, Bytes>, name: string, recorded: Option<int64>): Option<int64>
    requires name in objects ==> |objects[name]| <= MAX_INT64
  {
    if recorded.Some? && recorded.value >= 0 then recorded
    else if name in objects then Some(|objects[name]|)
    else None
  }

  function OpenObject(objects: map<string, Bytes>, name: string, recorded: Option<int64>, ranges: seq<ByteRange>): OpenResult
    requires name in objects ==> |objects[name]| <= MAX_INT64
  {
    var total := ObjectSize(objects, name, recorded);
    if total.None? then NotFound
    else
      var selected := ResolveByteRanges(ranges, total.value);
      if !selected.Resolved? then RangeRejected(total.value, selected)
      else if name !in objects then NotFound
      else Opened(total.value, selected.range, OneObject(name, selected.range.offset, selected.range.count))
  }

  function OpenRangedMerged(objects: map<string, Bytes>, location: Location, ranges: seq<ByteRange>): OpenResult
    requires MergedObject(location.folder) in objects ==> |objects[MergedObject(location.folder)]| <= MAX_INT64
  {
    OpenObject(objects, MergedObject(location.folder), location.sizeBytes, ranges)
  }

  function OpenRangedParts(
    objects: map<string, Bytes>, location: Location, ranges: seq<ByteRange>, lookup: Lookup): OpenResult
    requires PartObject(location.folder, 0) in objects ==> |objects[PartObject(location.folder, 0)]| <= MAX_INT64
  {
    if location.partCount < 0 then InvalidPartCount
    else if location.partCount == 0 then RangeRejected(0, ResolveByteRanges(ranges, 0))
    else if location.partCount == 1 then
      OpenObject(objects, PartObject(location.folder, 0), location.sizeBytes, ranges)
    else
      var known := ContentLength(location.sizeBytes);
      var early := ResolveByteRanges(ranges, known);
      if known >= 0 && !early.Resolved? then RangeRejected(known, early)
      else if lookup.PartMissing? then NotFound
      else if lookup.LookupFailed? then LookupError
      else
        var total := lookup.index.total;
        if known >= 0 && total != known then SizeMismatch(total)
        else
          var selected := if known >= 0 then early else ResolveByteRanges(ranges, total);
          if !selected.Resolved? then RangeRejected(total, selected)
          else Opened(total, selected.range,
                      ManyParts(location.folder, lookup.index, selected.range.offset, selected.range.count))
  }

  /** The part and offset a reader of several parts starts at. */
  ghost function LocateFrom(index: PartIndex, offset: int, part: nat): nat
    requires part <= |index.ends|
    decreases |index.ends| - part
  {
    if part == |index.ends| || index.ends[part] > offset then part else LocateFrom(index, offset, part + 1)
  }

  /** The bytes a reader of this source has returned at a clean end. */
  ghost function Served(objects: map<string, Bytes>, source: Source): Bytes
    requires source.offset >= 0 && source.count >= 0
  {
    match source
    case OneObject(name, offset, count) => if name in objects then Clip(objects[name], offset, count) else []
    case ManyParts(folder, index, offset, count) =>
      var part := LocateFrom(index, offset, 0);
      var inPart := if part < |index.ends| then offset - index.Start(part) else 0;
      if inPart < 0 then []
      else Flatten(StoredPieces(objects, folder, Plan(index, part, inPart, count)))
  }

  lemma {:induction false} LocateFromLocates(index: PartIndex, contents: seq<Bytes>, offset: int, part: nat)
    requires index.Describes(Lengths(contents)) && part <= |contents| && offset >= 0
    requires index.Start(part) <= offset
    ensures var p := LocateFrom(index, offset, part);
      part <= p <= |contents| && index.Start(p) <= offset && (p < |contents| ==> offset < index.ends[p])
    decreases |contents| - part
  {
    if part < |contents| && index.ends[part] <= offset {
      LocateFromLocates(index, contents, offset, part + 1);
    }
  }

  lemma {:induction false} FirstEndBehind(index: PartIndex, offset: int, from: nat, part: nat)
    requires from <= part <= |index.ends|
    requires forall k :: from <= k < part ==> index.ends[k] <= offset
    requires part < |index.ends| ==> offset < index.ends[part]
    ensures LocateFrom(index, offset, from) == part
    decreases part - from
  {
    if from < part {
      FirstEndBehind(index, offset, from + 1, part);
    }
  }

  /** What is served from several parts is what the reader returns: the stored
      bytes of the plan that it starts with. That holds for every index, also
      one that does not fit the stored parts. */
  lemma ServedIsRead(
    objects: map<string, Bytes>, folder: string, index: PartIndex, sizes: seq<int>, offset: int64, count: int64,
    part: nat, partOffset: nat)
    requires index.Describes(sizes) && offset >= 0 && count >= 0
    requires Located(index, offset, part, partOffset)
    ensures Served(objects, ManyParts(folder, index, offset, count))
         == Flatten(StoredPieces(objects, folder, Plan(index, part, partOffset, count)))
  {
    forall k | 0 <= k < part
      ensures index.ends[k] <= offset
    {
      if part < |sizes| {
        SumMonotone(sizes, k + 1, part);
        StartsAreSums(index, sizes, part);
      }
    }
    FirstEndBehind(index, offset, 0, part);
  }

  /** Every clean end of a reader over these parts has served the selected slice
      of their concatenation. */
  lemma PartsServeSlice(
    objects: map<string, Bytes>, folder: string, index: PartIndex, contents: seq<Bytes>, offset: int64, count: int64)
    requires index.Describes(Lengths(contents)) && PartsAre(objects, folder, contents)
    requires 0 <= offset && 1 <= count && offset + count <= |Flatten(contents)|
    ensures Served(objects, ManyParts(folder, index, offset, count)) == Flatten(contents)[offset..offset + count]
  {
    LocatedBelow(index, contents, offset);
    var part := LocateFrom(index, offset, 0);
    var inPart := offset - index.Start(part);
    SelectionIsServable(objects, folder, index, contents, offset, count, part, inPart);
    ServedIsRead(objects, folder, index, Lengths(contents), offset, count, part, inPart);
  }

  lemma LocatedBelow(index: PartIndex, contents: seq<Bytes>, offset: nat)
    requires index.Describes(Lengths(contents)) && offset < |Flatten(contents)|
    ensures var part := LocateFrom(index, offset, 0);
      part < |contents| && index.Start(part) <= offset && Located(index, offset, part, offset - index.Start(part))
  {
    LocateFromLocates(index, contents, offset, 0);
    FlattenLength(contents);
    StartsAreSums(index, Lengths(contents), |contents|);
    assert Lengths(contents)[..|contents|] == Lengths(contents);
  }

  /** The recorded size, if any, is that of these parts. */
  ghost predicate SizeRecorded(location: Location, contents: seq<Bytes>) {
    && location.partCount == |contents| >= 1
    && |Flatten(contents)| <= MAX_INT64
    && (ContentLength(location.sizeBytes) >= 0 ==> location.sizeBytes.value == |Flatten(contents)|)
  }

  /** A finalized location whose parts are still there. */
  ghost predicate Finalized(objects: map<string, Bytes>, location: Location, contents: seq<Bytes>) {
    SizeRecorded(location, contents) && PartsAre(objects, location.folder, contents)
  }

  ghost predicate Merged(objects: map<string, Bytes>, location: Location, contents: seq<Bytes>) {
    var name := MergedObject(location.folder);
    name in objects && objects[name] == Flatten(contents)
  }

  /** The range of the whole content that is asked for, and nothing else. */
  ghost predicate ServesContent(objects: map<string, Bytes>, content: Bytes, ranges: seq<ByteRange>, r: OpenResult) {
    if |content| > MAX_INT64 then false
    else
      match ResolveByteRanges(ranges, |content|)
      case Resolved(range) =>
        && r.Opened? && r.total == |content| && r.selected == range
        && range.offset >= 0 && range.count >= 1 && range.offset + range.count <= |content|
        && r.source.offset == range.offset && r.source.count == range.count
        && Served(objects, r.source) == content[range.offset..range.offset + range.count]
      case reason => r == RangeRejected(|content|, reason)
  }

  lemma ResolvedLiesWithin(ranges: seq<ByteRange>, size: int64)
    requires ResolveByteRanges(ranges, size).Resolved?
    ensures var d := ResolveByteRanges(ranges, size).range; 0 <= d.offset && 1 <= d.count && d.offset + d.count <= size
  {
    ResolutionIsCorrect(ranges, size);
  }

  lemma OneObjectServes(objects: map<string, Bytes>, name: string, recorded: Option<int64>, ranges: seq<ByteRange>)
    requires name in objects && |objects[name]| <= MAX_INT64
    requires ContentLength(recorded) >= 0 ==> recorded.value == |objects[name]|
    ensures ServesContent(objects, objects[name], ranges, OpenObject(objects, name, recorded, ranges))
  {
    var size := |objects[name]|;
    if ResolveByteRanges(ranges, size).Resolved? {
      ResolvedLiesWithin(ranges, size);
    }
  }

  lemma MergedServes(objects: map<string, Bytes>, location: Location, contents: seq<Bytes>, ranges: seq<ByteRange>)
    requires SizeRecorded(location, contents) && Merged(objects, location, contents)
    ensures ServesContent(objects, Flatten(contents), ranges, OpenRangedMerged(objects, location, ranges))
  {
    OneObjectServes(objects, MergedObject(location.folder), location.sizeBytes, ranges);
  }

  lemma PartsServe(
    objects: map<string, Bytes>, location: Location, contents: seq<Bytes>, ranges: seq<ByteRange>, lookup: Lookup)
    requires Finalized(objects, location, contents)
    requires |contents| > 1 ==> lookup.Found? && lookup.index.Describes(Lengths(contents))
    requires |objects[PartObject(location.folder, 0)]| <= MAX_INT64
    ensures ServesContent(objects, Flatten(contents), ranges, OpenRangedParts(objects, location, ranges, lookup))
  {
    if |contents| == 1 {
      assert Flatten(contents) == contents[0];
      OneObjectServes(objects, PartObject(location.folder, 0), location.sizeBytes, ranges);
    } else {
      FlattenLength(contents);
      SelectionFromParts(objects, location.folder, contents, ranges, lookup.index);
    }
  }

  lemma SelectionFromParts(
    objects: map<string, Bytes>, folder: string, contents: seq<Bytes>, ranges: seq<ByteRange>, index: PartIndex)
    requires index.Describes(Lengths(contents)) && PartsAre(objects, folder, contents)
    requires index.total == |Flatten(contents)|
    ensures ServesContent(objects, Flatten(contents), ranges,
      var selected := ResolveByteRanges(ranges, index.total);
      if !selected.Resolved? then RangeRejected(index.total, selected)
      else Opened(index.total, selected.range, ManyParts(folder, index, selected.range.offset, selected.range.count)))
  {
    var selected := ResolveByteRanges(ranges, index.total);
    if selected.Resolved? {
      ResolvedLiesWithin(ranges, index.total);
      PartsServeSlice(objects, folder, index, contents, selected.range.offset, selected.range.count);
    }
  }

  /** Which representation serves a range makes no difference: the same total,
      the same selected range, the same bytes, or the same rejection. */
  lemma RepresentationsAgree(
    objects: map<string, Bytes>, location: Location, contents: seq<Bytes>, ranges: seq<ByteRange>, lookup: Lookup)
    requires Finalized(objects, location, contents) && Merged(objects, location, contents)
    requires |contents| > 1 ==> lookup.Found? && lookup.index.Describes(Lengths(contents))
    requires |objects[PartObject(location.folder, 0)]| <= MAX_INT64
    ensures var merged, parts := OpenRangedMerged(objects, location, ranges), OpenRangedParts(objects, location, ranges, lookup);
      if merged.Opened? then
        && parts.Opened? && parts.total == merged.total && parts.selected == merged.selected
        && merged.source.offset >= 0 && merged.source.count >= 0 && parts.source.offset >= 0 && parts.source.count >= 0
        && Served(objects, parts.source) == Served(objects, merged.source)
      else parts == merged
  {
    MergedServes(objects, location, contents, ranges);
    PartsServe(objects, location, contents, ranges, lookup);
  }

  /** A wrong recorded size of a cache of several parts is never served from. */
  lemma WrongSizeIsRefused(
    objects: map<string, Bytes>, location: Location, contents: seq<Bytes>, ranges: seq<ByteRange>, lookup: Lookup)
    requires |contents| == location.partCount > 1
    requires lookup.Found? && lookup.index.Describes(Lengths(contents))
    requires ContentLength(location.sizeBytes) >= 0 && location.sizeBytes.value != |Flatten(contents)|
    requires PartObject(location.folder, 0) in objects ==> |objects[PartObject(location.folder, 0)]| <= MAX_INT64
    ensures var r := OpenRangedParts(objects, location, ranges, lookup); r.RangeRejected? || r.SizeMismatch?
  {
    FlattenLength(contents);
  }

  const STALE := PartIndex([1, 2], 2)

  lemma FlattenTwo<T>(a: seq<T>, b: seq<T>)
    ensures Flatten([a, b]) == a + b
  {
    assert [a, b][1..] == [b];
    assert Flatten([b]) == b + [];
  }

  lemma StalePlan(objects: map<string, Bytes>, folder: string, contents: seq<Bytes>)
    requires PartsAre(objects, folder, contents) && |contents| == 2 && |contents[0]| >= 1 && |contents[1]| >= 1
    ensures Served(objects, ManyParts(folder, STALE, 0, 2)) == [contents[0][0], contents[1][0]]
  {
    var plan := [Piece(0, 0, 1), Piece(1, 0, 1)];
    assert Plan(STALE, 2, 0, 0) == [];
    assert Plan(STALE, 1, 0, 1) == [plan[1]] + [];
    assert Plan(STALE, 0, 0, 2) == plan;
    var stored := StoredPieces(objects, folder, plan);
    StoredPieceAt(objects, folder, plan, 0);
    StoredPieceAt(objects, folder, plan, 1);
    assert stored[0] == contents[0][..1] && stored[1] == contents[1][..1];
    assert stored == [stored[0], stored[1]];
    FlattenTwo(stored[0], stored[1]);
  }

  /** An index that does not fit the parts is believed as long as its total is
      the recorded size: this reader gets bytes that are not the ones at its
      range, and no error. */
  lemma StaleIndexIsBelieved(objects: map<string, Bytes>, folder: string, contents: seq<Bytes>)
    requires PartsAre(objects, folder, contents) && contents == [[7, 8, 9], [5]]
    requires |objects[PartObject(folder, 0)]| <= MAX_INT64
    ensures var r := OpenRangedParts(objects, Location(folder, 2, Some(2)), [Closed(0, 1)], Found(STALE));
      r.Opened? && r.source == ManyParts(folder, STALE, 0, 2)
      && Served(objects, r.source) == [7, 5] && Flatten(contents) == [7, 8, 9, 5] && Flatten(contents)[0..2] == [7, 8]
  {
    StalePlan(objects, folder, contents);
    FlattenTwo(contents[0], contents[1]);
  }

  /** The range is rejected by the recorded size, before storage is asked. */
  predicate RejectedEarly(location: Location, ranges: seq<ByteRange>) {
    var known := ContentLength(location.sizeBytes);
    known >= 0 && !ResolveByteRanges(ranges, known).Resolved?
  }

  /** How an open of the merged object fails: as missing exactly when it is
      missing and the recorded size, if any, does not reject the range first. */
  lemma MergedFailsExactly(objects: map<string, Bytes>, location: Location, ranges: seq<ByteRange>)
    requires MergedObject(location.folder) in objects ==> |objects[MergedObject(location.folder)]| <= MAX_INT64
    ensures var name, r := MergedObject(location.folder), OpenRangedMerged(objects, location, ranges);
            && (r.NotFound? <==> name !in objects && !RejectedEarly(location, ranges))
            && (r.Opened? || r.NotFound? || r.RangeRejected?)
            && (r.Opened? ==> name in objects)
            && (r.RangeRejected? <==>
                  || RejectedEarly(location, ranges)
                  || (&& ContentLength(location.sizeBytes) < 0 && name in objects
                      && !ResolveByteRanges(ranges, |objects[name]|).Resolved?))
  {
  }

  /** How an open of several parts fails. A recorded size that rejects the range
      does so first; then a part that is missing, a lookup that failed and a
      total that is not the recorded one are told apart. */
  lemma PartsFailExactly(objects: map<string, Bytes>, location: Location, ranges: seq<ByteRange>, lookup: Lookup)
    requires PartObject(location.folder, 0) in objects ==> |objects[PartObject(location.folder, 0)]| <= MAX_INT64
    requires location.partCount != 0 && location.partCount != 1
    ensures var r, known := OpenRangedParts(objects, location, ranges, lookup), ContentLength(location.sizeBytes);
            var asked := location.partCount > 0 && !RejectedEarly(location, ranges);
            && (r.InvalidPartCount? <==> location.partCount < 0)
            && (r.NotFound? <==> asked && lookup.PartMissing?)
            && (r.LookupError? <==> asked && lookup.LookupFailed?)
            && (r.SizeMismatch? <==> asked && lookup.Found? && known >= 0 && lookup.index.total != known)
            && (r.RangeRejected? <==>
                  || (location.partCount > 0 && RejectedEarly(location, ranges))
                  || (asked && lookup.Found? && known < 0 && !ResolveByteRanges(ranges, lookup.index.total).Resolved?))
  {
  }

  /** A cache without parts has no byte to select. */
  lemma NoPartsNoRange(objects: map<string, Bytes>, location: Location, ranges: seq<ByteRange>, lookup: Lookup)
    requires location.partCount == 0
    requires PartObject(location.folder, 0) in objects ==> |objects[PartObject(location.folder, 0)]| <= MAX_INT64
    ensures var r := OpenRangedParts(objects, location, ranges, lookup);
      r.RangeRejected? && !r.reason.Resolved? && !r.reason.InvalidSize?
  {
    ResolutionIsCorrect(ranges, 0);
  }

  function PartNames(folder: string, count: nat): seq<string> {
    seq(count, i requires 0 <= i < count => PartObject(folder, i))
  }

  /** What materialization composes is what the whole-cache reader returns. */
  lemma {:induction false} ComposedPartsAreStoredParts(objects: map<string, Bytes>, folder: string, names: seq<string>, n: nat)
    requires PartsPresent(objects, folder, n) && n <= |names|
    requires forall i :: 0 <= i < n ==> names[i] == PartObject(folder, i)
    ensures Sources(objects, names, n) == StoredParts(objects, folder, n)
  {
    if n > 0 {
      ComposedPartsAreStoredParts(objects, folder, names, n - 1);
    }
  }

  /** The merged object is in place, nothing else changed, and it holds what the
      whole-cache reader returns exactly when no part was dropped. */
  ghost predicate MergeLanded(before: map<string, Bytes>, after: map<string, Bytes>, folder: string, partCount: nat) {
    && PartsPresent(before, folder, partCount)
    && after.Keys == before.Keys + {MergedObject(folder)}
    && (forall name :: name in before && name != MergedObject(folder) ==> after[name] == before[name])
    && (after[MergedObject(folder)] == Flatten(StoredParts(before, folder, partCount)) <==>
          forall i :: 0 <= i < partCount ==> Roundable(|before[PartObject(folder, i)]|))
  }

  /** The parts are there, not too many, and of sizes that can be planned. */
  ghost predicate Mergeable(objects: map<string, Bytes>, folder: string, partCount: nat)
    requires AllFit(objects)
  {
    && 1 <= partCount <= MAX_PARTS && AllThere(objects, PartNames(folder, partCount))
    && Acceptable(SourceSizes(objects, PartNames(folder, partCount)))
  }

  lemma NamesAreThere(objects: map<string, Bytes>, folder: string, partCount: nat)
    ensures AllThere(objects, PartNames(folder, partCount)) <==> PartsPresent(objects, folder, partCount)
  {
    if AllThere(objects, PartNames(folder, partCount)) {
      forall i | 0 <= i < partCount
        ensures PartObject(folder, i) in objects
      {
        assert PartNames(folder, partCount)[i] in objects;
      }
    }
  }

  /** The background job: compose the parts into the merged object. */
  method Materialize(store: ObjectStore, folder: string, partCount: nat) returns (outcome: ComposeOutcome)
    requires AllFit(store.objects)
    modifies store
    ensures store.reliable && store.capable ==>
      (outcome == Composed <==> Mergeable(old(store.objects), folder, partCount))
    ensures outcome == Composed ==> Mergeable(old(store.objects), folder, partCount)
    ensures outcome == ComposeUnsupported ==>
      || !store.capable || partCount == 0 || partCount > MAX_PARTS
      || (PartsPresent(old(store.objects), folder, partCount) && !Mergeable(old(store.objects), folder, partCount))
    ensures outcome == SourceNotFound ==> !PartsPresent(old(store.objects), folder, partCount)
    ensures outcome == ComposeFailed ==> !store.reliable
    ensures outcome == Composed ==> MergeLanded(old(store.objects), store.objects, folder, partCount)
    ensures outcome == ComposeFailed ==>
      store.objects == old(store.objects) || MergeLanded(old(store.objects), store.objects, folder, partCount)
    ensures outcome !in {Composed, ComposeFailed} ==> store.objects == old(store.objects)
  {
    var names := PartNames(folder, partCount);
    NamesAreThere(store.objects, folder, partCount);
    outcome := store.ComposeObjects(MergedObject(folder), names);
    if Landed(old(store.objects), store.objects, MergedObject(folder), names) {
      assert forall i :: 0 <= i < partCount ==> names[i] == PartObject(folder, i);
      ComposedPartsAreStoredParts(old(store.objects), folder, names, partCount);
    }
  }
}
