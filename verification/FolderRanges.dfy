/** Byte ranges of stored folders: that the protocol gives ranged readers the
    sizes and the objects they rely on. */
module FolderRanges {
  import opened ByteRanges
  import opened Decimals
  import Downloads
  import opened FolderContents
  import opened FolderNames
  import opened FolderOwnership
  import opened FolderProtocol
  import opened FolderReads
  import opened Int64
  import opened ObjectNames
  import opened Octets
  import opened Options
  import opened PartIndexes
  import opened RangedPartsReading
  import opened Sequences

  lemma NamesAreApart()
    ensures forall a, b :: NameOf(a) == NameOf(b) ==> a == b
  {
    forall a, b | NameOf(a) == NameOf(b)
      ensures a == b
    {
      NameInjective(a, b);
    }
  }

  /** The objects under the names that storage knows them by. */
  ghost function Stored(objects: map<Object, Content>): map<string, Bytes> {
    NamesAreApart();
    map obj <- objects :: NameOf(obj) := objects[obj]
  }

  lemma StoredHolds(objects: map<Object, Content>, obj: Object)
    ensures NameOf(obj) in Stored(objects) <==> obj in objects
    ensures obj in objects ==> Stored(objects)[NameOf(obj)] == objects[obj]
  {
    NamesAreApart();
  }

  /** The location as a download sees it; a row from before sizes were recorded
      has none. */
  ghost predicate RowOf(l: Location, row: Downloads.Location) {
    && row.folder == Itoa(l.folder) && row.partCount == l.partCount
    && (row.sizeBytes.Some? ==> row.sizeBytes.value == Sum(l.sizes))
  }

  ghost predicate Fits(objects: map<string, Bytes>, folder: string) {
    && (MergedObject(folder) in objects ==> |objects[MergedObject(folder)]| <= MAX_INT64)
    && (PartObject(folder, 0) in objects ==> |objects[PartObject(folder, 0)]| <= MAX_INT64)
  }

  lemma {:induction false} PartIsShorter(contents: seq<Content>, i: nat)
    requires i < |contents|
    ensures |contents[i]| <= |Flatten(contents)|
  {
    if i > 0 {
      PartIsShorter(contents[1..], i - 1);
    }
  }

  lemma KeptFits(objects: map<Object, Content>, l: Location, saved: seq<Content>)
    requires Keeps(objects, l, saved) && l.partCount >= 1 && |Flatten(saved)| <= MAX_INT64
    ensures Fits(Stored(objects), Itoa(l.folder))
  {
    StoredHolds(objects, Object(l.folder, Merged));
    StoredHolds(objects, Object(l.folder, Part(0)));
    PartIsShorter(saved, 0);
  }

  lemma KeptParts(objects: map<Object, Content>, l: Location, saved: seq<Content>)
    requires Keeps(objects, l, saved) && HasParts(objects, l.folder, l.partCount)
    ensures PartsAre(Stored(objects), Itoa(l.folder), saved)
  {
    forall i | 0 <= i < |saved|
      ensures var name := PartObject(Itoa(l.folder), i); name in Stored(objects) && Stored(objects)[name] == saved[i]
    {
      StoredHolds(objects, Object(l.folder, Part(i)));
    }
  }

  lemma KeptMerged(objects: map<Object, Content>, l: Location, row: Downloads.Location, saved: seq<Content>)
    requires Keeps(objects, l, saved) && Object(l.folder, Merged) in objects && RowOf(l, row)
    ensures Downloads.Merged(Stored(objects), row, saved)
  {
    StoredHolds(objects, Object(l.folder, Merged));
  }

  /** What a ranged open of the leased representation gives. */
  ghost function OpenLeased(
    objects: map<string, Bytes>, scope: Scope, row: Downloads.Location, ranges: seq<ByteRange>, index: PartIndex): Downloads.OpenResult
    requires Fits(objects, row.folder)
  {
    match scope
    case Storage => Downloads.OpenRangedMerged(objects, row, ranges)
    case PartsScope => Downloads.OpenRangedParts(objects, row, ranges, Downloads.Found(index))
  }

  lemma LeasedServes(s: State, c: Config, lease: Lease, row: Downloads.Location, ranges: seq<ByteRange>, index: PartIndex)
    requires Good(s, c) && Protected(s, lease)
    requires RowOf(s.locations[lease.location], row) && index.Describes(s.locations[lease.location].sizes)
    ensures lease.location in s.saved && Fits(Stored(s.objects), row.folder)
    ensures Downloads.ServesContent(Stored(s.objects), Flatten(s.saved[lease.location]), ranges,
                                    OpenLeased(Stored(s.objects), lease.scope, row, ranges, index))
  {
    var l, saved := s.locations[lease.location], s.saved[lease.location];
    assert Keeps(s.objects, l, saved);
    FlattenLength(saved);
    KeptFits(s.objects, l, saved);
    match lease.scope
    case Storage =>
      KeptMerged(s.objects, l, row, saved);
      Downloads.MergedServes(Stored(s.objects), row, saved, ranges);
    case PartsScope =>
      KeptParts(s.objects, l, saved);
      Downloads.PartsServe(Stored(s.objects), row, saved, ranges, Downloads.Found(index));
  }

  /** Over a sound run a ranged reader gets the range of the bytes that were
      finalized, or its rejection, from whichever representation it has leased
      and with the index of the finalization or of any later inspection. */
  lemma RangesOfWhatWasSaved(
    now: int, c: Config, steps: seq<Step>, id: nat, row: Downloads.Location, ranges: seq<ByteRange>, index: PartIndex)
    requires AllSound(Start(now), c, steps) && Run(Start(now), c, steps).Some?
    requires var end := Run(Start(now), c, steps).value;
             && id in end.leases && end.leases[id].location in end.locations
             && RowOf(end.locations[end.leases[id].location], row)
             && index.Describes(end.locations[end.leases[id].location].sizes)
    ensures var end := Run(Start(now), c, steps).value;
            var lease := end.leases[id];
            && lease.location in end.saved && Fits(Stored(end.objects), row.folder)
            && Downloads.ServesContent(Stored(end.objects), Flatten(end.saved[lease.location]), ranges,
                                       OpenLeased(Stored(end.objects), lease.scope, row, ranges, index))
  {
    var end := Run(Start(now), c, steps).value;
    SoundRunsAreGood(Start(now), c, steps);
    LeasesProtect(end, c, id);
    LeasedServes(end, c, end.leases[id], row, ranges, index);
  }

  /** A ranged reader of the parts gets other bytes than those at its range, and
      no error. */
  ghost predicate ServedWrong(s: State, location: nat, row: Downloads.Location, ranges: seq<ByteRange>, index: PartIndex) {
    && location in s.locations && location in s.saved && Fits(Stored(s.objects), row.folder)
    && RowOf(s.locations[location], row) && index.Describes(s.locations[location].sizes)
    && var r := Downloads.OpenRangedParts(Stored(s.objects), row, ranges, Downloads.Found(index));
       && r.Opened? && 0 <= r.source.offset && 0 <= r.source.count
       && r.source.offset + r.source.count <= |Flatten(s.saved[location])|
       && Downloads.Served(Stored(s.objects), r.source)
          != Flatten(s.saved[location])[r.source.offset..r.source.offset + r.source.count]
  }

  lemma MisrecordedIsServedWrong(s: State, location: nat)
    requires location in s.locations && location in s.saved && s.saved[location] == [[7, 8, 9], [5]]
    requires var l := s.locations[location];
             && Keeps(s.objects, l, s.saved[location]) && HasParts(s.objects, l.folder, 2)
             && l.partCount == 2 && l.sizes == [1, 1]
    ensures ServedWrong(s, location, Downloads.Location(Itoa(s.locations[location].folder), 2, Some(2)), [Closed(0, 1)], Downloads.STALE)
  {
    var l, saved := s.locations[location], s.saved[location];
    StaleIndexIsRecorded(l.sizes);
    MisrecordedIsOpened(s.objects, l, saved);
  }

  lemma StaleIndexIsRecorded(sizes: seq<int>)
    requires sizes == [1, 1]
    ensures Sum(sizes) == 2 && Downloads.STALE.Describes(sizes)
  {
    assert sizes[1..] == [1] && [1][1..] == [] && sizes[..1] == [1] && sizes[..2] == sizes;
  }

  lemma MisrecordedIsOpened(objects: map<Object, Content>, l: Location, saved: seq<Content>)
    requires saved == [[7, 8, 9], [5]] && Keeps(objects, l, saved) && HasParts(objects, l.folder, 2)
    ensures Fits(Stored(objects), Itoa(l.folder)) && Flatten(saved) == [7, 8, 9, 5] && Flatten(saved)[0..2] == [7, 8]
    ensures var r := Downloads.OpenRangedParts(
                       Stored(objects), Downloads.Location(Itoa(l.folder), 2, Some(2)), [Closed(0, 1)], Downloads.Found(Downloads.STALE));
            r.Opened? && r.source == Downloads.ManyParts(Itoa(l.folder), Downloads.STALE, 0, 2)
            && Downloads.Served(Stored(objects), r.source) == [7, 5]
  {
    Downloads.FlattenTwo(saved[0], saved[1]);
    KeptFits(objects, l, saved);
    KeptParts(objects, l, saved);
    Downloads.StaleIndexIsBelieved(Stored(objects), Itoa(l.folder), saved);
  }

  /** That happens in a run in which a part was rewritten between its inspection
      and the commit. */
  lemma EarlyWriteIsServedWrong(c: Config, tuple: Tuple)
    ensures var end := Run(Start(0), c, EarlyWrite(tuple));
            end.Some? && ServedWrong(end.value, 1, Downloads.Location(Itoa(0), 2, Some(2)), [Closed(0, 1)], Downloads.STALE)
  {
    EarlyWriteIsMisrecorded(c, tuple);
    MisrecordedIsServedWrong(Run(Start(0), c, EarlyWrite(tuple)).value, 1);
  }
}
