/** The inventory of a folder of numbered objects (internal/storage/inventory.go):
    a bitmap of the indices seen, their sizes and a running byte total, filled
    in whatever order a listing delivers the objects. */
module FolderInventory {
  import opened Bitmaps
  import opened Decimals
  import opened Int64
  import opened Options
  import opened PartIndexes
  import opened Sequences

  const MAX_INDEXED_OBJECTS := 50_000

  /** The index a name stands for, if it is canonical and expected. */
  function IndexOf(name: string, expected: nat): Option<nat> {
    var index := Atoi(name);
    if index.None? || index.value < 0 || index.value >= expected || Itoa(index.value) != name then None
    else Some(index.value)
  }

  /** Only the plain decimal spelling of an expected index is accepted. */
  lemma IndexOfIsCanonical(name: string, expected: nat, index: nat)
    requires expected <= MAX_INDEXED_OBJECTS
    ensures IndexOf(name, expected) == Some(index) <==> index < expected && name == Itoa(index)
  {
    if index < expected && name == Itoa(index) {
      AtoiItoa(index);
    }
  }

  /** One listed object: its name relative to the folder, and its size. */
  datatype Arrival = Arrival(name: string, sizeBytes: int64)

  /** The same object once its name is read: None is ignored. */
  datatype Entry = Entry(index: Option<nat>, sizeBytes: int64)

  function Read(arrivals: seq<Arrival>, expected: nat): (entries: seq<Entry>)
    ensures |entries| == |arrivals|
  {
    seq(|arrivals|, k requires 0 <= k < |arrivals| => Entry(IndexOf(arrivals[k].name, expected), arrivals[k].sizeBytes))
  }

  type Sizes = map<nat, int64>

  /** The first size reported for each index. */
  ghost function FirstSizes(entries: seq<Entry>): Sizes {
    if entries == [] then map[]
    else Record(FirstSizes(entries[..|entries| - 1]), entries[|entries| - 1])
  }

  ghost function Record(sizes: Sizes, entry: Entry): Sizes {
    if entry.index.None? || entry.index.value in sizes then sizes
    else sizes[entry.index.value := entry.sizeBytes]
  }

  ghost predicate FirstFor(entries: seq<Entry>, index: nat, k: nat) {
    && k < |entries|
    && entries[k].index == Some(index)
    && forall j :: 0 <= j < k ==> entries[j].index != Some(index)
  }

  /** FirstSizes records the first object of each index ... */
  lemma {:induction false} FirstIsRecorded(entries: seq<Entry>, index: nat, k: nat)
    requires FirstFor(entries, index, k)
    ensures index in FirstSizes(entries) && FirstSizes(entries)[index] == entries[k].sizeBytes
  {
    var before := entries[..|entries| - 1];
    if k < |before| {
      FirstIsRecorded(before, index, k);
    } else {
      UnseenIsUnrecorded(before, index);
    }
  }

  lemma {:induction false} UnseenIsUnrecorded(entries: seq<Entry>, index: nat)
    requires forall j :: 0 <= j < |entries| ==> entries[j].index != Some(index)
    ensures index !in FirstSizes(entries)
  {
    if entries != [] {
      UnseenIsUnrecorded(entries[..|entries| - 1], index);
    }
  }

  /** ... and nothing else. */
  lemma {:induction false} RecordedIsFirst(entries: seq<Entry>, index: nat) returns (k: nat)
    requires index in FirstSizes(entries)
    ensures FirstFor(entries, index, k)
  {
    var before := entries[..|entries| - 1];
    if index in FirstSizes(before) {
      k := RecordedIsFirst(before, index);
    } else {
      k := |before|;
      if j: nat :| j < k && entries[j].index == Some(index) {
        var first := Earliest(before, index, j);
        FirstIsRecorded(before, index, first);
      }
    }
  }

  lemma {:induction false} Earliest(entries: seq<Entry>, index: nat, j: nat) returns (k: nat)
    requires j < |entries| && entries[j].index == Some(index)
    ensures FirstFor(entries, index, k)
    decreases j
  {
    if i: nat :| i < j && entries[i].index == Some(index) {
      k := Earliest(entries, index, i);
    } else {
      k := j;
    }
  }

  /** Bytes of the recorded indices below `n`, in index order. */
  ghost function Total(sizes: Sizes, n: nat): int {
    if n == 0 then 0 else Total(sizes, n - 1) + (if n - 1 in sizes then sizes[n - 1] else 0)
  }

  lemma {:induction false} TotalOfOneMore(sizes: Sizes, n: nat, index: nat, size: int64)
    requires index !in sizes
    ensures Total(sizes[index := size], n) == Total(sizes, n) + (if index < n then size else 0)
  {
    if n > 0 {
      TotalOfOneMore(sizes, n - 1, index, size);
    }
  }

  ghost predicate Complete(sizes: Sizes, expected: nat) {
    forall i :: 0 <= i < expected ==> i in sizes
  }

  ghost function InOrder(sizes: Sizes, n: nat): seq<int>
    requires Complete(sizes, n)
  {
    seq(n, i requires 0 <= i < n => sizes[i])
  }

  /** Arrival order does not matter: the running total is the index-order sum. */
  lemma {:induction false} TotalIsIndexOrderSum(sizes: Sizes, n: nat)
    requires Complete(sizes, n)
    ensures Total(sizes, n) == Sum(InOrder(sizes, n))
  {
    if n > 0 {
      TotalIsIndexOrderSum(sizes, n - 1);
      assert InOrder(sizes, n) == InOrder(sizes, n - 1) + [sizes[n - 1]];
      SumSnoc(InOrder(sizes, n - 1), sizes[n - 1]);
    }
  }

  datatype AddResult = Added(total: int64) | Overflow

  function AddStorageBytes(total: int64, size: int64): (r: AddResult)
    requires total >= 0
    ensures r == Overflow <==> size < 0 || total + size > MAX_INT64
    ensures r.Added? ==> r.total == total + size
  {
    if size < 0 || total > MAX_INT64 - size then Overflow else Added(total + size)
  }

  datatype InventoryResult =
    | InvalidPartCount
    | LimitExceeded
    | ByteOverflow
    | Missing(index: nat)
    | Inventory(total: int64, sizes: seq<int>)

  class IndexedFolderAccumulator {
    const expected: nat
    const seen: Bitmap
    // null when only the total is wanted
    const sizes: array?<int>
    var logicalBytes: int64
    // the first size reported for each index
    ghost var recorded: Sizes

    ghost predicate Valid()
      reads this, seen, seen.words, sizes
    {
      && 1 <= expected <= MAX_INDEXED_OBJECTS
      && seen.Valid() && seen.size == expected && sizes as object? != seen.words
      && (forall i :: 0 <= i < expected ==> (i in seen.marked <==> i in recorded))
      && (forall i :: i in recorded ==> i < expected)
      && (sizes != null ==> sizes.Length == expected && forall i :: i in recorded ==> sizes[i] == recorded[i])
      && logicalBytes == Total(recorded, expected) >= 0
      && !Unsummable(recorded, expected)
    }

    constructor (expected: nat, withSizes: bool)
      requires 1 <= expected <= MAX_INDEXED_OBJECTS
      ensures Valid() && recorded == map[] && this.expected == expected
      ensures fresh(seen) && fresh(seen.words) && (withSizes ==> sizes != null && fresh(sizes))
      ensures !withSizes ==> sizes == null
    {
      this.expected := expected;
      seen := new Bitmap(expected);
      if withSizes {
        sizes := new int[expected](i => 0);
      } else {
        sizes := null;
      }
      logicalBytes, recorded := 0, map[];
      new;
      TotalOfNothing(expected);
    }

    method Add(relativeName: string, sizeBytes: int64) returns (ok: bool)
      requires Valid()
      modifies this, seen, seen.words, sizes
      ensures recorded == Record(old(recorded), Entry(IndexOf(relativeName, expected), sizeBytes))
      ensures ok <==> !Unsummable(recorded, expected)
      ensures ok ==> Valid()
    {
      var index := IndexOf(relativeName, expected);
      if index.None? {
        return true;
      }
      ok := AddIndexed(index.value, sizeBytes);
    }

    method AddIndexed(index: nat, sizeBytes: int64) returns (ok: bool)
      requires Valid() && index < expected
      modifies this, seen, seen.words, sizes
      ensures recorded == Record(old(recorded), Entry(Some(index), sizeBytes))
      ensures ok <==> !Unsummable(recorded, expected)
      ensures ok ==> Valid()
    {
      var present := seen.Has(index);
      if present {
        return true;
      }
      seen.Mark(index);
      if sizes != null {
        sizes[index] := sizeBytes;
      }
      RecordedTotal(recorded, index, sizeBytes, expected);
      recorded := recorded[index := sizeBytes];
      var sum := AddStorageBytes(logicalBytes, sizeBytes);
      // The source stores 0 together with the error; the walk then stops.
      logicalBytes := if sum.Added? then sum.total else 0;
      return sum.Added?;
    }

    method Result() returns (r: InventoryResult)
      requires Valid()
      ensures r.Missing? ==>
        r.index < expected && r.index !in recorded && forall i :: 0 <= i < r.index ==> i in recorded
      ensures r.Inventory? ==> Complete(recorded, expected) && r.total == Total(recorded, expected)
      ensures r.Inventory? && sizes != null ==> r.sizes == InOrder(recorded, expected)
      ensures r.Missing? || r.Inventory?
    {
      for index := 0 to expected
        invariant forall i :: 0 <= i < index ==> i in recorded
      {
        var present := seen.Has(index);
        if !present {
          return Missing(index);
        }
      }
      return Inventory(logicalBytes, if sizes != null then sizes[..] else []);
    }
  }

  lemma {:induction false} TotalOfNothing(n: nat)
    ensures Total(map[], n) == 0
  {
    if n > 0 {
      TotalOfNothing(n - 1);
    }
  }

  /** These sizes cannot be added up in an int64. */
  ghost predicate Unsummable(sizes: Sizes, expected: nat) {
    (exists i :: i in sizes && sizes[i] < 0) || Total(sizes, expected) > MAX_INT64
  }

  lemma UnsummableGrows(sizes: Sizes, entry: Entry, expected: nat)
    requires Unsummable(sizes, expected)
    requires entry.index.Some? ==> entry.index.value < expected
    ensures Unsummable(Record(sizes, entry), expected)
  {
    var after := Record(sizes, entry);
    if after != sizes {
      var index := entry.index.value;
      TotalOfOneMore(sizes, expected, index, entry.sizeBytes);
      if i :| i in sizes && sizes[i] < 0 {
        assert i in after && after[i] < 0;
      } else if entry.sizeBytes < 0 {
        assert index in after && after[index] < 0;
      }
    }
  }

  lemma {:induction false} UnsummableStays(entries: seq<Entry>, k: nat, expected: nat)
    requires k <= |entries| && Unsummable(FirstSizes(entries[..k]), expected)
    requires forall j :: 0 <= j < |entries| && entries[j].index.Some? ==> entries[j].index.value < expected
    ensures Unsummable(FirstSizes(entries), expected)
  {
    if k == |entries| {
      assert entries[..k] == entries;
    } else {
      var before := entries[..|entries| - 1];
      assert before[..k] == entries[..k];
      UnsummableStays(before, k, expected);
      UnsummableGrows(FirstSizes(before), entries[|entries| - 1], expected);
    }
  }

  /** For a complete folder the inventory fails on exactly the sizes no part
      index can be built for, and otherwise finds the same total. */
  lemma AgreesWithPartIndex(sizes: Sizes, expected: nat)
    requires Complete(sizes, expected)
    requires forall i :: i in sizes ==> i < expected
    ensures Unsummable(sizes, expected) <==> !Indexable(InOrder(sizes, expected))
    ensures forall index: PartIndex :: index.Describes(InOrder(sizes, expected)) ==> index.total == Total(sizes, expected)
  {
    TotalIsIndexOrderSum(sizes, expected);
    var ordered := InOrder(sizes, expected);
    if i :| i in sizes && sizes[i] < 0 {
      assert ordered[i] < 0;
    }
  }

  /** One more size, checked as AddStorageBytes does. */
  lemma RecordedTotal(sizes: Sizes, index: nat, size: int64, expected: nat)
    requires index !in sizes && index < expected && !Unsummable(sizes, expected)
    ensures Total(sizes[index := size], expected) == Total(sizes, expected) + size
    ensures Unsummable(sizes[index := size], expected) <==> size < 0 || Total(sizes, expected) + size > MAX_INT64
  {
    TotalOfOneMore(sizes, expected, index, size);
    assert index in sizes[index := size];
  }

  /** What an inspection answers, in terms of the first size of each index. */
  ghost predicate Inspected(sizes: Sizes, expected: int, withSizes: bool, r: InventoryResult) {
    if expected < 1 then r == InvalidPartCount
    else if expected > MAX_INDEXED_OBJECTS then r == LimitExceeded
    else if Unsummable(sizes, expected) then r == ByteOverflow
    else if Complete(sizes, expected) then
      r.Inventory? && r.total == Total(sizes, expected) && (withSizes ==> r.sizes == InOrder(sizes, expected))
    else
      r.Missing? && r.index < expected && r.index !in sizes && forall i :: 0 <= i < r.index ==> i in sizes
  }

  /** The walk over the listed folder, which stops at the first overflow. */
  method AddAll(accumulator: IndexedFolderAccumulator, arrivals: seq<Arrival>) returns (ok: bool)
    requires accumulator.Valid() && accumulator.recorded == map[]
    modifies accumulator, accumulator.seen, accumulator.seen.words, accumulator.sizes
    ensures ok <==> !Unsummable(FirstSizes(Read(arrivals, accumulator.expected)), accumulator.expected)
    ensures ok ==> accumulator.Valid() && accumulator.recorded == FirstSizes(Read(arrivals, accumulator.expected))
  {
    ghost var entries := Read(arrivals, accumulator.expected);
    for k := 0 to |arrivals|
      invariant accumulator.Valid() && accumulator.recorded == FirstSizes(entries[..k])
    {
      assert entries[..k + 1][..k] == entries[..k];
      ok := accumulator.Add(arrivals[k].name, arrivals[k].sizeBytes);
      if !ok {
        UnsummableStays(entries, k + 1, accumulator.expected);
        return;
      }
    }
    assert entries[..|arrivals|] == entries;
    return true;
  }

  /** InspectIndexedFolderSizes, and InspectIndexedFolder without the sizes,
      over whatever order the folder is listed in. */
  method InspectIndexedFolder(arrivals: seq<Arrival>, expected: int, withSizes: bool) returns (r: InventoryResult)
    ensures Inspected(
      if expected >= 0 then FirstSizes(Read(arrivals, expected)) else map[], expected, withSizes, r)
  {
    if expected < 1 {
      return InvalidPartCount;
    }
    if expected > MAX_INDEXED_OBJECTS {
      return LimitExceeded;
    }
    var accumulator := new IndexedFolderAccumulator(expected, withSizes);
    var ok := AddAll(accumulator, arrivals);
    if !ok {
      return ByteOverflow;
    }
    r := accumulator.Result();
  }
}
