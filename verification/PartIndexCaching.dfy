/** The weighted least-recently-used cache of part indexes
    (internal/cache/part_index.go). The list is a sequence, most recently used
    entry first. */
module PartIndexCaching {
  import opened Int64
  import opened Options
  import opened PartIndexes

  const ENTRY_OVERHEAD := 64

  datatype Key = Key(locationID: string, folderName: string, partCount: int)

  datatype Entry = Entry(key: Key, index: PartIndex, weight: nat)

  function Weight(key: Key, index: PartIndex): nat {
    ENTRY_OVERHEAD + |key.locationID| + |key.folderName| + |index.ends| * 8
  }

  function TotalWeight(lru: seq<Entry>): nat {
    if lru == [] then 0 else lru[0].weight + TotalWeight(lru[1..])
  }

  function Find(lru: seq<Entry>, key: Key): Option<Entry> {
    if lru == [] then None
    else if lru[0].key == key then Some(lru[0])
    else Find(lru[1..], key)
  }

  function Without(lru: seq<Entry>, key: Key): seq<Entry> {
    if lru == [] then []
    else if lru[0].key == key then lru[1..]
    else [lru[0]] + Without(lru[1..], key)
  }

  /** list.MoveToFront on the entry for `key`. */
  function Touch(lru: seq<Entry>, key: Key): seq<Entry> {
    match Find(lru, key)
    case Some(entry) => [entry] + Without(lru, key)
    case None => lru
  }

  /** The longest run of most recently used entries that fits in `room`. */
  function Kept(lru: seq<Entry>, room: int): seq<Entry> {
    if lru == [] || lru[0].weight > room then []
    else [lru[0]] + Kept(lru[1..], room - lru[0].weight)
  }

  /** The list after `add`. */
  function Added(lru: seq<Entry>, capacity: int, key: Key, index: PartIndex): seq<Entry> {
    var weight := Weight(key, index);
    if capacity <= 0 then lru
    else if Find(lru, key).Some? then Touch(lru, key)
    else if weight > capacity then lru
    else [Entry(key, index, weight)] + Kept(lru, capacity - weight)
  }

  /** No key twice, and every entry charged its weight. */
  predicate Accounted(lru: seq<Entry>) {
    lru != [] ==>
      && lru[0].weight == Weight(lru[0].key, lru[0].index)
      && Find(lru[1..], lru[0].key).None?
      && Accounted(lru[1..])
  }

  ghost predicate WellFormed(lru: seq<Entry>, capacity: int) {
    Accounted(lru) && (lru != [] ==> TotalWeight(lru) <= capacity)
  }

  lemma {:induction false} FindHasKey(lru: seq<Entry>, key: Key)
    ensures Find(lru, key).Some? ==> Find(lru, key).value.key == key
  {
    if lru != [] {
      FindHasKey(lru[1..], key);
    }
  }

  lemma {:induction false} FindWithout(lru: seq<Entry>, key: Key, k: Key)
    requires Accounted(lru)
    ensures Find(Without(lru, key), k) == if k == key then None else Find(lru, k)
  {
    if lru != [] && lru[0].key != key {
      FindWithout(lru[1..], key, k);
      assert Without(lru, key)[1..] == Without(lru[1..], key);
    }
  }

  lemma {:induction false} WithoutAccounted(lru: seq<Entry>, key: Key)
    requires Accounted(lru)
    ensures Accounted(Without(lru, key))
    ensures TotalWeight(lru)
         == TotalWeight(Without(lru, key)) + match Find(lru, key) case Some(e) => e.weight case None => 0
    ensures Find(lru, key).Some? ==> Find(lru, key).value.weight == Weight(key, Find(lru, key).value.index)
  {
    if lru != [] && lru[0].key != key {
      WithoutAccounted(lru[1..], key);
      FindWithout(lru[1..], key, lru[0].key);
      assert Without(lru, key)[1..] == Without(lru[1..], key);
    }
  }

  /** A hit moves one entry and loses none. */
  lemma TouchWellFormed(lru: seq<Entry>, capacity: int, key: Key)
    requires WellFormed(lru, capacity)
    ensures WellFormed(Touch(lru, key), capacity)
    ensures TotalWeight(Touch(lru, key)) == TotalWeight(lru)
    ensures Find(lru, key).Some? ==> Touch(lru, key) != [] && Touch(lru, key)[0].key == key
  {
    if Find(lru, key).Some? {
      var entry := Find(lru, key).value;
      FindHasKey(lru, key);
      WithoutAccounted(lru, key);
      FindWithout(lru, key, key);
      assert Touch(lru, key)[1..] == Without(lru, key);
    }
  }

  lemma TouchKeepsEntries(lru: seq<Entry>, key: Key, k: Key)
    requires Accounted(lru)
    ensures Find(Touch(lru, key), k) == Find(lru, k)
  {
    if Find(lru, key).Some? {
      FindHasKey(lru, key);
      FindWithout(lru, key, k);
      assert Touch(lru, key)[1..] == Without(lru, key);
    }
  }

  lemma {:induction false} KeptFits(lru: seq<Entry>, room: int)
    ensures Kept(lru, room) <= lru
    ensures room >= 0 ==> TotalWeight(Kept(lru, room)) <= room
  {
    if lru != [] && lru[0].weight <= room {
      KeptFits(lru[1..], room - lru[0].weight);
      assert Kept(lru, room)[1..] == Kept(lru[1..], room - lru[0].weight);
      assert lru == [lru[0]] + lru[1..];
    }
  }

  lemma {:induction false} KeptEntries(lru: seq<Entry>, room: int, k: Key)
    requires Accounted(lru)
    ensures Find(Kept(lru, room), k).Some? ==> Find(Kept(lru, room), k) == Find(lru, k)
  {
    if lru != [] && lru[0].weight <= room {
      KeptEntries(lru[1..], room - lru[0].weight, k);
      assert Kept(lru, room)[1..] == Kept(lru[1..], room - lru[0].weight);
    }
  }

  lemma {:induction false} KeptAccounted(lru: seq<Entry>, room: int)
    requires Accounted(lru)
    ensures Accounted(Kept(lru, room))
  {
    if lru != [] && lru[0].weight <= room {
      KeptAccounted(lru[1..], room - lru[0].weight);
      KeptEntries(lru[1..], room - lru[0].weight, lru[0].key);
      assert Kept(lru, room)[1..] == Kept(lru[1..], room - lru[0].weight);
    }
  }

  /** An insertion evicts the shortest suffix that makes room: exactly the
      prefixes no longer than what is kept fit. */
  lemma {:induction false} EvictsNoMoreThanNeeded(lru: seq<Entry>, room: int, n: nat)
    requires room >= 0 && n <= |lru|
    ensures TotalWeight(lru[..n]) <= room <==> n <= |Kept(lru, room)|
  {
    if n > 0 {
      assert lru[..n][1..] == lru[1..][..n - 1];
      if lru[0].weight <= room {
        EvictsNoMoreThanNeeded(lru[1..], room - lru[0].weight, n - 1);
      }
    }
  }

  lemma AddedWellFormed(lru: seq<Entry>, capacity: int, key: Key, index: PartIndex)
    requires WellFormed(lru, capacity)
    ensures WellFormed(Added(lru, capacity, key, index), capacity)
  {
    var added := Added(lru, capacity, key, index);
    if capacity > 0 && Find(lru, key).Some? {
      TouchWellFormed(lru, capacity, key);
    } else if capacity > 0 && Weight(key, index) <= capacity {
      var room := capacity - Weight(key, index);
      KeptFits(lru, room);
      KeptAccounted(lru, room);
      KeptEntries(lru, room, key);
      assert added[1..] == Kept(lru, room);
    }
  }

  /** What `add` makes of a lookup: the key itself is then found unless it can
      never fit, an index already cached for it stays, and any other key is
      found as before or evicted. */
  lemma AddedFind(lru: seq<Entry>, capacity: int, key: Key, index: PartIndex, k: Key)
    requires WellFormed(lru, capacity)
    ensures var after := Find(Added(lru, capacity, key, index), k);
            if k == key then
              if Find(lru, key).Some? then after == Find(lru, key)
              else if 0 < capacity && Weight(key, index) <= capacity then
                after == Some(Entry(key, index, Weight(key, index)))
              else after.None?
            else after.Some? ==> after == Find(lru, k)
  {
    if capacity > 0 && Find(lru, key).Some? {
      TouchKeepsEntries(lru, key, k);
    } else if capacity > 0 && Weight(key, index) <= capacity {
      var room := capacity - Weight(key, index);
      KeptEntries(lru, room, k);
      assert Added(lru, capacity, key, index)[1..] == Kept(lru, room);
    }
  }

  lemma {:induction false} KeptIsPrefix(lru: seq<Entry>, room: int)
    ensures Kept(lru, room) <= lru
  {
    if lru != [] && lru[0].weight <= room {
      KeptIsPrefix(lru[1..], room - lru[0].weight);
    }
  }

  /** A new entry goes to the front, the others stay in their order, and as many
      of the most recent ones as the capacity allows. */
  lemma AddedKeepsOrder(lru: seq<Entry>, capacity: int, key: Key, index: PartIndex)
    requires Find(lru, key).None? && Weight(key, index) <= capacity
    ensures var after := Added(lru, capacity, key, index);
            && 0 < |after| <= |lru| + 1 && after[0] == Entry(key, index, Weight(key, index)) && after[1..] == lru[..|after| - 1]
            && forall n :: 0 <= n <= |lru| ==>
                 (TotalWeight(lru[..n]) + Weight(key, index) <= capacity <==> n < |after|)
  {
    var room := capacity - Weight(key, index);
    KeptIsPrefix(lru, room);
    assert Added(lru, capacity, key, index)[1..] == Kept(lru, room);
    forall n | 0 <= n <= |lru|
      ensures TotalWeight(lru[..n]) <= room <==> n <= |Kept(lru, room)|
    {
      EvictsNoMoreThanNeeded(lru, room, n);
    }
  }

  /** A hit moves one entry to the front and leaves the others in their order. */
  lemma {:induction false} TouchMoves(lru: seq<Entry>, key: Key) returns (i: nat)
    requires Find(lru, key).Some?
    ensures i < |lru| && lru[i] == Find(lru, key).value && lru[i].key == key
    ensures Touch(lru, key) == [lru[i]] + lru[..i] + lru[i + 1..]
  {
    if lru[0].key == key {
      i := 0;
    } else {
      var j := TouchMoves(lru[1..], key);
      i := j + 1;
      assert Without(lru, key) == [lru[0]] + Without(lru[1..], key);
      assert Touch(lru[1..], key)[1..] == Without(lru[1..], key);
      assert [lru[0]] + (lru[1..][..j] + lru[1..][j + 1..]) == lru[..i] + lru[i + 1..];
    }
  }

  function Boundaries(lru: seq<Entry>): nat {
    if lru == [] then 0 else |lru[0].index.ends| + Boundaries(lru[1..])
  }

  function NameBytes(lru: seq<Entry>): nat {
    if lru == [] then 0 else |lru[0].key.locationID| + |lru[0].key.folderName| + NameBytes(lru[1..])
  }

  /** What is charged: the names, eight bytes for every part boundary, and 64
      bytes of overhead for every entry. */
  lemma {:induction false} WeightIsMemory(lru: seq<Entry>)
    requires Accounted(lru)
    ensures TotalWeight(lru) == 64 * |lru| + NameBytes(lru) + 8 * Boundaries(lru)
  {
    if lru != [] {
      WeightIsMemory(lru[1..]);
    }
  }

  /** The capacity bounds what is kept. */
  lemma CapacityBoundsMemory(lru: seq<Entry>, capacity: int)
    requires WellFormed(lru, capacity)
    ensures 64 * |lru| + NameBytes(lru) + 8 * Boundaries(lru) <= Max(capacity, 0)
  {
    WeightIsMemory(lru);
  }

  lemma {:induction false} DropOldest(lru: seq<Entry>)
    requires Accounted(lru) && lru != []
    ensures var oldest := lru[|lru| - 1];
            && Accounted(lru[..|lru| - 1])
            && TotalWeight(lru) == TotalWeight(lru[..|lru| - 1]) + oldest.weight
            && Find(lru, oldest.key) == Some(oldest)
  {
    if |lru| > 1 {
      DropOldest(lru[1..]);
      assert lru[..|lru| - 1][1..] == lru[1..][..|lru| - 2];
      DropOldestFind(lru[1..], lru[0].key);
    }
  }

  lemma {:induction false} DropOldestFind(lru: seq<Entry>, k: Key)
    requires Accounted(lru) && lru != []
    ensures Find(lru[..|lru| - 1], k) == if k == lru[|lru| - 1].key then None else Find(lru, k)
  {
    if |lru| > 1 {
      assert lru[..|lru| - 1][1..] == lru[1..][..|lru| - 2];
      DropOldestFind(lru[1..], k);
      DropOldest(lru[1..]);
    }
  }

  class PartIndexCache {
    const capacity: int
    var used: int
    var lru: seq<Entry>
    var entries: map<Key, Entry>

    /** The list and the map hold the same entries, and `used` is their weight. */
    ghost predicate Valid()
      reads this
    {
      && WellFormed(lru, capacity)
      && used == TotalWeight(lru)
      && Mapped(lru, entries)
    }

    static ghost predicate Mapped(lru: seq<Entry>, entries: map<Key, Entry>) {
      forall key :: Find(lru, key) == if key in entries then Some(entries[key]) else None
    }

    constructor (capacity: int)
      ensures Valid() && lru == [] && this.capacity == capacity
    {
      this.capacity, used, lru, entries := capacity, 0, [], map[];
    }

    method MoveToFront(key: Key)
      requires Valid() && key in entries
      modifies this`lru
      ensures Valid() && lru == Touch(old(lru), key)
    {
      TouchWellFormed(lru, capacity, key);
      forall k
        ensures Find(Touch(lru, key), k) == Find(lru, k)
      {
        TouchKeepsEntries(lru, key, k);
      }
      assert Find(lru, key) == Some(entries[key]);
      lru := [entries[key]] + Without(lru, key);
    }

    /** Drop the entry at the back of the list. */
    method EvictOldest()
      requires Valid() && lru != []
      modifies this`lru, this`used, this`entries
      ensures Valid() && lru == old(lru)[..|old(lru)| - 1]
      ensures entries.Keys <= old(entries).Keys
    {
      DropOldest(lru);
      var entry := lru[|lru| - 1];
      forall k
        ensures Find(lru[..|lru| - 1], k) == if k == entry.key then None else Find(lru, k)
      {
        DropOldestFind(lru, k);
      }
      entries := entries - {entry.key};
      used := used - entry.weight;
      lru := lru[..|lru| - 1];
    }

    method PushFront(entry: Entry)
      requires Valid() && entry.key !in entries
      requires entry.weight == Weight(entry.key, entry.index) && used + entry.weight <= capacity
      modifies this`lru, this`used, this`entries
      ensures Valid() && lru == [entry] + old(lru)
    {
      ghost var before := lru;
      assert Find(before, entry.key).None?;
      entries := entries[entry.key := entry];
      lru := [entry] + lru;
      used := used + entry.weight;
      assert lru[1..] == before;
    }

    method MakeRoom(weight: nat)
      requires Valid() && weight <= capacity
      modifies this`lru, this`used, this`entries
      ensures Valid() && lru == Kept(old(lru), capacity - weight)
      ensures used + weight <= capacity && entries.Keys <= old(entries).Keys
    {
      ghost var before, room := lru, capacity - weight;
      KeptFits(before, room);
      assert before[..|before|] == before;
      while used + weight > capacity
        invariant Valid()
        invariant |lru| <= |before| && lru == before[..|lru|]
        invariant |Kept(before, room)| <= |lru|
        invariant entries.Keys <= old(entries).Keys
        decreases |lru|
      {
        EvictsNoMoreThanNeeded(before, room, |lru|);
        // so the list cannot run out
        assert lru != [];
        EvictOldest();
      }
      EvictsNoMoreThanNeeded(before, room, |lru|);
    }

    method Add(key: Key, index: PartIndex)
      requires Valid()
      modifies this`lru, this`used, this`entries
      ensures Valid() && lru == Added(old(lru), capacity, key, index)
    {
      if capacity <= 0 {
        return;
      }
      assert key in entries <==> Find(lru, key).Some?;
      if key in entries {
        MoveToFront(key);
        return;
      }
      var weight := Weight(key, index);
      if weight > capacity {
        return;
      }
      MakeRoom(weight);
      PushFront(Entry(key, index, weight));
    }
  }
}
