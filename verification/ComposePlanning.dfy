/** Composing one object from several by server-side copies
    (internal/storage/s3.go, planS3ComposeParts and ComposeObjects). */
module ComposePlanning {
  import opened Int64
  import opened ObjectStreams
  import opened Octets
  import opened Sequences

  const MIN_PART_SIZE := 5 * 1024 * 1024
  const MAX_PART_SIZE := 5 * 1024 * 1024 * 1024
  const MAX_PARTS := 10_000

  /** Bytes start .. start + size of one source. */
  datatype ComposePart = ComposePart(source: string, start: int, size: int, sourceSize: int)

  /** Panic stands for the run-time panic of `parts[:len(parts)-1]` on an empty plan. */
  datatype PlanResult = Planned(parts: seq<ComposePart>) | Unsupported | Panic

  /** The number of slices of a source; the sum is an int64 sum and can wrap. */
  function SliceCount(size: int64): int
    requires size > 0
  {
    TruncDiv(WrapSum(size + MAX_PART_SIZE - 1), MAX_PART_SIZE)
  }

  /** The rounding sum does not wrap around. */
  predicate Roundable(size: int) {
    size + MAX_PART_SIZE - 1 <= MAX_INT64
  }

  lemma SliceCountIs(size: int64)
    requires size > 0
    ensures Roundable(size) ==>
      SliceCount(size) >= 1 && (SliceCount(size) - 1) * MAX_PART_SIZE < size <= SliceCount(size) * MAX_PART_SIZE
    ensures !Roundable(size) ==> SliceCount(size) < 0
  {
  }

  /** Slices k, ..., count - 1 of a source, the first starting at `start`: the
      first `extra` slices are one byte larger than `base`. */
  function SlicesFrom(source: string, size: int, base: int, extra: int, count: int, k: nat, start: int): seq<ComposePart>
    decreases count - k
  {
    if k >= count then []
    else
      var sliceSize := base + (if k < extra then 1 else 0);
      [ComposePart(source, start, sliceSize, size)]
      + SlicesFrom(source, size, base, extra, count, k + 1, start + sliceSize)
  }

  lemma Division(a: int, b: int)
    requires a >= 0 && b >= 1
    ensures a == b * (a / b) + a % b && 0 <= a % b < b && a / b >= 0
    ensures TruncDiv(a, b) == a / b && TruncMod(a, b) == a % b
  {
  }

  /** The slices planned for one source. */
  function Slices(source: string, size: int64): seq<ComposePart>
    requires size > 0
  {
    var count := SliceCount(size);
    if count <= 0 then []
    else SlicesFrom(source, size, size / count, size % count, count, 0, 0)
  }

  /** The slices are contiguous, of almost equal size, and end where the source
      ends, wherever one starts looking. */
  ghost predicate Tiles(parts: seq<ComposePart>, source: string, size: int, base: int, start: int)
    decreases |parts|
  {
    if parts == [] then start == size
    else
      && parts[0] == ComposePart(source, start, parts[0].size, size)
      && base <= parts[0].size <= base + 1
      && Tiles(parts[1..], source, size, base, start + parts[0].size)
  }

  lemma {:induction false} SlicesTile(source: string, size: int, base: int, extra: int, count: int, k: nat, start: int)
    requires k <= count && 0 <= extra < count && size == count * base + extra
    requires start == k * base + Min(k, extra)
    ensures Tiles(SlicesFrom(source, size, base, extra, count, k, start), source, size, base, start)
    ensures |SlicesFrom(source, size, base, extra, count, k, start)| == count - k
    decreases count - k
  {
    if k < count {
      assert (k + 1) * base == k * base + base;
      var sliceSize := base + (if k < extra then 1 else 0);
      SlicesTile(source, size, base, extra, count, k + 1, start + sliceSize);
      var parts := SlicesFrom(source, size, base, extra, count, k, start);
      assert parts[1..] == SlicesFrom(source, size, base, extra, count, k + 1, start + sliceSize);
    }
  }

  /** A size that can be rounded is cut into slices of at most MAX_PART_SIZE
      bytes, and into at least MAX_PART_SIZE / 2 bytes if it is cut at all. */
  lemma SlicesTileSource(source: string, size: int64)
    requires size > 0 && Roundable(size)
    ensures var count := SliceCount(size);
      && count == |Slices(source, size)| >= 1
      && var base := size / count;
      && Tiles(Slices(source, size), source, size, base, 0)
      && 1 <= base
      && (base < MAX_PART_SIZE || (base == MAX_PART_SIZE && size % count == 0))
      && (count > 1 ==> MAX_PART_SIZE / 2 <= base)
      && (count == 1 ==> Slices(source, size) == [ComposePart(source, 0, size, size)])
  {
    var count := SliceCount(size);
    SliceCountIs(size);
    var base, extra := size / count, size % count;
    Division(size, count);
    BaseBounds(size, count, base, extra);
    SlicesTile(source, size, base, extra, count, 0, 0);
  }

  lemma BaseBounds(size: int, count: int, base: int, extra: int)
    requires count >= 1 && 0 <= extra < count && size == count * base + extra && size > 0
    requires (count - 1) * MAX_PART_SIZE < size <= count * MAX_PART_SIZE
    ensures 1 <= base
    ensures base < MAX_PART_SIZE || (base == MAX_PART_SIZE && extra == 0)
    ensures count > 1 ==> MAX_PART_SIZE / 2 <= base
  {
    if base > MAX_PART_SIZE {
      MultiplyMonotone(count, MAX_PART_SIZE + 1, base);
      assert false;
    }
    if base < 1 {
      MultiplyMonotone(count, base, 0);
      assert false;
    }
    if count > 1 && base < MAX_PART_SIZE / 2 {
      MultiplyMonotone(count, base, MAX_PART_SIZE / 2 - 1);
      assert false;
    }
  }

  lemma MultiplyMonotone(count: int, a: int, b: int)
    requires count >= 1 && a <= b
    ensures count * a <= count * b
  {
  }

  predicate Positive(sizes: seq<int64>) {
    forall i :: 0 <= i < |sizes| ==> sizes[i] > 0
  }

  predicate AllRoundable(sizes: seq<int64>) {
    forall i :: 0 <= i < |sizes| ==> Roundable(sizes[i])
  }

  /** The slices of the first `n` sources. */
  function AllSlices(names: seq<string>, sizes: seq<int64>, n: nat): seq<ComposePart>
    requires n <= |names| == |sizes| && forall i :: 0 <= i < n ==> sizes[i] > 0
  {
    if n == 0 then [] else AllSlices(names, sizes, n - 1) + Slices(names[n - 1], sizes[n - 1])
  }

  /** Every part among the first `n` may be followed by another one. */
  ghost predicate BigEnough(parts: seq<ComposePart>, n: int) {
    forall k :: 0 <= k < n && k < |parts| ==> parts[k].size >= MIN_PART_SIZE
  }

  /** What the planner decides, in terms of the slices of all sources. */
  ghost predicate Decides(names: seq<string>, sizes: seq<int64>, r: PlanResult) {
    if names == [] || |names| != |sizes| || !Positive(sizes) then r == Unsupported
    else DecidesSlices(AllSlices(names, sizes, |names|), r)
  }

  ghost predicate DecidesSlices(parts: seq<ComposePart>, r: PlanResult) {
    if |parts| > MAX_PARTS then r == Unsupported
    else if parts == [] then r == Panic
    else if !BigEnough(parts, |parts| - 1) then r == Unsupported
    else r == Planned(parts)
  }

  /** The inner loop: one source's slices are appended to the plan. */
  method AppendSlices(before: seq<ComposePart>, source: string, sourceSize: int64) returns (parts: seq<ComposePart>)
    requires sourceSize > 0
    ensures parts == before + Slices(source, sourceSize)
  {
    parts := before;
    SliceCountIs(sourceSize);
    var partCount := SliceCount(sourceSize);
    var baseSize := TruncDiv(sourceSize, partCount);
    var extraBytes := TruncMod(sourceSize, partCount);
    if partCount > 0 {
      Division(sourceSize, partCount);
    }
    var start, partIndex := 0, 0;
    while partIndex < partCount
      invariant 0 <= partIndex
      invariant partCount > 0 ==>
        parts + SlicesFrom(source, sourceSize, baseSize, extraBytes, partCount, partIndex, start)
        == before + Slices(source, sourceSize)
      invariant partCount <= 0 ==> parts == before
    {
      var size := baseSize;
      if partIndex < extraBytes {
        size := size + 1;
      }
      parts := parts + [ComposePart(source, start, size, sourceSize)];
      start := start + size;
      partIndex := partIndex + 1;
    }
  }

  method CheckParts(parts: seq<ComposePart>) returns (r: PlanResult)
    ensures DecidesSlices(parts, r)
  {
    if |parts| > MAX_PARTS {
      return Unsupported;
    }
    if parts == [] {
      return Panic;
    }
    for index := 0 to |parts| - 1
      invariant BigEnough(parts, index)
    {
      if parts[index].size < MIN_PART_SIZE {
        return Unsupported;
      }
    }
    return Planned(parts);
  }

  /** The outer loop, which stops at an empty source. */
  method SliceSources(names: seq<string>, sizes: seq<int64>) returns (parts: seq<ComposePart>, ok: bool)
    requires |names| == |sizes|
    ensures ok <==> Positive(sizes)
    ensures ok ==> parts == AllSlices(names, sizes, |names|)
  {
    parts := [];
    for index := 0 to |names|
      invariant forall i :: 0 <= i < index ==> sizes[i] > 0
      invariant parts == AllSlices(names, sizes, index)
    {
      if sizes[index] <= 0 {
        return [], false;
      }
      var sliced := AppendSlices(parts, names[index], sizes[index]);
      parts := sliced;
    }
    ok := true;
  }

  method PlanParts(names: seq<string>, sizes: seq<int64>) returns (r: PlanResult)
    ensures Decides(names, sizes, r)
  {
    if |names| == 0 || |names| != |sizes| {
      return Unsupported;
    }
    var parts, ok := SliceSources(names, sizes);
    if !ok {
      return Unsupported;
    }
    r := CheckParts(parts);
  }

  /** The number of slices of the first `n` sources together. */
  function SliceTotal(sizes: seq<int64>, n: nat): int
    requires n <= |sizes| && forall i :: 0 <= i < n ==> sizes[i] > 0
  {
    if n == 0 then 0 else SliceTotal(sizes, n - 1) + SliceCount(sizes[n - 1])
  }

  lemma {:induction false} SlicesAddUp(names: seq<string>, sizes: seq<int64>, n: nat)
    requires n <= |names| == |sizes| && Positive(sizes) && AllRoundable(sizes)
    ensures |AllSlices(names, sizes, n)| == SliceTotal(sizes, n) >= n
  {
    if n > 0 {
      SlicesAddUp(names, sizes, n - 1);
      SlicesTileSource(names[n - 1], sizes[n - 1]);
    }
  }

  lemma {:induction false} TilesAreBig(parts: seq<ComposePart>, source: string, size: int, base: int, start: int)
    requires Tiles(parts, source, size, base, start) && base >= MIN_PART_SIZE
    ensures BigEnough(parts, |parts|)
    decreases |parts|
  {
    if parts != [] {
      TilesAreBig(parts[1..], source, size, base, start + parts[0].size);
      assert forall k :: 0 < k < |parts| ==> parts[k] == parts[1..][k - 1];
    }
  }

  /** Cutting never makes a slice too small: only whole small sources are. */
  lemma SourceIsBig(source: string, size: int64)
    requires size > 0 && Roundable(size)
    ensures var slices := Slices(source, size);
      && slices != []
      && (BigEnough(slices, |slices|) <==> size >= MIN_PART_SIZE)
      && BigEnough(slices, |slices| - 1)
  {
    SlicesTileSource(source, size);
    var slices := Slices(source, size);
    if SliceCount(size) > 1 {
      TilesAreBig(slices, source, size, size / SliceCount(size), 0);
      SliceCountIs(size);
    } else {
      assert slices[0].size == size;
    }
  }

  lemma BigAppend(a: seq<ComposePart>, b: seq<ComposePart>, n: nat)
    requires n <= |b|
    ensures BigEnough(a + b, |a| + n) <==> BigEnough(a, |a|) && BigEnough(b, n)
  {
    var c := a + b;
    if BigEnough(c, |a| + n) {
      assert forall k :: 0 <= k < |a| ==> a[k] == c[k];
      assert forall k :: 0 <= k < n ==> b[k] == c[|a| + k];
    }
  }

  predicate BigUpTo(sizes: seq<int64>, n: nat)
    requires n <= |sizes|
  {
    n == 0 || (BigUpTo(sizes, n - 1) && sizes[n - 1] >= MIN_PART_SIZE)
  }

  lemma {:induction false} BigUpToMeans(sizes: seq<int64>, n: nat)
    requires n <= |sizes|
    ensures BigUpTo(sizes, n) <==> forall i :: 0 <= i < n ==> sizes[i] >= MIN_PART_SIZE
  {
    if n > 0 {
      BigUpToMeans(sizes, n - 1);
    }
  }

  lemma {:induction false} SourcesAreBig(names: seq<string>, sizes: seq<int64>, n: nat)
    requires n <= |names| == |sizes| && Positive(sizes) && AllRoundable(sizes)
    ensures var parts := AllSlices(names, sizes, n); BigEnough(parts, |parts|) <==> BigUpTo(sizes, n)
  {
    if n > 0 {
      SourcesAreBig(names, sizes, n - 1);
      SourceIsBig(names[n - 1], sizes[n - 1]);
      BigAppend(AllSlices(names, sizes, n - 1), Slices(names[n - 1], sizes[n - 1]), |Slices(names[n - 1], sizes[n - 1])|);
    }
  }

  /** Only the last slice of all may be small, and the last source's others are not. */
  lemma LastMayBeSmall(before: seq<ComposePart>, slices: seq<ComposePart>)
    requires slices != [] && BigEnough(slices, |slices| - 1)
    ensures BigEnough(before + slices, |before + slices| - 1) <==> BigEnough(before, |before|)
  {
    BigAppend(before, slices, |slices| - 1);
  }

  /** The sizes of the sources that the planner does not drop. */
  function Kept(sizes: seq<int64>, n: nat): seq<int64>
    requires n <= |sizes|
  {
    if n == 0 then []
    else if Roundable(sizes[n - 1]) then Kept(sizes, n - 1) + [sizes[n - 1]]
    else Kept(sizes, n - 1)
  }

  function KeptNames(names: seq<string>, sizes: seq<int64>, n: nat): seq<string>
    requires n <= |names| == |sizes|
  {
    if n == 0 then []
    else if Roundable(sizes[n - 1]) then KeptNames(names, sizes, n - 1) + [names[n - 1]]
    else KeptNames(names, sizes, n - 1)
  }

  lemma {:induction false} KeptAre(names: seq<string>, sizes: seq<int64>, n: nat)
    requires n <= |names| == |sizes| && Positive(sizes)
    ensures |KeptNames(names, sizes, n)| == |Kept(sizes, n)|
    ensures Positive(Kept(sizes, n)) && AllRoundable(Kept(sizes, n))
  {
    if n > 0 {
      KeptAre(names, sizes, n - 1);
    }
  }

  lemma {:induction false} KeptAll(sizes: seq<int64>, n: nat)
    requires n <= |sizes| && AllRoundable(sizes)
    ensures Kept(sizes, n) == sizes[..n]
  {
    if n > 0 {
      KeptAll(sizes, n - 1);
      assert sizes[..n] == sizes[..n - 1] + [sizes[n - 1]];
    }
  }

  lemma {:induction false} EarlierSlices(
    names: seq<string>, sizes: seq<int64>, name: string, size: int64, n: nat)
    requires n <= |names| == |sizes| && Positive(sizes) && size > 0
    ensures AllSlices(names + [name], sizes + [size], n) == AllSlices(names, sizes, n)
  {
    if n > 0 {
      EarlierSlices(names, sizes, name, size, n - 1);
    }
  }

  lemma KeepOneMore(names: seq<string>, sizes: seq<int64>, name: string, size: int64)
    requires |names| == |sizes| && Positive(sizes) && size > 0
    ensures AllSlices(names + [name], sizes + [size], |sizes| + 1) == AllSlices(names, sizes, |sizes|) + Slices(name, size)
  {
    EarlierSlices(names, sizes, name, size, |sizes|);
  }

  lemma DroppedHasNoSlice(source: string, size: int64)
    requires size > 0 && !Roundable(size)
    ensures Slices(source, size) == []
  {
    SliceCountIs(size);
  }

  lemma SliceOneMore(names: seq<string>, sizes: seq<int64>, n: nat)
    requires 1 <= n <= |names| == |sizes| && Positive(sizes)
    ensures AllSlices(names, sizes, n)
         == if Roundable(sizes[n - 1]) then AllSlices(names, sizes, n - 1) + Slices(names[n - 1], sizes[n - 1])
            else AllSlices(names, sizes, n - 1)
  {
    if !Roundable(sizes[n - 1]) {
      DroppedHasNoSlice(names[n - 1], sizes[n - 1]);
    }
  }

  /** A source whose rounding sum wraps leaves no slice in the plan. */
  lemma {:induction false} DroppedSourcesLeaveNothing(names: seq<string>, sizes: seq<int64>, n: nat)
    requires n <= |names| == |sizes| && Positive(sizes)
    requires |KeptNames(names, sizes, n)| == |Kept(sizes, n)| && Positive(Kept(sizes, n))
    ensures AllSlices(names, sizes, n) == AllSlices(KeptNames(names, sizes, n), Kept(sizes, n), |Kept(sizes, n)|)
  {
    if n > 0 {
      KeptAre(names, sizes, n - 1);
      DroppedSourcesLeaveNothing(names, sizes, n - 1);
      SliceOneMore(names, sizes, n);
      if Roundable(sizes[n - 1]) {
        KeepOneMore(KeptNames(names, sizes, n - 1), Kept(sizes, n - 1), names[n - 1], sizes[n - 1]);
      }
    }
  }

  /** What the planner asks of the sizes of its sources. */
  ghost predicate Acceptable(sizes: seq<int64>) {
    var kept := Kept(sizes, |sizes|);
    && Positive(sizes) && kept != []
    && (forall i :: 0 <= i < |kept| ==> kept[i] > 0) && SliceTotal(kept, |kept|) <= MAX_PARTS
    && forall i :: 0 <= i < |kept| - 1 ==> kept[i] >= MIN_PART_SIZE
  }

  /** For all sizes: the planner accepts exactly non-empty sources of which some
      can be rounded, and those that can have together at most MAX_PARTS slices
      and only the last of them is small. It panics exactly when none can be
      rounded. */
  lemma AcceptsExactly(names: seq<string>, sizes: seq<int64>, r: PlanResult)
    requires |names| == |sizes| > 0 && Decides(names, sizes, r)
    ensures r.Planned? <==> Acceptable(sizes)
    ensures r == Panic <==> Positive(sizes) && Kept(sizes, |sizes|) == []
    ensures AllRoundable(sizes) ==> Kept(sizes, |sizes|) == sizes
  {
    if AllRoundable(sizes) {
      KeptAll(sizes, |sizes|);
    }
    if Positive(sizes) {
      PositiveDecides(names, sizes, r);
    }
  }

  lemma PositiveDecides(names: seq<string>, sizes: seq<int64>, r: PlanResult)
    requires |names| == |sizes| > 0 && Decides(names, sizes, r) && Positive(sizes)
    ensures var kept := Kept(sizes, |sizes|);
      && (r.Planned? <==>
           && kept != []
           && (forall i :: 0 <= i < |kept| ==> kept[i] > 0) && SliceTotal(kept, |kept|) <= MAX_PARTS
           && forall i :: 0 <= i < |kept| - 1 ==> kept[i] >= MIN_PART_SIZE)
      && (r == Panic <==> kept == [])
  {
    var kept, keptNames := Kept(sizes, |sizes|), KeptNames(names, sizes, |sizes|);
    KeptAre(names, sizes, |sizes|);
    DroppedSourcesLeaveNothing(names, sizes, |sizes|);
    if kept != [] {
      KeptDecide(keptNames, kept, r);
      BigUpToMeans(kept, |kept| - 1);
    }
  }

  lemma KeptDecide(names: seq<string>, sizes: seq<int64>, r: PlanResult)
    requires |names| == |sizes| > 0 && Positive(sizes) && AllRoundable(sizes)
    requires DecidesSlices(AllSlices(names, sizes, |sizes|), r)
    ensures r.Planned? <==> SliceTotal(sizes, |sizes|) <= MAX_PARTS && BigUpTo(sizes, |sizes| - 1)
    ensures r != Panic
  {
    SlicesAddUp(names, sizes, |sizes|);
    AllButTheLastAreBig(names, sizes);
  }

  lemma OneSlice(source: string, size: int64)
    requires 0 < size <= MAX_PART_SIZE
    ensures Slices(source, size) == [ComposePart(source, 0, size, size)]
  {
    SliceCountIs(size);
    SlicesTileSource(source, size);
  }

  /** A source that cannot be rounded is dropped, and the plan is made of the one
      before it alone, although that one is too small to be followed. */
  lemma DroppedSourceIsPlanned(small: string, huge: string, size: int64, hugeSize: int64, r: PlanResult)
    requires 0 < size < MIN_PART_SIZE && !Roundable(hugeSize)
    requires Decides([small, huge], [size, hugeSize], r)
    ensures r == Planned([ComposePart(small, 0, size, size)])
  {
    var names, sizes := [small, huge], [size, hugeSize];
    OneSlice(small, size);
    SliceOneMore(names, sizes, 1);
    SliceOneMore(names, sizes, 2);
    assert AllSlices(names, sizes, 0) == [];
  }

  lemma OneMegabyteBeforeTheLimit(r: PlanResult)
    requires Decides(["a", "b"], [1024 * 1024, MAX_INT64], r)
    ensures r.Planned? && |r.parts| == 1
  {
    DroppedSourceIsPlanned("a", "b", 1024 * 1024, MAX_INT64, r);
  }

  lemma AllButTheLastAreBig(names: seq<string>, sizes: seq<int64>)
    requires |names| == |sizes| > 0 && Positive(sizes) && AllRoundable(sizes)
    ensures var parts := AllSlices(names, sizes, |sizes|);
      parts != [] && (BigEnough(parts, |parts| - 1) <==> BigUpTo(sizes, |sizes| - 1))
  {
    var n := |sizes|;
    SourcesAreBig(names, sizes, n - 1);
    SourceIsBig(names[n - 1], sizes[n - 1]);
    LastMayBeSmall(AllSlices(names, sizes, n - 1), Slices(names[n - 1], sizes[n - 1]));
  }

  /** The concatenation of the copies of the first `n` parts. */
  ghost function Copied(contents: map<string, Bytes>, parts: seq<ComposePart>, n: nat): Bytes
    requires n <= |parts|
  {
    if n == 0 then [] else Copied(contents, parts, n - 1) + CopyOf(contents, parts[n - 1])
  }

  ghost function CopyOf(contents: map<string, Bytes>, part: ComposePart): Bytes {
    if part.source in contents && 0 <= part.start && 0 <= part.size
    then Clip(contents[part.source], part.start, part.size) else []
  }

  lemma {:induction false} CopiedAppend(contents: map<string, Bytes>, a: seq<ComposePart>, b: seq<ComposePart>, n: nat)
    requires n <= |a| + |b|
    ensures Copied(contents, a + b, n)
         == if n <= |a| then Copied(contents, a, n) else Copied(contents, a, |a|) + Copied(contents, b, n - |a|)
  {
    if n > 0 {
      CopiedAppend(contents, a, b, n - 1);
      assert (a + b)[n - 1] == if n <= |a| then a[n - 1] else b[n - 1 - |a|];
    }
  }

  /** Tiles copy exactly the rest of their source. */
  lemma {:induction false} TilesCopyAll(
    contents: map<string, Bytes>, parts: seq<ComposePart>, source: string, size: int, base: int, start: int)
    requires Tiles(parts, source, size, base, start)
    requires source in contents && |contents[source]| == size && 0 <= start && base >= 1
    ensures start <= size && Copied(contents, parts, |parts|) == contents[source][start..]
    decreases |parts|
  {
    if parts != [] {
      var next := start + parts[0].size;
      TilesCopyAll(contents, parts[1..], source, size, base, next);
      assert parts == [parts[0]] + parts[1..];
      CopiedAppend(contents, [parts[0]], parts[1..], |parts|);
      assert Copied(contents, [parts[0]], 1) == contents[source][start..next] by {
        assert Copied(contents, [parts[0]], 0) == [];
      }
      SliceOff(contents[source], start, next);
    }
  }

  lemma SliceOff(content: Bytes, start: nat, next: nat)
    requires start <= next <= |content|
    ensures content[start..next] + content[next..] == content[start..]
  {
  }

  /** The contents of the first `n` sources. */
  ghost function Sources(contents: map<string, Bytes>, names: seq<string>, n: nat): seq<Bytes>
    requires n <= |names| && forall i :: 0 <= i < n ==> names[i] in contents
  {
    if n == 0 then [] else Sources(contents, names, n - 1) + [contents[names[n - 1]]]
  }

  ghost predicate SizesOf(contents: map<string, Bytes>, names: seq<string>, sizes: seq<int64>) {
    && |names| == |sizes|
    && forall i :: 0 <= i < |names| ==> names[i] in contents && |contents[names[i]]| == sizes[i]
  }

  /** A rounded source is copied in full; the slices of one whose rounding sum
      wraps are missing from the plan altogether. */
  lemma SourceCopied(contents: map<string, Bytes>, source: string, size: int64)
    requires source in contents && |contents[source]| == size > 0
    ensures var slices := Slices(source, size);
      Copied(contents, slices, |slices|) == if Roundable(size) then contents[source] else []
  {
    SliceCountIs(size);
    if Roundable(size) {
      SlicesTileSource(source, size);
      TilesCopyAll(contents, Slices(source, size), source, size, size / SliceCount(size), 0);
    }
  }

  /** The bytes the plan copies of the first `n` sources. */
  ghost function PlannedBytes(contents: map<string, Bytes>, names: seq<string>, sizes: seq<int64>, n: nat): Bytes
    requires n <= |names| == |sizes| && Positive(sizes)
  {
    var parts := AllSlices(names, sizes, n);
    Copied(contents, parts, |parts|)
  }

  ghost predicate CopiesUpTo(copied: Bytes, wanted: Bytes, complete: bool) {
    |copied| <= |wanted| && (if complete then copied == wanted else |copied| < |wanted|)
  }

  predicate RoundableUpTo(sizes: seq<int64>, n: nat)
    requires n <= |sizes|
  {
    n == 0 || (RoundableUpTo(sizes, n - 1) && Roundable(sizes[n - 1]))
  }

  lemma {:induction false} RoundableUpToMeans(sizes: seq<int64>, n: nat)
    requires n <= |sizes|
    ensures RoundableUpTo(sizes, n) <==> forall i :: 0 <= i < n ==> Roundable(sizes[i])
  {
    if n > 0 {
      RoundableUpToMeans(sizes, n - 1);
    }
  }

  lemma {:induction false} CopiedBySource(contents: map<string, Bytes>, names: seq<string>, sizes: seq<int64>, n: nat)
    requires SizesOf(contents, names, sizes) && Positive(sizes) && n <= |names|
    ensures CopiesUpTo(
      PlannedBytes(contents, names, sizes, n), Flatten(Sources(contents, names, n)), RoundableUpTo(sizes, n))
  {
    if n > 0 {
      CopiedBySource(contents, names, sizes, n - 1);
      PlannedOneMore(contents, names, sizes, n);
      FlattenSnoc(Sources(contents, names, n - 1), contents[names[n - 1]]);
      CopiesOneMore(
        PlannedBytes(contents, names, sizes, n - 1), Flatten(Sources(contents, names, n - 1)),
        RoundableUpTo(sizes, n - 1), Roundable(sizes[n - 1]), contents[names[n - 1]]);
    }
  }

  lemma PlannedOneMore(contents: map<string, Bytes>, names: seq<string>, sizes: seq<int64>, n: nat)
    requires SizesOf(contents, names, sizes) && Positive(sizes) && 1 <= n <= |names|
    ensures PlannedBytes(contents, names, sizes, n)
         == PlannedBytes(contents, names, sizes, n - 1) + (if Roundable(sizes[n - 1]) then contents[names[n - 1]] else [])
  {
    SourceCopied(contents, names[n - 1], sizes[n - 1]);
    AppendCopied(contents, AllSlices(names, sizes, n - 1), Slices(names[n - 1], sizes[n - 1]));
  }

  lemma CopiesOneMore(copied: Bytes, wanted: Bytes, complete: bool, roundable: bool, source: Bytes)
    requires source != [] && CopiesUpTo(copied, wanted, complete)
    ensures CopiesUpTo(copied + (if roundable then source else []), wanted + source, complete && roundable)
  {
  }

  lemma AppendCopied(contents: map<string, Bytes>, a: seq<ComposePart>, b: seq<ComposePart>)
    ensures Copied(contents, a + b, |a + b|) == Copied(contents, a, |a|) + Copied(contents, b, |b|)
  {
    CopiedAppend(contents, a, b, |a| + |b|);
  }

  /** Copying the planned slices in order concatenates the sources exactly when
      no source is so large that the rounding sum wraps. */
  lemma PlanPreservesContent(contents: map<string, Bytes>, names: seq<string>, sizes: seq<int64>)
    requires SizesOf(contents, names, sizes) && Positive(sizes)
    ensures PlannedBytes(contents, names, sizes, |names|) == Flatten(Sources(contents, names, |names|)) <==> AllRoundable(sizes)
  {
    CopiedBySource(contents, names, sizes, |names|);
    RoundableUpToMeans(sizes, |names|);
  }

  datatype ComposeOutcome = Composed | ComposeUnsupported | SourceNotFound | ComposeFailed | ComposePanic

  predicate AllThere(objects: map<string, Bytes>, names: seq<string>) {
    forall i :: 0 <= i < |names| ==> names[i] in objects
  }

  ghost predicate AllFit(objects: map<string, Bytes>) {
    forall name :: name in objects ==> |objects[name]| <= MAX_INT64
  }

  ghost function SourceSizes(objects: map<string, Bytes>, names: seq<string>): (sizes: seq<int64>)
    requires AllThere(objects, names) && AllFit(objects)
    ensures SizesOf(objects, names, sizes)
  {
    seq(|names|, i requires 0 <= i < |names| => |objects[names[i]]|)
  }

  /** What composing comes to when every request is answered. */
  ghost function Verdict(objects: map<string, Bytes>, names: seq<string>): ComposeOutcome
    requires AllFit(objects)
  {
    if names == [] || |names| > MAX_PARTS then ComposeUnsupported
    else if !AllThere(objects, names) then SourceNotFound
    else if Acceptable(SourceSizes(objects, names)) then Composed
    else if Positive(SourceSizes(objects, names)) && Kept(SourceSizes(objects, names), |names|) == [] then ComposePanic
    else ComposeUnsupported
  }

  lemma SizesAreUnique(objects: map<string, Bytes>, names: seq<string>, sizes: seq<int64>)
    requires SizesOf(objects, names, sizes) && AllFit(objects)
    ensures SourceSizes(objects, names) == sizes
  {
  }

  datatype Answer = Answered | NotSupported | Broken

  /** The outcome of a request that was not answered. */
  function Refused(answer: Answer): ComposeOutcome {
    if answer.NotSupported? then ComposeUnsupported else ComposeFailed
  }

  /** An object store that composes on the server. Requests may break unless it
      is `reliable`, and may be refused as unsupported unless it is `capable`. */
  class ObjectStore {
    var objects: map<string, Bytes>
    const reliable: bool
    const capable: bool

    constructor (objects: map<string, Bytes>, reliable: bool, capable: bool)
      ensures this.objects == objects && this.reliable == reliable && this.capable == capable
    {
      this.objects, this.reliable, this.capable := objects, reliable, capable;
    }

    /** An answer that this store can give. */
    ghost predicate Gives(answer: Answer) {
      (reliable ==> !answer.Broken?) && (capable ==> !answer.NotSupported?)
    }

    method Request() returns (answer: Answer)
      ensures Gives(answer)
    {
      answer := *;
      if (answer.Broken? && reliable) || (answer.NotSupported? && capable) {
        answer := Answered;
      }
    }

    method InspectSources(names: seq<string>) returns (sizes: seq<int64>, outcome: ComposeOutcome)
      requires AllFit(objects)
      ensures outcome in {Composed, SourceNotFound, ComposeUnsupported, ComposeFailed}
      ensures outcome == Composed ==> SizesOf(objects, names, sizes)
      ensures outcome == SourceNotFound ==> !AllThere(objects, names)
      ensures outcome == ComposeUnsupported ==> !capable
      ensures outcome == ComposeFailed ==> !reliable
    {
      sizes := [];
      for index := 0 to |names|
        invariant |sizes| == index
        invariant forall i :: 0 <= i < index ==> names[i] in objects && |objects[names[i]]| == sizes[i]
      {
        var answer := Request();
        if !answer.Answered? {
          return sizes, Refused(answer);
        }
        if names[index] !in objects {
          return sizes, SourceNotFound;
        }
        sizes := sizes + [|objects[names[index]]|];
      }
      return sizes, Composed;
    }

    /** One UploadPartCopy: the whole source without a range, else the range. */
    method CopyPart(part: ComposePart) returns (copied: Bytes, answer: Answer)
      requires LiesWithin(objects, part)
      ensures answer.Answered? ==> copied == CopyOf(objects, part)
      ensures Gives(answer)
    {
      answer := Request();
      if part.start != 0 || part.size != part.sourceSize {
        copied := objects[part.source][part.start..part.start + part.size];
      } else {
        copied := objects[part.source];
      }
    }

    method CopyParts(parts: seq<ComposePart>) returns (uploaded: Bytes, answer: Answer)
      requires AllLieWithin(objects, parts)
      ensures answer.Answered? ==> uploaded == Copied(objects, parts, |parts|)
      ensures Gives(answer)
    {
      uploaded := [];
      for index := 0 to |parts|
        invariant uploaded == Copied(objects, parts, index)
      {
        var copied;
        copied, answer := CopyPart(parts[index]);
        if !answer.Answered? {
          return;
        }
        uploaded := uploaded + copied;
      }
      return uploaded, Answered;
    }

    /** CompleteMultipartUpload, which may land although its answer is lost. */
    method Complete(destination: string, uploaded: Bytes) returns (answer: Answer)
      modifies this
      ensures objects == old(objects) || objects == old(objects)[destination := uploaded]
      ensures answer.Answered? ==> objects == old(objects)[destination := uploaded]
      ensures answer.NotSupported? ==> objects == old(objects)
      ensures Gives(answer)
    {
      var landed := *;
      answer := Request();
      if answer.Answered? || (answer.Broken? && landed) {
        objects := objects[destination := uploaded];
      }
    }

    method ComposeObjects(destination: string, names: seq<string>) returns (outcome: ComposeOutcome)
      requires AllFit(objects)
      modifies this
      // Every outcome has its reason, and with all requests answered it is
      // decided by the sizes of the sources.
      ensures reliable && capable ==> outcome == Verdict(old(objects), names)
      ensures outcome == Composed ==> Verdict(old(objects), names) == Composed
      ensures outcome == ComposeUnsupported ==> !capable || Verdict(old(objects), names) == ComposeUnsupported
      ensures outcome == SourceNotFound ==> Verdict(old(objects), names) == SourceNotFound
      ensures outcome == ComposePanic ==> Verdict(old(objects), names) == ComposePanic
      ensures outcome == ComposeFailed ==> !reliable
      ensures outcome == Composed ==> Landed(old(objects), objects, destination, names)
      // A completion may land although its answer is lost.
      ensures outcome == ComposeFailed ==> objects == old(objects) || Landed(old(objects), objects, destination, names)
      ensures outcome !in {Composed, ComposeFailed} ==> objects == old(objects)
    {
      if |names| == 0 || |names| > MAX_PARTS {
        return ComposeUnsupported;
      }
      var sizes;
      sizes, outcome := InspectSources(names);
      if outcome != Composed {
        return;
      }
      SizesAreUnique(objects, names, sizes);
      var plan := PlanParts(names, sizes);
      AcceptsExactly(names, sizes, plan);
      if !plan.Planned? {
        return if plan == Panic then ComposePanic else ComposeUnsupported;
      }
      var answer := Request();
      if !answer.Answered? {
        return Refused(answer);
      }
      SlicesLieWithin(objects, names, sizes, |names|);
      var uploaded;
      uploaded, answer := CopyParts(plan.parts);
      if !answer.Answered? {
        return Refused(answer);
      }
      PutLands(objects, destination, names, sizes, plan.parts);
      answer := Complete(destination, uploaded);
      return if answer.Answered? then Composed else Refused(answer);
    }
  }

  /** The composed object is in place, and nothing else changed. It holds the
      sources' bytes exactly when no source was dropped. */
  ghost predicate Landed(before: map<string, Bytes>, after: map<string, Bytes>, destination: string, names: seq<string>) {
    && (forall i :: 0 <= i < |names| ==> names[i] in before)
    && after.Keys == before.Keys + {destination}
    && (forall name :: name in before && name != destination ==> after[name] == before[name])
    && (after[destination] == Flatten(Sources(before, names, |names|)) <==>
          forall i :: 0 <= i < |names| ==> Roundable(|before[names[i]]|))
  }

  lemma PutLands(objects: map<string, Bytes>, destination: string, names: seq<string>, sizes: seq<int64>, parts: seq<ComposePart>)
    requires SizesOf(objects, names, sizes) && Positive(sizes) && parts == AllSlices(names, sizes, |names|)
    ensures Landed(objects, objects[destination := Copied(objects, parts, |parts|)], destination, names)
  {
    PlanPreservesContent(objects, names, sizes);
  }

  /** A planned part asks for existing bytes of its source. */
  ghost predicate LiesWithin(contents: map<string, Bytes>, part: ComposePart) {
    && part.source in contents && part.start >= 0 && part.size >= 1
    && part.start + part.size <= |contents[part.source]| == part.sourceSize
  }

  ghost predicate AllLieWithin(contents: map<string, Bytes>, parts: seq<ComposePart>) {
    forall k :: 0 <= k < |parts| ==> LiesWithin(contents, parts[k])
  }

  lemma {:induction false} TilesLieWithin(
    contents: map<string, Bytes>, parts: seq<ComposePart>, source: string, size: int, base: int, start: int)
    requires Tiles(parts, source, size, base, start) && source in contents && |contents[source]| == size
    requires 0 <= start && base >= 1
    ensures AllLieWithin(contents, parts)
    decreases |parts|
  {
    if parts != [] {
      TilesLieWithin(contents, parts[1..], source, size, base, start + parts[0].size);
      TilesCopyAll(contents, parts[1..], source, size, base, start + parts[0].size);
      assert forall k :: 0 < k < |parts| ==> parts[k] == parts[1..][k - 1];
    }
  }

  lemma {:induction false} SlicesLieWithin(contents: map<string, Bytes>, names: seq<string>, sizes: seq<int64>, n: nat)
    requires SizesOf(contents, names, sizes) && Positive(sizes) && n <= |names|
    ensures AllLieWithin(contents, AllSlices(names, sizes, n))
  {
    if n > 0 {
      SlicesLieWithin(contents, names, sizes, n - 1);
      SourceLiesWithin(contents, names[n - 1], sizes[n - 1]);
    }
  }

  lemma SourceLiesWithin(contents: map<string, Bytes>, source: string, size: int64)
    requires source in contents && |contents[source]| == size > 0
    ensures AllLieWithin(contents, Slices(source, size))
  {
    SliceCountIs(size);
    if Roundable(size) {
      SlicesTileSource(source, size);
      TilesLieWithin(contents, Slices(source, size), source, size, size / SliceCount(size), 0);
    }
  }
}
