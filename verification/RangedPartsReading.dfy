/** Reading one byte range across the parts of a cache
    (internal/cache/ranged_parts_reader.go). */
module RangedPartsReading {
  import opened Int64
  import opened ObjectNames
  import opened ObjectStreams
  import opened Octets
  import opened PartIndexes
  import opened Sequences

  /** `count` bytes of part `part` from `offset` on. */
  datatype Piece = Piece(part: nat, offset: nat, count: nat)

  /** The pieces a reader standing at (part, offset) still opens. */
  ghost function Plan(index: PartIndex, part: nat, offset: nat, remaining: nat): seq<Piece>
    decreases |index.ends| - part
  {
    if remaining == 0 || part >= |index.ends| then []
    else
      var available := index.Size(part) - offset;
      if available <= 0 then Plan(index, part + 1, 0, remaining)
      else
        var count := Min(available, remaining);
        [Piece(part, offset, count)] + Plan(index, part + 1, 0, remaining - count)
  }

  ghost function Counted(pieces: seq<Piece>): nat {
    if pieces == [] then 0 else pieces[0].count + Counted(pieces[1..])
  }

  lemma {:induction false} CountedAppend(a: seq<Piece>, b: seq<Piece>)
    ensures Counted(a + b) == Counted(a) + Counted(b)
  {
    if a == [] {
      assert a + b == b;
    } else {
      assert (a + b)[1..] == a[1..] + b;
      CountedAppend(a[1..], b);
    }
  }

  /** What is stored of a piece. */
  ghost function PieceBytes(objects: map<string, Bytes>, folder: string, piece: Piece): Bytes {
    var name := PartObject(folder, piece.part);
    if name in objects then Clip(objects[name], piece.offset, piece.count) else []
  }

  ghost function StoredPieces(objects: map<string, Bytes>, folder: string, plan: seq<Piece>): seq<Bytes> {
    if plan == [] then []
    else [PieceBytes(objects, folder, plan[0])] + StoredPieces(objects, folder, plan[1..])
  }

  lemma {:induction false} StoredPieceAt(objects: map<string, Bytes>, folder: string, plan: seq<Piece>, i: nat)
    requires i < |plan|
    ensures |StoredPieces(objects, folder, plan)| == |plan|
    ensures StoredPieces(objects, folder, plan)[i] == PieceBytes(objects, folder, plan[i])
  {
    if i > 0 {
      StoredPieceAt(objects, folder, plan[1..], i - 1);
    } else if |plan| > 1 {
      StoredPieceAt(objects, folder, plan[1..], 0);
    }
  }

  lemma {:induction false} StoredPiecesAreShort(objects: map<string, Bytes>, folder: string, plan: seq<Piece>)
    ensures var stored := StoredPieces(objects, folder, plan);
      |stored| == |plan| && forall i :: 0 <= i < |plan| ==> |stored[i]| <= plan[i].count
  {
    if plan != [] {
      StoredPiecesAreShort(objects, folder, plan[1..]);
    }
  }

  /** Nothing of the pieces is missing. */
  ghost predicate FullyStored(plan: seq<Piece>, stored: seq<Bytes>) {
    |plan| == |stored| && forall i :: 0 <= i < |plan| ==> |stored[i]| == plan[i].count
  }

  ghost predicate PartsAre(objects: map<string, Bytes>, folder: string, contents: seq<Bytes>) {
    forall i :: 0 <= i < |contents| ==>
      PartObject(folder, i) in objects && objects[PartObject(folder, i)] == contents[i]
  }

  /** The piece lies within these contents. */
  ghost predicate Within(contents: seq<Bytes>, piece: Piece) {
    piece.part < |contents| && piece.offset + piece.count <= |contents[piece.part]|
  }

  /** The index gives every part its length. */
  ghost predicate Sized(index: PartIndex, contents: seq<Bytes>) {
    |index.ends| == |contents| && forall i :: 0 <= i < |contents| ==> index.Size(i) == |contents[i]|
  }

  lemma DescribedIsSized(index: PartIndex, contents: seq<Bytes>)
    requires index.Describes(Lengths(contents))
    ensures Sized(index, contents)
  {
    forall i | 0 <= i < |contents|
      ensures index.Size(i) == |contents[i]|
    {
      StartsAreSums(index, Lengths(contents), i);
    }
  }

  ghost predicate AllWithin(contents: seq<Bytes>, plan: seq<Piece>) {
    forall i :: 0 <= i < |plan| ==> Within(contents, plan[i])
  }

  ghost function Cut(contents: seq<Bytes>, plan: seq<Piece>): Bytes
    requires AllWithin(contents, plan)
  {
    if plan == [] then []
    else
      assert Within(contents, plan[0]);
      contents[plan[0].part][plan[0].offset..plan[0].offset + plan[0].count] + Cut(contents, plan[1..])
  }

  /** The plan from here reads the next `remaining` bytes. */
  ghost predicate PlanReads(index: PartIndex, contents: seq<Bytes>, part: nat, offset: nat, remaining: nat)
    requires part <= |contents| && offset + remaining <= |Flatten(contents[part..])|
  {
    Reads(contents, Plan(index, part, offset, remaining), remaining, Flatten(contents[part..])[offset..offset + remaining])
  }

  lemma PlanSkips(index: PartIndex, contents: seq<Bytes>, part: nat, remaining: nat)
    requires Sized(index, contents) && part < |contents| && remaining > 0
    requires remaining <= |Flatten(contents[part + 1..])| && PlanReads(index, contents, part + 1, 0, remaining)
    ensures |contents[part]| + remaining <= |Flatten(contents[part..])|
    ensures PlanReads(index, contents, part, |contents[part]|, remaining)
  {
    FlattenFrom(contents, part);
    SliceBehind(contents[part], Flatten(contents[part + 1..]), 0, remaining);
    assert Plan(index, part, |contents[part]|, remaining) == Plan(index, part + 1, 0, remaining);
  }

  lemma PlanOpens(index: PartIndex, contents: seq<Bytes>, part: nat, offset: nat, remaining: nat)
    requires Sized(index, contents) && part < |contents| && offset < |contents[part]| && remaining > 0
    ensures var count := Min(|contents[part]| - offset, remaining);
      Plan(index, part, offset, remaining) == [Piece(part, offset, count)] + Plan(index, part + 1, 0, remaining - count)
  {
  }

  lemma PlanGoesOn(index: PartIndex, contents: seq<Bytes>, part: nat, offset: nat, remaining: nat)
    requires Sized(index, contents) && part < |contents| && offset < |contents[part]| && remaining > 0
    requires var rest := remaining - Min(|contents[part]| - offset, remaining);
      rest <= |Flatten(contents[part + 1..])| && PlanReads(index, contents, part + 1, 0, rest)
    ensures offset + remaining <= |Flatten(contents[part..])| && PlanReads(index, contents, part, offset, remaining)
  {
    var count := Min(|contents[part]| - offset, remaining);
    FlattenFrom(contents, part);
    PlanOpens(index, contents, part, offset, remaining);
    PrependPiece(contents, Piece(part, offset, count), Plan(index, part + 1, 0, remaining - count), remaining,
                 Flatten(contents[part + 1..]));
  }

  /** Standing anywhere in the parts, the plan reads exactly the next
      `remaining` bytes of the parts' concatenation. */
  lemma {:induction false} PlanReadsSlice(
    index: PartIndex, contents: seq<Bytes>, part: nat, offset: nat, remaining: nat)
    requires Sized(index, contents)
    requires part <= |contents|
    requires part == |contents| ==> offset == 0
    requires part < |contents| ==> offset <= |contents[part]|
    requires offset + remaining <= |Flatten(contents[part..])|
    ensures Reads(contents, Plan(index, part, offset, remaining), remaining, Flatten(contents[part..])[offset..offset + remaining])
    decreases |contents| - part
  {
    if remaining > 0 {
      FlattenFrom(contents, part);
      var count := Min(|contents[part]| - offset, remaining);
      PlanReadsSlice(index, contents, part + 1, 0, remaining - count);
      if offset == |contents[part]| {
        PlanSkips(index, contents, part, remaining);
      } else {
        PlanGoesOn(index, contents, part, offset, remaining);
      }
    }
  }

  lemma FlattenFrom(contents: seq<Bytes>, part: nat)
    requires part < |contents|
    ensures Flatten(contents[part..]) == contents[part] + Flatten(contents[part + 1..])
  {
    assert contents[part..][0] == contents[part] && contents[part..][1..] == contents[part + 1..];
  }

  lemma PrependPiece(contents: seq<Bytes>, piece: Piece, next: seq<Piece>, remaining: nat, later: Bytes)
    requires Within(contents, piece)
    requires piece.count == Min(|contents[piece.part]| - piece.offset, remaining) > 0
    requires remaining - piece.count <= |later|
    requires Reads(contents, next, remaining - piece.count, later[0..0 + (remaining - piece.count)])
    ensures Reads(contents, [piece] + next, remaining, (contents[piece.part] + later)[piece.offset..piece.offset + remaining])
  {
    CutCons(contents, piece, next, remaining - piece.count, later[0..0 + (remaining - piece.count)]);
    SliceAcross(contents[piece.part], later, piece.offset, piece.count, remaining);
  }

  ghost predicate Reads(contents: seq<Bytes>, plan: seq<Piece>, count: nat, bytes: Bytes) {
    AllWithin(contents, plan) && Counted(plan) == count && Cut(contents, plan) == bytes
  }

  lemma CutCons(contents: seq<Bytes>, piece: Piece, later: seq<Piece>, count: nat, bytes: Bytes)
    requires Within(contents, piece) && Reads(contents, later, count, bytes)
    ensures Reads(contents, [piece] + later, piece.count + count,
                  contents[piece.part][piece.offset..piece.offset + piece.count] + bytes)
  {
    assert ([piece] + later)[1..] == later;
  }

  lemma SliceAcross(first: Bytes, rest: Bytes, offset: nat, count: nat, remaining: nat)
    requires count == Min(|first| - offset, remaining) > 0 && remaining - count <= |rest|
    ensures offset + remaining <= |first + rest|
    ensures (first + rest)[offset..offset + remaining] == first[offset..offset + count] + rest[0..0 + (remaining - count)]
  {
  }

  lemma PieceIsStored(objects: map<string, Bytes>, folder: string, contents: seq<Bytes>, piece: Piece)
    requires PartsAre(objects, folder, contents) && Within(contents, piece)
    ensures PieceBytes(objects, folder, piece) == contents[piece.part][piece.offset..piece.offset + piece.count]
  {
  }

  lemma OneMoreStored(plan: seq<Piece>, first: Bytes, later: seq<Bytes>)
    requires plan != [] && |first| == plan[0].count && FullyStored(plan[1..], later)
    ensures FullyStored(plan, [first] + later) && Flatten([first] + later) == first + Flatten(later)
  {
    assert ([first] + later)[1..] == later;
    forall i | 0 <= i < |plan|
      ensures |([first] + later)[i]| == plan[i].count
    {
      assert i > 0 ==> ([first] + later)[i] == later[i - 1] && plan[i] == plan[1..][i - 1];
    }
  }

  lemma {:induction false} StoredIsCut(
    objects: map<string, Bytes>, folder: string, contents: seq<Bytes>, plan: seq<Piece>)
    requires PartsAre(objects, folder, contents)
    requires AllWithin(contents, plan)
    ensures FullyStored(plan, StoredPieces(objects, folder, plan))
    ensures Flatten(StoredPieces(objects, folder, plan)) == Cut(contents, plan)
  {
    if plan != [] {
      assert Within(contents, plan[0]);
      StoredIsCut(objects, folder, contents, plan[1..]);
      PieceIsStored(objects, folder, contents, plan[0]);
      OneMoreStored(plan, PieceBytes(objects, folder, plan[0]), StoredPieces(objects, folder, plan[1..]));
    }
  }

  /** Delivered are the finished pieces, all of them in full, and the beginning
      of the next one. */
  ghost predicate InOrder(plan: seq<Piece>, stored: seq<Bytes>, finished: nat, tail: Bytes, delivered: Bytes) {
    && finished <= |plan| == |stored|
    && (forall i :: 0 <= i < finished ==> |stored[i]| == plan[i].count)
    && (forall i :: 0 <= i < |plan| ==> |stored[i]| <= plan[i].count)
    && delivered == Flatten(stored[..finished]) + tail
    && (tail != [] ==> finished < |plan| && tail <= stored[finished])
  }

  lemma MoreDelivered(plan: seq<Piece>, stored: seq<Bytes>, finished: nat, tail: Bytes, delivered: Bytes, out: Bytes)
    requires InOrder(plan, stored, finished, tail, delivered)
    requires finished < |plan| && tail + out <= stored[finished]
    ensures InOrder(plan, stored, finished, tail + out, delivered + out)
  {
    assert Flatten(stored[..finished]) + tail + out == Flatten(stored[..finished]) + (tail + out);
  }

  /** The reader. If it is `shared`, another goroutine may close it at any time,
      also while a Read is between two of its critical sections. */
  class RangedPartsReader {
    const storage: Storage
    const folder: string
    const shared: bool
    const parts: PartIndex
    var index: nat
    var partOffset: int64
    var remaining: int64
    var current: ExactLengthReader?
    var currentCount: int64
    var closed: bool

    // The whole plan and what is stored of each piece, the number of pieces
    // read to their end, what was read of the next one, and every byte
    // returned so far.
    ghost const plan: seq<Piece>
    ghost const stored: seq<Bytes>
    ghost const requested: nat
    ghost var finished: nat
    ghost var tail: Bytes
    ghost var delivered: Bytes

    ghost function CurrentBody(): set<Body>
      reads this
    {
      if current != null then {current.reader} else {}
    }

    ghost function Footprint(): set<object>
      reads this
    {
      if current != null then {current, current.reader} else {}
    }

    ghost predicate Valid()
      reads this, Footprint()
    {
      && Progress()
      && (closed ==> current == null)
      && (!closed && current == null ==>
            && tail == [] && currentCount == 0
            && Counted(plan[..finished]) + remaining == requested
            && plan[finished..] == Plan(parts, index, partOffset, remaining))
      && (current != null ==> Reading(current))
    }

    /** Whatever happens, the bytes returned are those of the pieces in order. */
    ghost predicate Progress()
      reads this
    {
      && stored == StoredPieces(storage.objects, folder, plan)
      && InOrder(plan, stored, finished, tail, delivered)
      && (forall i :: 0 <= i < |parts.ends| ==> parts.ends[i] >= 0)
      && remaining >= 0 && partOffset >= 0
    }

    /** `stream` reads piece number `finished`. */
    ghost predicate Streams(stream: ExactLengthReader)
      reads this, stream, stream.reader
    {
      && stream.Valid()
      && finished < |plan| == |stored|
      && stream.reader.data == stored[finished]
      && PartObject(folder, plan[finished].part) in storage.objects
      && stream.count == plan[finished].count
      && stream.reader.reliable == storage.reliable && stream.reader.prompt == storage.prompt
      && tail == stream.Delivered()
    }

    ghost predicate Reading(stream: ExactLengthReader)
      reads this, stream, stream.reader
    {
      && Streams(stream)
      && !stream.reader.closed
      && currentCount == stream.count <= remaining && partOffset >= 0
      && Counted(plan[..finished]) + remaining == requested
      && plan[finished + 1..] == Plan(parts, index, partOffset, remaining - currentCount)
    }

    /** All pieces are stored in full and make up the whole range. */
    ghost predicate Servable()
      reads this
    {
      FullyStored(plan, stored) && Counted(plan) == requested
    }

    /** The whole range was delivered. */
    ghost predicate Complete()
      reads this
    {
      Servable() && delivered == Flatten(stored)
    }

    ghost predicate MayFail()
      reads this
    {
      closed || !storage.reliable || !Servable()
    }

    /** A part that the plan needs is not there. */
    ghost predicate SomeMissing() {
      exists i :: 0 <= i < |plan| && PartObject(folder, plan[i].part) !in storage.objects
    }

    /** A part is there but shorter than the index says, or the parts of the
        index end before the range does. */
    ghost predicate SomeShort() {
      || Counted(plan) < requested
      || exists i :: 0 <= i < |plan| && PartTooShort(plan[i])
    }

    ghost predicate PartTooShort(piece: Piece) {
      var name := PartObject(folder, piece.part);
      name in storage.objects && piece.offset + piece.count > |storage.objects[name]|
    }

    /** What each error says. */
    ghost predicate Means(err: IoError)
      reads this
    {
      && (err == ClosedPipe ==> closed)
      && (err == CacheNotFound ==> SomeMissing())
      && (err in {StorageError, UnexpectedEOF} ==> closed || !storage.reliable || SomeShort())
    }

    constructor (
      storage: Storage, folder: string, parts: PartIndex, offset: int64, count: int64, shared: bool, ghost sizes: seq<int>)
      requires parts.Describes(sizes) && offset >= 0 && count >= 0
      ensures Valid() && delivered == [] && !closed && current == null
      ensures this.storage == storage && this.folder == folder && this.shared == shared && requested == count
      ensures exists part: nat, partOffset: int ::
        Located(parts, offset, part, partOffset) && partOffset >= 0 && plan == Plan(parts, part, partOffset, count)
    {
      var part, start := Locate(parts, offset, sizes);
      ghost var pieces := Plan(parts, part, start, count);
      StoredPiecesAreShort(storage.objects, folder, pieces);
      EndsAreNotNegative(parts, sizes);
      this.storage, this.folder, this.shared, this.parts := storage, folder, shared, parts;
      index, partOffset, remaining := part, start, count;
      current, currentCount, closed := null, 0, false;
      plan := pieces;
      stored := StoredPieces(storage.objects, folder, pieces);
      requested := count;
      finished, tail, delivered := 0, [], [];
    }

    method Close() returns (err: IoError)
      requires Valid()
      modifies this`current, this`closed, CurrentBody()`closed
      ensures Valid() && closed
      ensures delivered == old(delivered) && finished == old(finished) && tail == old(tail)
      ensures old(closed) ==> err == NoError
      ensures old(current) != null ==> old(current).reader.closed
      ensures storage.reliable ==> err == NoError
    {
      if closed {
        return NoError;
      }
      closed := true;
      var stream := current;
      current := null;
      if stream != null {
        err := stream.Close();
      } else {
        err := NoError;
      }
    }

    /** Another goroutine runs, and may close the reader. */
    method Interfere()
      requires Valid()
      modifies this`current, this`closed, CurrentBody()`closed
      ensures Valid()
      ensures delivered == old(delivered) && finished == old(finished) && tail == old(tail)
      ensures closed || (current == old(current) && closed == old(closed) && index == old(index) && remaining == old(remaining))
      ensures current != null ==> current == old(current)
      ensures !shared ==> closed == old(closed)
    {
      var closes: bool := *;
      if shared && closes {
        var err := Close();
      }
    }

    /** Ask storage for piece number `finished`. */
    method OpenPiece(part: nat, offset: int64, count: int64) returns (stream: ExactLengthReader?, err: IoError)
      requires Progress() && offset >= 0 && count > 0 && offset + count <= MAX_INT64
      requires finished < |plan| && plan[finished] == Piece(part, offset, count)
      ensures err == NoError <==> stream != null
      ensures stream != null ==>
        && fresh(stream) && fresh(stream.reader)
        && stream.Valid() && stream.reader.pos == 0 && !stream.reader.closed
        && stream.reader.data == stored[finished] && stream.count == count
        && stream.reader.reliable == storage.reliable && stream.reader.prompt == storage.prompt
      ensures stream != null ==> PartObject(folder, part) in storage.objects
      ensures err in {NoError, CacheNotFound, StorageError}
      ensures err == CacheNotFound ==> SomeMissing()
      ensures err == StorageError ==> !storage.reliable || SomeShort()
      ensures err != NoError ==> !storage.reliable || !Servable()
    {
      stream, err := storage.CreateRangedDownloadStream(PartObject(folder, part), offset, count);
      if err == NoError {
        StoredPieceAt(storage.objects, folder, plan, finished);
      } else if storage.reliable {
        PieceIsMissing(storage.objects, folder, plan, finished);
      }
    }

    /** Open the stream of the next piece. */
    method OpenNext() returns (stream: ExactLengthReader?, err: IoError)
      requires Valid() && !closed && current == null
      requires remaining > 0 && index < |parts.ends| && parts.Size(index) - partOffset > 0
      modifies this`current, this`currentCount, this`index, this`partOffset, this`closed
      ensures Valid()
      ensures delivered == old(delivered) && finished == old(finished)
      ensures err == NoError <==> stream != null
      ensures err != NoError ==> current == null
      ensures stream != null ==> !closed && current == stream && fresh(stream) && fresh(stream.reader)
      ensures err in {NoError, ClosedPipe, CacheNotFound, StorageError}
      ensures !shared ==> !closed
      ensures err != NoError ==> MayFail() && Means(err)
    {
      var part, offset := index, partOffset;
      var count := Min(parts.Size(part) - offset, remaining);
      NextPiece(plan, finished, Piece(part, offset, count), Plan(parts, part + 1, 0, remaining - count));
      stream, err := OpenPiece(part, offset, count);
      if err != NoError {
        return null, err;
      }
      Interfere();
      if closed {
        var closeErr := stream.Close();
        return null, ClosedPipe;
      }
      Adopt(stream, count);
    }

    /** The opened stream becomes the current one. */
    method Adopt(stream: ExactLengthReader, count: int64)
      requires Progress() && !closed && Streams(stream) && !stream.reader.closed
      requires Counted(plan[..finished]) + remaining == requested
      requires stream.count == count <= remaining && index < |parts.ends|
      requires plan[finished + 1..] == Plan(parts, index + 1, 0, remaining - count)
      modifies this`current, this`currentCount, this`index, this`partOffset
      ensures Valid() && !closed && current == stream
    {
      current := stream;
      currentCount := count;
      index := index + 1;
      partOffset := 0;
      assert Progress();
      assert Streams(stream);
      assert plan[finished + 1..] == Plan(parts, index, partOffset, remaining - currentCount);
    }

    /** The stream of the piece to read from, opening it if need be. */
    method CurrentStream() returns (stream: ExactLengthReader?, err: IoError)
      requires Valid()
      modifies this
      ensures Valid()
      ensures delivered == old(delivered) && finished == old(finished)
      ensures err == NoError <==> stream != null
      ensures err != NoError ==> current == null
      ensures stream != null ==> !closed && current == stream
      ensures stream != null ==> stream == old(current) || (fresh(stream) && fresh(stream.reader))
      ensures err == EOF ==> !closed && Complete()
      ensures err !in {NoError, EOF} ==> MayFail() && Means(err)
      ensures old(closed) ==> err == ClosedPipe && closed
      ensures !shared ==> closed == old(closed)
    {
      if closed {
        return null, ClosedPipe;
      }
      if current != null {
        return current, NoError;
      }
      while true
        invariant Valid() && !closed && current == null
        invariant delivered == old(delivered) && finished == old(finished)
        decreases |parts.ends| - index
      {
        if remaining == 0 {
          NothingLeft();
          return null, EOF;
        }
        if index >= |parts.ends| {
          NothingLeft();
          return null, UnexpectedEOF;
        }
        var available := parts.Size(index) - partOffset;
        if available > 0 {
          stream, err := OpenNext();
          return;
        }
        SkipPart();
      }
    }

    /** Nothing is wanted of an empty part. */
    method SkipPart()
      requires Valid() && !closed && current == null && remaining > 0
      requires index < |parts.ends| && parts.Size(index) - partOffset <= 0
      modifies this`index, this`partOffset
      ensures Valid() && index == old(index) + 1
    {
      index := index + 1;
      partOffset := 0;
    }

    lemma NothingLeft()
      requires Valid() && !closed && current == null
      requires remaining == 0 || index >= |parts.ends|
      ensures if remaining == 0 then Complete() else !Servable() && SomeShort()
    {
      assert plan[finished..] == [];
      assert plan[..finished] == plan && stored[..finished] == stored;
    }

    /** A piece was read to its end. */
    method FinishPart(stream: ExactLengthReader) returns (err: IoError)
      requires Valid()
      requires current == stream ==> |stream.Delivered()| == stream.count
      modifies this`current, this`remaining, this`currentCount, this`finished, this`tail, stream.reader`closed
      ensures Valid()
      ensures delivered == old(delivered)
      ensures old(current) == stream ==> !closed && finished == old(finished) + 1 && stream.reader.closed
      ensures current == if old(current) == stream then null else old(current)
      ensures old(current) != stream ==> closed == old(closed) && finished == old(finished) && err == NoError
      ensures storage.reliable ==> err == NoError
      ensures err == NoError || err == StorageError
    {
      if current != stream {
        return NoError;
      }
      ReadToItsEnd();
      ForgetPiece();
      err := stream.Close();
    }

    /** What is so when the current piece was read to its end. */
    ghost predicate AtEnd()
      reads this
    {
      && !closed && stored == StoredPieces(storage.objects, folder, plan)
      && InOrder(plan, stored, finished + 1, [], delivered)
      && (forall i :: 0 <= i < |parts.ends| ==> parts.ends[i] >= 0)
      && 0 <= currentCount <= remaining && partOffset >= 0
      && Counted(plan[..finished + 1]) + (remaining - currentCount) == requested
      && plan[finished + 1..] == Plan(parts, index, partOffset, remaining - currentCount)
    }

    lemma ReadToItsEnd()
      requires Valid() && current != null && |current.Delivered()| == current.count
      ensures AtEnd()
    {
      PieceDone(plan, stored, finished, tail, delivered);
    }

    /** The current piece is behind the reader. */
    method ForgetPiece()
      requires AtEnd()
      modifies this`current, this`remaining, this`currentCount, this`finished, this`tail
      ensures Valid() && !closed && current == null && finished == old(finished) + 1
    {
      current := null;
      remaining := remaining - currentCount;
      currentCount := 0;
      finished := finished + 1;
      tail := [];
      assert Progress();
      assert plan[finished..] == Plan(parts, index, partOffset, remaining);
    }

    /** `stream` is the one being read, unless the reader was closed meanwhile. */
    ghost predicate InUse(stream: ExactLengthReader)
      reads this, Footprint(), stream, stream.reader
    {
      Valid() && Streams(stream) && (current == stream || (closed && current == null))
    }

    lemma PieceIsShort(i: nat)
      requires i < |plan| == |stored| && stored == StoredPieces(storage.objects, folder, plan)
      requires PartObject(folder, plan[i].part) in storage.objects && |stored[i]| < plan[i].count
      ensures SomeShort()
    {
      StoredPieceAt(storage.objects, folder, plan, i);
      assert PartTooShort(plan[i]);
    }

    /** Why a stream that is being read fails. */
    lemma StreamFails(stream: ExactLengthReader, err: IoError)
      requires InUse(stream) && err in {UnexpectedEOF, StorageError}
      requires !stream.reader.Faultless() || |stream.reader.data| < stream.count
      ensures MayFail() && Means(err)
    {
      if |stream.reader.data| < stream.count {
        PieceIsShort(finished);
      }
    }

    /** Take the next bytes from the stream. */
    method Receive(stream: ExactLengthReader, max: nat) returns (out: Bytes, err: IoError)
      requires InUse(stream)
      modifies this`delivered, this`tail, stream, stream.reader`pos
      ensures InUse(stream)
      ensures |out| <= max && delivered == old(delivered) + out
      ensures err == EOF ==> out == [] && |stream.Delivered()| == stream.count
      ensures storage.prompt && max > 0 && out == [] ==> err != NoError
      ensures err !in {NoError, EOF} ==>
        err in {UnexpectedEOF, StorageError} && (!stream.reader.Faultless() || |stream.reader.data| < stream.count)
    {
      out, err := stream.Read(max);
      assert tail + out == stream.Delivered() <= stored[finished];
      MoreDelivered(plan, stored, finished, tail, delivered, out);
      tail := tail + out;
      delivered := delivered + out;
    }

    /** Read from the open stream; `again` when it was at its end. */
    method ReadPiece(stream: ExactLengthReader, max: nat) returns (out: Bytes, err: IoError, again: bool)
      requires Valid() && !closed && current == stream
      modifies this, stream, stream.reader
      ensures Valid()
      ensures current == stream || current == null
      ensures |out| <= max && delivered == old(delivered) + out
      ensures err != EOF
      ensures err != NoError ==> MayFail() && Means(err)
      ensures again ==> out == [] && (closed || finished == old(finished) + 1)
      ensures storage.prompt && max > 0 && out == [] && err == NoError ==> again
      ensures !shared ==> !closed
    {
      Interfere();
      out, err := Receive(stream, max);
      if err !in {NoError, EOF} {
        StreamFails(stream, err);
      }
      if err != EOF {
        return out, err, false;
      }
      Interfere();
      var closeErr := FinishPart(stream);
      if |out| > 0 {
        return out, NoError, false;
      }
      return [], closeErr, closeErr == NoError;
    }

    method Read(max: nat) returns (out: Bytes, err: IoError)
      requires Valid()
      modifies this, Footprint()
      ensures Valid()
      ensures |out| <= max && delivered == old(delivered) + out
      // A clean end of the stream means that the whole range was returned.
      ensures err == EOF ==> out == [] && Complete()
      // It comes back with nothing only when storage has answered so.
      ensures max > 0 && out == [] && err == NoError ==> !storage.prompt
      ensures max > 0 && old(closed) ==> err == ClosedPipe
      // It does not close itself.
      ensures !shared ==> closed == old(closed)
      // It fails only when it was closed, storage failed, or bytes are missing.
      ensures err !in {NoError, EOF} ==> MayFail() && Means(err)
      ensures current != null && current != old(current) ==> fresh(current) && fresh(current.reader)
    {
      if max == 0 {
        return [], NoError;
      }
      while true
        invariant Valid() && delivered == old(delivered)
        invariant old(closed) ==> closed
        invariant !shared ==> closed == old(closed)
        invariant current != null && current != old(current) ==> fresh(current) && fresh(current.reader)
        decreases if closed then 0 else 1 + |plan| - finished
      {
        var stream;
        stream, err := CurrentStream();
        if err != NoError {
          return [], err;
        }
        var again;
        out, err, again := ReadPiece(stream, max);
        if !again {
          return out, err;
        }
      }
    }
  }

  lemma PieceIsMissing(objects: map<string, Bytes>, folder: string, plan: seq<Piece>, i: nat)
    requires i < |plan| && plan[i].count > 0
    requires var name := PartObject(folder, plan[i].part);
      name !in objects || plan[i].offset + plan[i].count > |objects[name]|
    ensures !FullyStored(plan, StoredPieces(objects, folder, plan))
  {
    StoredPieceAt(objects, folder, plan, i);
    assert |PieceBytes(objects, folder, plan[i])| < plan[i].count;
  }

  lemma NextPiece(plan: seq<Piece>, finished: nat, piece: Piece, later: seq<Piece>)
    requires finished <= |plan| && plan[finished..] == [piece] + later
    ensures finished < |plan| && plan[finished] == piece && plan[finished + 1..] == later
  {
    assert plan[finished] == plan[finished..][0];
    assert plan[finished + 1..] == plan[finished..][1..];
  }

  lemma EndsAreNotNegative(index: PartIndex, sizes: seq<int>)
    requires index.Describes(sizes)
    ensures forall i :: 0 <= i < |index.ends| ==> index.ends[i] >= 0
  {
    forall i | 0 <= i < |index.ends|
      ensures index.ends[i] >= 0
    {
      TotalDominates(sizes, i + 1);
    }
  }

  lemma PieceDone(plan: seq<Piece>, stored: seq<Bytes>, finished: nat, tail: Bytes, delivered: Bytes)
    requires InOrder(plan, stored, finished, tail, delivered)
    requires finished < |plan| && tail <= stored[finished] && |tail| == plan[finished].count
    ensures InOrder(plan, stored, finished + 1, [], delivered)
    ensures Counted(plan[..finished + 1]) == Counted(plan[..finished]) + plan[finished].count
  {
    assert stored[finished] == tail;
    assert stored[..finished + 1] == stored[..finished] + [stored[finished]];
    FlattenSnoc(stored[..finished], stored[finished]);
    assert plan[..finished + 1] == plan[..finished] + [plan[finished]];
    CountedAppend(plan[..finished], [plan[finished]]);
  }

  lemma SplitAt(contents: seq<Bytes>, part: nat)
    requires part <= |contents|
    ensures Flatten(contents) == Flatten(contents[..part]) + Flatten(contents[part..])
    ensures |Flatten(contents[..part])| == Sum(Lengths(contents)[..part])
  {
    assert contents == contents[..part] + contents[part..];
    FlattenAppend(contents[..part], contents[part..]);
    FlattenLength(contents[..part]);
    assert Lengths(contents[..part]) == Lengths(contents)[..part];
  }

  /** A located offset splits the concatenation where its part begins. */
  lemma LocatedIn(index: PartIndex, contents: seq<Bytes>, offset: int, part: nat, partOffset: nat)
    requires index.Describes(Lengths(contents)) && Located(index, offset, part, partOffset)
    requires 0 <= offset < |Flatten(contents)|
    ensures part < |contents| && partOffset < |contents[part]|
    ensures Flatten(contents) == Flatten(contents[..part]) + Flatten(contents[part..])
    ensures offset == |Flatten(contents[..part])| + partOffset
  {
    FlattenLength(contents);
    StartsAreSums(index, Lengths(contents), part);
    SplitAt(contents, part);
  }

  /** A well-formed selection of stored parts can be served: the pieces are all
      there and are the selected slice of the parts' concatenation. */
  lemma SelectionIsServable(
    objects: map<string, Bytes>, folder: string, index: PartIndex, contents: seq<Bytes>,
    offset: int, count: nat, part: nat, partOffset: nat)
    requires index.Describes(Lengths(contents)) && PartsAre(objects, folder, contents)
    requires 0 <= offset && 1 <= count && offset + count <= |Flatten(contents)|
    requires Located(index, offset, part, partOffset)
    ensures Served(objects, folder, Plan(index, part, partOffset, count), count, Flatten(contents)[offset..offset + count])
  {
    SelectionFrom(index, contents, offset, count, part, partOffset);
    DescribedIsSized(index, contents);
    PlanServes(objects, folder, index, contents, part, partOffset, count);
  }

  /** A selection is the same slice of what begins with its first part. */
  lemma SelectionFrom(index: PartIndex, contents: seq<Bytes>, offset: int, count: nat, part: nat, partOffset: nat)
    requires index.Describes(Lengths(contents)) && Located(index, offset, part, partOffset)
    requires 0 <= offset && 1 <= count && offset + count <= |Flatten(contents)|
    ensures part < |contents| && partOffset < |contents[part]| && partOffset + count <= |Flatten(contents[part..])|
    ensures Flatten(contents)[offset..offset + count] == Flatten(contents[part..])[partOffset..partOffset + count]
  {
    LocatedIn(index, contents, offset, part, partOffset);
    SliceOfSum(Flatten(contents), Flatten(contents[..part]), Flatten(contents[part..]), offset, partOffset, count);
  }

  lemma SliceOfSum(whole: Bytes, before: Bytes, rest: Bytes, offset: nat, start: nat, count: nat)
    requires whole == before + rest && offset == |before| + start && offset + count <= |whole|
    ensures start + count <= |rest| && whole[offset..offset + count] == rest[start..start + count]
  {
    SliceBehind(before, rest, start, count);
  }

  lemma PlanServes(
    objects: map<string, Bytes>, folder: string, index: PartIndex, contents: seq<Bytes>,
    part: nat, partOffset: nat, count: nat)
    requires Sized(index, contents) && PartsAre(objects, folder, contents)
    requires part < |contents| && partOffset <= |contents[part]|
    requires partOffset + count <= |Flatten(contents[part..])|
    ensures Served(objects, folder, Plan(index, part, partOffset, count), count,
                   Flatten(contents[part..])[partOffset..partOffset + count])
  {
    PlanReadsSlice(index, contents, part, partOffset, count);
    StoredIsCut(objects, folder, contents, Plan(index, part, partOffset, count));
  }

  lemma SliceBehind(before: Bytes, rest: Bytes, start: nat, count: nat)
    requires start + count <= |rest|
    ensures (before + rest)[|before| + start..|before| + start + count] == rest[start..start + count]
  {
  }

  /** What is stored of the plan is the whole of `bytes`. */
  ghost predicate Served(objects: map<string, Bytes>, folder: string, plan: seq<Piece>, count: nat, bytes: Bytes) {
    var stored := StoredPieces(objects, folder, plan);
    Counted(plan) == count && FullyStored(plan, stored) && Flatten(stored) == bytes
  }

  /** Every byte the index places in the range lies in some piece of the plan;
      so once the plan was delivered in full, that byte was stored. */
  lemma {:induction false} PlanReaches(
    index: PartIndex, sizes: seq<int>, part: nat, offset: nat, remaining: nat, p: nat, o: nat) returns (i: nat)
    requires index.Describes(sizes) && part <= p < |sizes| && o < sizes[p]
    requires offset <= sizes[part]
    requires index.Start(part) + offset <= index.Start(p) + o < index.Start(part) + offset + remaining
    ensures var plan := Plan(index, part, offset, remaining);
      i < |plan| && plan[i].part == p && plan[i].offset <= o < plan[i].offset + plan[i].count
    decreases |sizes| - part
  {
    StartsAreSums(index, sizes, part);
    StartsAreSums(index, sizes, p);
    var available := sizes[part] - offset;
    if part == p {
      i := 0;
    } else {
      StartsAreSums(index, sizes, part + 1);
      assert index.Start(part + 1) == index.Start(part) + sizes[part];
      SumMonotone(sizes, part + 1, p);
      var count := Min(available, remaining);
      if available == 0 {
        i := PlanReaches(index, sizes, part + 1, 0, remaining, p, o);
      } else {
        var j := PlanReaches(index, sizes, part + 1, 0, remaining - count, p, o);
        i := j + 1;
      }
    }
  }

  lemma CleanEndMeansStored(
    objects: map<string, Bytes>, folder: string, index: PartIndex, sizes: seq<int>,
    part: nat, offset: nat, remaining: nat, p: nat, o: nat)
    requires index.Describes(sizes) && part <= p < |sizes| && o < sizes[p] && offset <= sizes[part]
    requires index.Start(part) + offset <= index.Start(p) + o < index.Start(part) + offset + remaining
    requires var plan := Plan(index, part, offset, remaining); FullyStored(plan, StoredPieces(objects, folder, plan))
    ensures PartObject(folder, p) in objects && o < |objects[PartObject(folder, p)]|
  {
    var plan := Plan(index, part, offset, remaining);
    var i := PlanReaches(index, sizes, part, offset, remaining, p, o);
    StoredPieceAt(objects, folder, plan, i);
  }

  /** A reader of a selection that is stored in full. */
  method OpenRange(
    storage: Storage, folder: string, parts: PartIndex, ghost contents: seq<Bytes>, offset: int64, count: int64, shared: bool)
    returns (reader: RangedPartsReader)
    requires parts.Describes(Lengths(contents)) && PartsAre(storage.objects, folder, contents)
    requires 0 <= offset && 1 <= count && offset + count <= |Flatten(contents)|
    ensures fresh(reader) && fresh(reader.Footprint())
    ensures reader.Valid() && reader.storage == storage && reader.shared == shared && reader.delivered == [] && !reader.closed
    ensures reader.Servable() && Flatten(reader.stored) == Flatten(contents)[offset..offset + count]
  {
    FlattenLength(contents);
    reader := new RangedPartsReader(storage, folder, parts, offset, count, shared, Lengths(contents));
    ghost var part: nat, partOffset: nat :|
      Located(parts, offset, part, partOffset) && reader.plan == Plan(parts, part, partOffset, count);
    SelectionIsServable(storage.objects, folder, parts, contents, offset, count, part, partOffset);
  }

  /** How reading on has gone so far. */
  ghost predicate ReadSoFar(reader: RangedPartsReader, read: nat, bytes: Bytes, err: IoError)
    reads reader, reader.Footprint()
  {
    && reader.Valid() && bytes == reader.delivered
    && (err == EOF ==> reader.Complete())
    && (err !in {NoError, EOF} ==> reader.MayFail() && reader.Means(err))
    && (err == NoError && reader.storage.prompt ==> read <= |bytes|)
  }

  method ReadOnce(reader: RangedPartsReader, max: nat, soFar: Bytes, ghost read: nat) returns (bytes: Bytes, err: IoError)
    requires ReadSoFar(reader, read, soFar, NoError)
    modifies reader, reader.Footprint()
    ensures ReadSoFar(reader, read + if max > 0 then 1 else 0, bytes, err)
    ensures !reader.shared ==> reader.closed == old(reader.closed)
    ensures reader.current != null && reader.current != old(reader.current) ==>
              fresh(reader.current) && fresh(reader.current.reader)
  {
    var out;
    out, err := reader.Read(max);
    bytes := soFar + out;
  }

  /** Reads until the buffers run out or the reader answers anything but success. */
  method ReadBuffers(reader: RangedPartsReader, buffers: seq<nat>) returns (bytes: Bytes, err: IoError)
    requires reader.Valid() && reader.delivered == []
    modifies reader, reader.Footprint()
    ensures ReadSoFar(reader, NonEmpty(buffers), bytes, err)
    ensures !reader.shared ==> reader.closed == old(reader.closed)
  {
    bytes, err := [], NoError;
    for i := 0 to |buffers|
      invariant reader.current != null && reader.current != old(reader.current) ==>
                  fresh(reader.current) && fresh(reader.current.reader)
      invariant ReadSoFar(reader, NonEmpty(buffers[..i]), bytes, NoError) && err == NoError
      invariant !reader.shared ==> reader.closed == old(reader.closed)
    {
      assert buffers[..i + 1][..i] == buffers[..i];
      bytes, err := ReadOnce(reader, buffers[i], bytes, NonEmpty(buffers[..i]));
      if err != NoError {
        return;
      }
    }
    assert buffers[..|buffers|] == buffers;
  }

  /** A client reads with buffers of any sizes until they run out or the reader
      answers anything but success. With storage that answers every request, and
      nobody closing the reader, more buffers than bytes get all of them and the
      end. */
  method ReadRange(
    storage: Storage, folder: string, parts: PartIndex, ghost contents: seq<Bytes>,
    offset: int64, count: int64, shared: bool, buffers: seq<nat>)
    returns (bytes: Bytes, err: IoError, reader: RangedPartsReader)
    requires parts.Describes(Lengths(contents)) && PartsAre(storage.objects, folder, contents)
    requires 0 <= offset && 1 <= count && offset + count <= |Flatten(contents)|
    ensures var wanted := Flatten(contents)[offset..offset + count];
      && bytes <= wanted
      && (err == EOF ==> bytes == wanted)
      && (reader.closed ==> shared)
      && (err !in {NoError, EOF} ==> !storage.reliable || reader.closed)
      && (storage.reliable && storage.prompt && !reader.closed && NonEmpty(buffers) > count ==> err == EOF)
  {
    reader := OpenRange(storage, folder, parts, contents, offset, count, shared);
    bytes, err := ReadBuffers(reader, buffers);
    DeliveredIsPrefix(reader.stored, reader.finished, reader.tail);
  }
}
