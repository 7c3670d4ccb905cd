/** Reading a whole cache as the concatenation of its parts
    (internal/cache/parts_reader.go). */
module PartsReading {
  import opened Int64
  import opened ObjectNames
  import opened ObjectStreams
  import opened Octets
  import opened Sequences

  ghost function StoredPart(objects: map<string, Bytes>, folder: string, part: nat): Bytes {
    if PartObject(folder, part) in objects then objects[PartObject(folder, part)] else []
  }

  /** The contents of parts 0, ..., count - 1. */
  ghost function StoredParts(objects: map<string, Bytes>, folder: string, count: nat): seq<Bytes> {
    if count == 0 then [] else StoredParts(objects, folder, count - 1) + [StoredPart(objects, folder, count - 1)]
  }

  lemma {:induction false} StoredPartAt(objects: map<string, Bytes>, folder: string, count: nat, i: nat)
    requires i < count
    ensures |StoredParts(objects, folder, count)| == count
    ensures StoredParts(objects, folder, count)[i] == StoredPart(objects, folder, i)
  {
    StoredPartsCount(objects, folder, count - 1);
    if i < count - 1 {
      StoredPartAt(objects, folder, count - 1, i);
    }
  }

  lemma {:induction false} StoredPartsCount(objects: map<string, Bytes>, folder: string, count: nat)
    ensures |StoredParts(objects, folder, count)| == count
  {
    if count > 0 {
      StoredPartsCount(objects, folder, count - 1);
    }
  }

  ghost predicate PartsPresent(objects: map<string, Bytes>, folder: string, count: nat) {
    forall i :: 0 <= i < count ==> PartObject(folder, i) in objects
  }

  class PartsReader {
    const storage: Storage
    const folder: string
    const partCount: int
    // whether another goroutine may close the reader
    const shared: bool
    var index: nat
    var current: Body?
    var closed: bool

    ghost const stored: seq<Bytes>
    ghost var finished: nat
    ghost var tail: Bytes
    ghost var delivered: Bytes

    ghost function Footprint(): set<object>
      reads this
    {
      if current != null then {current} else {}
    }

    ghost predicate Valid()
      reads this, Footprint()
    {
      && Progress()
      && (closed ==> current == null)
      && (!closed && current == null ==> tail == [] && index == finished)
      && (current != null ==> Streams(current) && !current.closed && index == finished + 1)
    }

    ghost predicate Progress()
      reads this
    {
      && |stored| == Max(partCount, 0)
      && stored == StoredParts(storage.objects, folder, Max(partCount, 0))
      && finished <= |stored|
      && PartsPresent(storage.objects, folder, finished)
      && delivered == Flatten(stored[..finished]) + tail
      && (tail != [] ==> finished < |stored| && tail <= stored[finished])
    }

    ghost predicate Streams(stream: Body)
      reads this, stream
    {
      && stream.Valid()
      && finished < |stored|
      && stream.data == stored[finished]
      && PartObject(folder, finished) in storage.objects
      && stream.reliable == storage.reliable && stream.prompt == storage.prompt
      && tail == stream.data[..stream.pos]
    }

    /** Every part was delivered, and none was missing. */
    ghost predicate Complete()
      reads this
    {
      && PartsPresent(storage.objects, folder, Max(partCount, 0))
      && delivered == Flatten(StoredParts(storage.objects, folder, Max(partCount, 0)))
    }

    ghost predicate MayFail()
      reads this
    {
      closed || !storage.reliable || !PartsPresent(storage.objects, folder, Max(partCount, 0))
    }

    /** What each error says. */
    ghost predicate Means(err: IoError)
      reads this
    {
      && (err == ClosedPipe ==> closed)
      && (err == CacheNotFound ==> !PartsPresent(storage.objects, folder, Max(partCount, 0)))
      && (err in {StorageError, UnexpectedEOF} ==> closed || !storage.reliable)
    }

    constructor (storage: Storage, folder: string, partCount: int, shared: bool)
      ensures Valid() && delivered == [] && !closed && current == null
      ensures this.storage == storage && this.folder == folder && this.partCount == partCount && this.shared == shared
    {
      StoredPartsCount(storage.objects, folder, Max(partCount, 0));
      this.storage, this.folder, this.partCount, this.shared := storage, folder, partCount, shared;
      index, current, closed := 0, null, false;
      stored := StoredParts(storage.objects, folder, Max(partCount, 0));
      finished, tail, delivered := 0, [], [];
    }

    method Close() returns (err: IoError)
      requires Valid()
      modifies this`current, this`closed, Footprint()
      ensures Valid() && closed
      ensures old(closed) ==> err == NoError
      ensures old(current) != null ==> old(current).closed
      ensures storage.reliable ==> err == NoError
      ensures old(current) != null ==> old(current).Valid() && old(current).pos == old(current.pos)
    {
      if closed {
        return NoError;
      }
      closed := true;
      var stream := current;
      current := null;
      if stream != null {
        err := stream.Close();
      } else {
        err := NoError;
      }
    }

    /** Another goroutine runs, and may close the reader. */
    method Interfere()
      requires Valid()
      modifies this`current, this`closed, Footprint()
      ensures Valid()
      ensures closed || (current == old(current) && closed == old(closed))
      ensures current != null ==> current == old(current)
      ensures old(current) != null ==> old(current).Valid() && old(current).pos == old(current.pos)
      ensures !shared ==> closed == old(closed)
    {
      var closes: bool := *;
      if shared && closes {
        var err := Close();
      }
    }

    method CurrentStream() returns (stream: Body?, err: IoError)
      requires Valid()
      modifies this`current, this`closed, this`index
      ensures Valid()
      ensures err == NoError <==> stream != null
      ensures err != NoError ==> current == null
      ensures stream != null ==> !closed && current == stream && (stream == old(current) || fresh(stream))
      ensures err == EOF ==> !closed && Complete()
      ensures err !in {NoError, EOF} ==> MayFail() && Means(err)
      ensures old(closed) ==> err == ClosedPipe && closed
      ensures !shared ==> closed == old(closed)
    {
      if closed {
        return null, ClosedPipe;
      }
      if current != null {
        return current, NoError;
      }
      if index >= partCount {
        assert stored[..finished] == stored;
        return null, EOF;
      }
      stream, err := OpenNext();
    }

    /** Open the stream of the next part. */
    method OpenNext() returns (stream: Body?, err: IoError)
      requires Valid() && !closed && current == null && index < partCount
      modifies this`current, this`closed, this`index
      ensures Valid()
      ensures err == NoError <==> stream != null
      ensures err != NoError ==> current == null && err != EOF && MayFail() && Means(err)
      ensures !shared ==> !closed
      ensures stream != null ==> !closed && current == stream && fresh(stream)
    {
      var part := index;
      StoredPartAt(storage.objects, folder, partCount, part);
      stream, err := storage.CreateDownloadStream(PartObject(folder, part));
      if err != NoError {
        return null, err;
      }
      Interfere();
      if closed {
        var closeErr := stream.Close();
        return null, ClosedPipe;
      }
      current := stream;
      index := index + 1;
    }

    method FinishPart(stream: Body) returns (err: IoError)
      requires Valid()
      requires current == stream ==> stream.pos == |stream.data|
      modifies this`current, this`finished, this`tail, stream`closed
      ensures Valid()
      ensures current == if old(current) == stream then null else old(current)
      ensures old(current) == stream ==> finished == old(finished) + 1 && stream.closed
      ensures old(current) != stream ==> finished == old(finished) && err == NoError
      ensures storage.reliable ==> err == NoError
      ensures err == NoError || err == StorageError
    {
      if current != stream {
        return NoError;
      }
      ForgetPart();
      err := stream.Close();
    }

    /** The current part is behind the reader. */
    method ForgetPart()
      requires Valid() && current != null && current.pos == |current.data|
      modifies this`current, this`finished, this`tail
      ensures Valid() && current == null && finished == old(finished) + 1
    {
      assert stored[..finished + 1] == stored[..finished] + [stored[finished]];
      FlattenSnoc(stored[..finished], stored[finished]);
      current := null;
      finished := finished + 1;
      tail := [];
    }

    ghost predicate InUse(stream: Body)
      reads this, Footprint(), stream
    {
      Valid() && Streams(stream) && (current == stream || (closed && current == null))
    }

    method Receive(stream: Body, max: nat) returns (out: Bytes, err: IoError)
      requires InUse(stream)
      modifies this`delivered, this`tail, stream`pos
      ensures InUse(stream)
      ensures |out| <= max && delivered == old(delivered) + out
      ensures err == EOF ==> stream.pos == |stream.data|
      ensures storage.prompt && max > 0 && out == [] ==> err != NoError
      ensures err !in {NoError, EOF} ==> MayFail() && Means(err)
    {
      out, err := stream.Read(max);
      tail := tail + out;
      delivered := delivered + out;
    }

    /** Read from the open stream, unless the reader is closed before that. */
    method TakeNext(stream: Body, max: nat) returns (out: Bytes, err: IoError)
      requires Valid() && !closed && current == stream
      modifies this`current, this`closed, this`delivered, this`tail, stream
      ensures InUse(stream)
      ensures |out| <= max && delivered == old(delivered) + out
      ensures err == EOF ==> stream.pos == |stream.data|
      ensures storage.prompt && max > 0 && out == [] ==> err != NoError
      ensures err !in {NoError, EOF} ==> MayFail() && Means(err)
      ensures !shared ==> !closed
    {
      Interfere();
      out, err := Receive(stream, max);
    }

    /** The stream is at its end; the reader may be closed before it sees to it. */
    method LeavePart(stream: Body) returns (err: IoError)
      requires InUse(stream) && stream.pos == |stream.data|
      modifies this`current, this`closed, this`finished, this`tail, stream
      ensures Valid() && current == null
      ensures closed || finished == old(finished) + 1
      ensures err == NoError || (err == StorageError && !storage.reliable)
      ensures !shared ==> closed == old(closed)
    {
      Interfere();
      err := FinishPart(stream);
    }

    method ReadPart(stream: Body, max: nat) returns (out: Bytes, err: IoError, again: bool)
      requires Valid() && !closed && current == stream
      modifies this, stream
      ensures Valid()
      ensures current == stream || current == null
      ensures |out| <= max && delivered == old(delivered) + out
      ensures err != EOF
      ensures err != NoError ==> MayFail() && Means(err)
      ensures again ==> out == [] && (closed || finished == old(finished) + 1)
      ensures storage.prompt && max > 0 && out == [] && err == NoError ==> again
      ensures !shared ==> !closed
    {
      out, err := TakeNext(stream, max);
      if err != EOF {
        return out, err, false;
      }
      var closeErr := LeavePart(stream);
      if |out| > 0 {
        return out, NoError, false;
      }
      return [], closeErr, closeErr == NoError;
    }

    method Read(max: nat) returns (out: Bytes, err: IoError)
      requires Valid()
      modifies this, Footprint()
      ensures Valid()
      ensures |out| <= max && delivered == old(delivered) + out
      ensures err == EOF ==> out == [] && Complete()
      // It comes back with nothing only when storage has answered so, and it
      // does not close itself.
      ensures max > 0 && out == [] && err == NoError ==> !storage.prompt
      ensures old(closed) ==> err == ClosedPipe
      ensures !shared ==> closed == old(closed)
      ensures err !in {NoError, EOF} ==> MayFail() && Means(err)
      ensures current != null && current != old(current) ==> fresh(current)
    {
      while true
        invariant Valid() && delivered == old(delivered)
        invariant old(closed) ==> closed
        invariant !shared ==> closed == old(closed)
        invariant current != null && current != old(current) ==> fresh(current)
        decreases if closed then 0 else 1 + |stored| - finished
      {
        var stream;
        stream, err := CurrentStream();
        if err != NoError {
          return [], err;
        }
        var again;
        out, err, again := ReadPart(stream, max);
        if !again {
          return out, err;
        }
      }
    }
  }

  /** How reading on has gone so far. */
  ghost predicate ReadSoFar(reader: PartsReader, read: nat, bytes: Bytes, err: IoError)
    reads reader, reader.Footprint()
  {
    && reader.Valid() && bytes == reader.delivered
    && (err == EOF ==> reader.Complete())
    && (err !in {NoError, EOF} ==> reader.MayFail() && reader.Means(err))
    && (err == NoError && reader.storage.prompt ==> read <= |bytes|)
  }

  method ReadOnce(reader: PartsReader, max: nat, soFar: Bytes, ghost read: nat) returns (bytes: Bytes, err: IoError)
    requires ReadSoFar(reader, read, soFar, NoError)
    modifies reader, reader.Footprint()
    ensures ReadSoFar(reader, read + if max > 0 then 1 else 0, bytes, err)
    ensures !reader.shared ==> reader.closed == old(reader.closed)
    ensures reader.current != null && reader.current != old(reader.current) ==> fresh(reader.current)
  {
    var out;
    out, err := reader.Read(max);
    bytes := soFar + out;
  }

  method ReadBuffers(reader: PartsReader, buffers: seq<nat>) returns (bytes: Bytes, err: IoError)
    requires reader.Valid() && reader.delivered == []
    modifies reader, reader.Footprint()
    ensures ReadSoFar(reader, NonEmpty(buffers), bytes, err)
    ensures !reader.shared ==> reader.closed == old(reader.closed)
  {
    bytes, err := [], NoError;
    for i := 0 to |buffers|
      invariant reader.current != null && reader.current != old(reader.current) ==> fresh(reader.current)
      invariant ReadSoFar(reader, NonEmpty(buffers[..i]), bytes, NoError) && err == NoError
      invariant !reader.shared ==> reader.closed == old(reader.closed)
    {
      assert buffers[..i + 1][..i] == buffers[..i];
      bytes, err := ReadOnce(reader, buffers[i], bytes, NonEmpty(buffers[..i]));
      if err != NoError {
        return;
      }
    }
    assert buffers[..|buffers|] == buffers;
  }

  /** A client reads a whole cache with buffers of any sizes. With storage that
      answers every request and holds all parts, and nobody closing the reader,
      more buffers than bytes get all of them and the end. */
  method ReadAll(storage: Storage, folder: string, partCount: nat, shared: bool, buffers: seq<nat>)
    returns (bytes: Bytes, err: IoError, reader: PartsReader)
    ensures var wanted := Flatten(StoredParts(storage.objects, folder, partCount));
      && bytes <= wanted
      && (err == EOF ==> bytes == wanted && PartsPresent(storage.objects, folder, partCount))
      && (reader.closed ==> shared)
      && (err !in {NoError, EOF} ==>
            !storage.reliable || reader.closed || !PartsPresent(storage.objects, folder, partCount))
      && (storage.reliable && storage.prompt && !reader.closed && PartsPresent(storage.objects, folder, partCount) ==>
            NonEmpty(buffers) > |wanted| ==> err == EOF)
  {
    reader := new PartsReader(storage, folder, partCount, shared);
    bytes, err := ReadBuffers(reader, buffers);
    DeliveredIsPrefix(reader.stored, reader.finished, reader.tail);
  }
}
