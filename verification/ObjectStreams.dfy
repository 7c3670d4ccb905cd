/** Object contents and the streams that deliver them
    (internal/storage/storage.go). A Read into a buffer of length `max` is a
    call that returns at most `max` bytes together with Go's error value. */
module ObjectStreams {
  import opened Int64
  import opened Octets
  import opened Options

  datatype IoError = NoError | EOF | UnexpectedEOF | ClosedPipe | CacheNotFound | StorageError

  /** How many of the buffers can take a byte. */
  function NonEmpty(buffers: seq<nat>): nat {
    if buffers == [] then 0 else NonEmpty(buffers[..|buffers| - 1]) + if buffers[|buffers| - 1] > 0 then 1 else 0
  }

  /** What a stored object holds of the bytes offset .. offset + count. */
  function Clip(content: Bytes, offset: nat, count: nat): Bytes {
    content[Min(offset, |content|)..Min(offset + count, |content|)]
  }

  /** The body of a response, or an open file. It may deliver its data in any
      portions, announce the end together with the last bytes or later, and,
      unless it is `reliable`, fail at any time. Unless it is `prompt` it may
      also answer with neither a byte nor an end. */
  class Body {
    const data: Bytes
    const reliable: bool
    const prompt: bool
    var pos: nat
    var closed: bool

    ghost predicate Valid()
      reads this
    {
      pos <= |data|
    }

    /** Reading a closed body may fail. */
    predicate Faultless()
      reads this
    {
      reliable && !closed
    }

    constructor (data: Bytes, reliable: bool, prompt: bool)
      ensures Valid() && this.data == data && this.reliable == reliable && this.prompt == prompt && pos == 0 && !closed
    {
      this.data, this.reliable, this.prompt, pos, closed := data, reliable, prompt, 0, false;
    }

    method Close() returns (err: IoError)
      requires Valid()
      modifies this`closed
      ensures Valid() && closed
      ensures err == NoError || err == StorageError
      ensures reliable ==> err == NoError
    {
      closed := true;
      var fails: bool := *;
      err := if fails && !reliable then StorageError else NoError;
    }

    method Read(max: nat) returns (out: Bytes, err: IoError)
      requires Valid()
      modifies this`pos
      ensures Valid() && |out| <= max
      ensures pos == old(pos) + |out| && out == data[old(pos)..pos]
      ensures err == EOF ==> pos == |data|
      ensures err in {NoError, EOF, UnexpectedEOF, StorageError}
      ensures Faultless() ==> err == NoError || err == EOF
      ensures prompt && max > 0 && out == [] ==> err != NoError
    {
      var n: nat :| n <= max && n <= |data| - pos && (prompt && n == 0 ==> max == 0 || pos == |data|);
      out := data[pos..pos + n];
      pos := pos + n;
      err := *;
      if err == ClosedPipe || err == CacheNotFound || (Faultless() && err != EOF) || (err == EOF && pos < |data|) {
        err := NoError;
      }
      if prompt && max > 0 && n == 0 && err == NoError {
        err := EOF;
      }
    }
  }

  /** Delivers exactly `count` bytes of its reader, or an error. */
  class ExactLengthReader {
    const reader: Body
    var remaining: int64
    ghost const count: nat

    ghost predicate Valid()
      reads this, reader
    {
      reader.Valid() && remaining >= 0 && remaining + reader.pos == count
    }

    /** The bytes delivered so far. */
    ghost function Delivered(): Bytes
      requires Valid()
      reads this, reader
    {
      reader.data[..reader.pos]
    }

    constructor (reader: Body, count: int64)
      requires reader.Valid() && reader.pos == 0 && count >= 0
      ensures Valid() && this.reader == reader && this.count == count && remaining == count
    {
      this.reader, remaining, this.count := reader, count, count;
    }

    method Read(max: nat) returns (out: Bytes, err: IoError)
      requires Valid()
      modifies this, reader`pos
      ensures Valid() && |out| <= max
      ensures Delivered() == old(Delivered()) + out
      // A clean end means that every byte was delivered, and comes alone.
      ensures err == EOF ==> out == [] && remaining == 0 && |Delivered()| == count
      // Without faults of its own the stream fails only for lack of data.
      ensures err !in {NoError, EOF} ==> !reader.Faultless() || |reader.data| < count
      ensures err in {NoError, EOF, UnexpectedEOF, StorageError}
      ensures old(remaining) == 0 ==> err == EOF
      ensures reader.prompt && max > 0 && out == [] ==> err != NoError
    {
      if remaining == 0 {
        return [], EOF;
      }
      var limit := if max > remaining then remaining else max;
      var n;
      out, err := reader.Read(limit);
      n := |out|;
      remaining := remaining - n;
      if err == EOF {
        if remaining != 0 {
          return out, UnexpectedEOF;
        }
        if n != 0 {
          return out, NoError;
        }
      }
      return out, err;
    }

    method Close() returns (err: IoError)
      requires Valid()
      modifies reader`closed
      ensures Valid() && Delivered() == old(Delivered()) && reader.closed
      ensures reader.reliable ==> err == NoError
      ensures err == NoError || err == StorageError
    {
      err := reader.Close();
    }
  }

  /** Stored objects by name. */
  class Storage {
    const objects: map<string, Bytes>
    const reliable: bool
    const prompt: bool

    constructor (objects: map<string, Bytes>, reliable: bool, prompt: bool)
      ensures this.objects == objects && this.reliable == reliable && this.prompt == prompt
    {
      this.objects, this.reliable, this.prompt := objects, reliable, prompt;
    }

    /** The contract of CreateRangedDownloadStream: the stream holds what is
        stored of the range, but only full ranges end cleanly. A backend may
        notice at once that the object is too short. */
    method CreateRangedDownloadStream(name: string, offset: int64, count: int64)
      returns (stream: ExactLengthReader?, err: IoError)
      ensures err == NoError <==> stream != null
      ensures stream != null ==>
        && fresh(stream) && fresh(stream.reader) && stream.Valid()
        && offset >= 0 && count > 0 && name in objects
        && stream.reader.data == Clip(objects[name], offset, count)
        && stream.reader.reliable == reliable && stream.reader.prompt == prompt
        && stream.reader.pos == 0 && !stream.reader.closed && stream.count == count
      ensures err in {NoError, CacheNotFound, StorageError}
      ensures err == CacheNotFound ==> name !in objects
      ensures err == StorageError && offset >= 0 && 0 < count && offset + count - 1 <= MAX_INT64 ==>
        !reliable || (name in objects && offset + count > |objects[name]|)
    {
      if offset < 0 || count <= 0 || offset + count - 1 > MAX_INT64 {
        return null, StorageError;
      }
      if !reliable {
        var fails: bool := *;
        if fails {
          return null, StorageError;
        }
      }
      if name !in objects {
        return null, CacheNotFound;
      }
      if offset + count > |objects[name]| {
        var noticed: bool := *;
        if noticed {
          return null, StorageError;
        }
      }
      var body := new Body(Clip(objects[name], offset, count), reliable, prompt);
      stream := new ExactLengthReader(body, count);
      return stream, NoError;
    }

    method CreateDownloadStream(name: string) returns (stream: Body?, err: IoError)
      ensures err == NoError <==> stream != null
      ensures stream != null ==>
        && fresh(stream) && stream.Valid() && name in objects
        && stream.data == objects[name] && stream.pos == 0 && !stream.closed && stream.reliable == reliable && stream.prompt == prompt
      ensures err in {NoError, CacheNotFound, StorageError}
      ensures err == CacheNotFound ==> name !in objects
      ensures err == StorageError ==> !reliable
    {
      if !reliable {
        var fails: bool := *;
        if fails {
          return null, StorageError;
        }
      }
      if name !in objects {
        return null, CacheNotFound;
      }
      stream := new Body(objects[name], reliable, prompt);
      return stream, NoError;
    }
  }
}
