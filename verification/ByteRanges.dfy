/** Byte range resolution (internal/cache/byte_range.go). */
module ByteRanges {
  import opened Int64

  datatype ByteRange =
    | Closed(first: int64, last: int64)
    | OpenEnded(first: int64)
    | Suffix(length: int64)

  datatype DownloadRange = DownloadRange(offset: int64, count: int64)

  datatype Resolution =
    | Resolved(range: DownloadRange)
    | InvalidSize
    | InvalidRange(index: nat)
    | NotSatisfiable(size: int64)

  /** RFC 9110, section 14.1.2: syntactically a range names a first and a last
      position, a first position, or a suffix length. */
  predicate WellFormed(r: ByteRange) {
    match r
    case Closed(first, last) => 0 <= first <= last
    case OpenEnded(first) => 0 <= first
    case Suffix(length) => 0 <= length
  }

  /** Byte `position` of a representation of `size` bytes is asked for. */
  predicate Selects(r: ByteRange, size: int64, position: int) {
    && 0 <= position < size
    && match r
       case Closed(first, last) => first <= position <= last
       case OpenEnded(first) => first <= position
       case Suffix(length) => size - length <= position
  }

  ghost predicate Satisfiable(r: ByteRange, size: int64) {
    exists position :: Selects(r, size, position)
  }

  ghost predicate Covers(d: DownloadRange, r: ByteRange, size: int64) {
    forall position :: d.offset <= position < d.offset + d.count <==> Selects(r, size, position)
  }

  /** The loop of the source, from candidate number `index` on. */
  function ResolveFrom(ranges: seq<ByteRange>, size: int64, index: nat): Resolution
    requires size >= 0 && index <= |ranges|
    decreases |ranges| - index
  {
    if index == |ranges| then NotSatisfiable(size)
    else
      match ranges[index]
      case Closed(first, last) =>
        if first < 0 || last < first then InvalidRange(index)
        else if first >= size then ResolveFrom(ranges, size, index + 1)
        else Resolved(DownloadRange(first, Min(last, size - 1) - first + 1))
      case OpenEnded(first) =>
        if first < 0 then InvalidRange(index)
        else if first >= size then ResolveFrom(ranges, size, index + 1)
        else Resolved(DownloadRange(first, size - first))
      case Suffix(length) =>
        if length < 0 then InvalidRange(index)
        else if length == 0 || size == 0 then ResolveFrom(ranges, size, index + 1)
        else Resolved(DownloadRange(size - Min(length, size), Min(length, size)))
  }

  function ResolveByteRanges(ranges: seq<ByteRange>, size: int64): Resolution {
    if size < 0 then InvalidSize else ResolveFrom(ranges, size, 0)
  }

  /** Candidate `i` is reached: every earlier one is valid but selects nothing. */
  ghost predicate Considered(ranges: seq<ByteRange>, size: int64, i: nat) {
    && i <= |ranges|
    && forall k :: 0 <= k < i ==> WellFormed(ranges[k]) && !Satisfiable(ranges[k], size)
  }

  lemma SatisfiableWhen(r: ByteRange, size: int64)
    requires size >= 0 && WellFormed(r)
    ensures Satisfiable(r, size) <==>
      match r
      case Closed(first, last) => first < size
      case OpenEnded(first) => first < size
      case Suffix(length) => length > 0 && size > 0
  {
    match r
    case Closed(first, last) =>
      if first < size { assert Selects(r, size, first); }
    case OpenEnded(first) =>
      if first < size { assert Selects(r, size, first); }
    case Suffix(length) =>
      if length > 0 && size > 0 { assert Selects(r, size, size - 1); }
  }

  /** The answer is the interval of the first satisfiable candidate, unless an
      invalid one comes first; without either, the range is not satisfiable. */
  ghost predicate Answers(ranges: seq<ByteRange>, size: int64, answer: Resolution) {
    match answer
    case InvalidSize => size < 0
    case InvalidRange(i) => size >= 0 && i < |ranges| && Considered(ranges, size, i) && !WellFormed(ranges[i])
    case NotSatisfiable(s) => s == size >= 0 && Considered(ranges, size, |ranges|)
    case Resolved(d) =>
      && 0 <= d.offset && 1 <= d.count && d.offset + d.count <= size
      && exists i :: 0 <= i < |ranges| && Considered(ranges, size, i)
           && WellFormed(ranges[i]) && Covers(d, ranges[i], size)
  }

  lemma {:induction false} ResolvesFrom(ranges: seq<ByteRange>, size: int64, index: nat)
    requires size >= 0 && Considered(ranges, size, index)
    ensures Answers(ranges, size, ResolveFrom(ranges, size, index))
    decreases |ranges| - index
  {
    if index < |ranges| && WellFormed(ranges[index]) {
      SatisfiableWhen(ranges[index], size);
      if !Satisfiable(ranges[index], size) {
        ResolvesFrom(ranges, size, index + 1);
      } else {
        assert Covers(ResolveFrom(ranges, size, index).range, ranges[index], size);
      }
    }
  }

  lemma ResolutionIsCorrect(ranges: seq<ByteRange>, size: int64)
    ensures Answers(ranges, size, ResolveByteRanges(ranges, size))
  {
    if size >= 0 {
      ResolvesFrom(ranges, size, 0);
    }
  }

  /** The candidate an answer is about, or the end of the list. */
  lemma DecidedAt(ranges: seq<ByteRange>, size: int64, a: Resolution) returns (i: nat)
    requires size >= 0 && Answers(ranges, size, a)
    ensures Considered(ranges, size, i)
    ensures i < |ranges| ==> !WellFormed(ranges[i]) || Satisfiable(ranges[i], size)
    ensures i == |ranges| ==> a == NotSatisfiable(size)
    ensures i < |ranges| && !WellFormed(ranges[i]) ==> a == InvalidRange(i)
    ensures i < |ranges| && WellFormed(ranges[i]) ==> a.Resolved? && a.range.count >= 1 && Covers(a.range, ranges[i], size)
  {
    match a
    case InvalidRange(k) => i := k;
    case NotSatisfiable(_) => i := |ranges|;
    case Resolved(d) =>
      i :| 0 <= i < |ranges| && Considered(ranges, size, i) && WellFormed(ranges[i]) && Covers(d, ranges[i], size);
      assert Selects(ranges[i], size, d.offset);
  }

  /** There is only one correct answer. */
  lemma ResolutionIsUnique(ranges: seq<ByteRange>, size: int64, a: Resolution)
    requires Answers(ranges, size, a)
    ensures a == ResolveByteRanges(ranges, size)
  {
    if size >= 0 {
      ResolutionIsCorrect(ranges, size);
      var b := ResolveByteRanges(ranges, size);
      var i := DecidedAt(ranges, size, a);
      var j := DecidedAt(ranges, size, b);
      assert i == j;
      if i < |ranges| && WellFormed(ranges[i]) {
        SameInterval(a.range, b.range, ranges[i], size);
      }
    }
  }

  lemma SameInterval(a: DownloadRange, b: DownloadRange, r: ByteRange, size: int64)
    requires a.count >= 1 && b.count >= 1
    requires Covers(a, r, size) && Covers(b, r, size)
    ensures a == b
  {
    assert Selects(r, size, a.offset) && Selects(r, size, b.offset);
    assert Selects(r, size, a.offset + a.count - 1) && Selects(r, size, b.offset + b.count - 1);
  }
}
