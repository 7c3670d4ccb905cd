/** Length-prefixed digests (internal/storage/s3.go, s3KeyPageFingerprint, and
    internal/cache/service.go, uploadTupleHash). A string is the sequence of
    its bytes, one char a byte; SHA-256 is taken to be injective, so a digest
    is represented by the byte sequence that is hashed. */
module PageFingerprint {
  import opened Int64
  import opened Sequences

  /** The `width` bytes of n, most significant first. */
  function BigEndian(n: nat, width: nat): (bytes: seq<int>)
    ensures |bytes| == width
  {
    if width == 0 then [] else BigEndian(n / 256, width - 1) + [n % 256]
  }

  function PowerOf256(width: nat): nat {
    if width == 0 then 1 else 256 * PowerOf256(width - 1)
  }

  lemma {:induction false} BigEndianInjective(m: nat, n: nat, width: nat)
    requires m < PowerOf256(width) && n < PowerOf256(width)
    requires BigEndian(m, width) == BigEndian(n, width)
    ensures m == n
  {
    if width > 0 {
      var a, b := BigEndian(m / 256, width - 1), BigEndian(n / 256, width - 1);
      assert BigEndian(m, width)[..width - 1] == a && BigEndian(n, width)[..width - 1] == b;
      assert BigEndian(m, width)[width - 1] == m % 256 && BigEndian(n, width)[width - 1] == n % 256;
      BigEndianInjective(m / 256, n / 256, width - 1);
    }
  }

  function Codes(s: string): (codes: seq<int>) {
    seq(|s|, i requires 0 <= i < |s| => s[i] as int)
  }

  lemma CodesInjective(a: string, b: string)
    requires Codes(a) == Codes(b)
    ensures a == b
  {
    forall i | 0 <= i < |a|
      ensures a[i] == b[i]
    {
      assert Codes(a)[i] == Codes(b)[i];
    }
  }

  /** What is written into the hash: for each value its length as an unsigned
      64-bit integer, then its bytes. */
  function HashInput(values: seq<string>): seq<int> {
    if values == [] then []
    else BigEndian(|values[0]|, 8) + Codes(values[0]) + HashInput(values[1..])
  }

  ghost predicate LengthsFit(values: seq<string>) {
    forall i :: 0 <= i < |values| ==> |values[i]| < TWO_TO_THE_64
  }

  /** Different lists of strings hash different inputs: no boundary between two
      values can move. */
  lemma {:induction false} HashInputInjective(a: seq<string>, b: seq<string>)
    requires LengthsFit(a) && LengthsFit(b)
    requires HashInput(a) == HashInput(b)
    ensures a == b
  {
    assert a != [] ==> |HashInput(a)| >= 8;
    assert b != [] ==> |HashInput(b)| >= 8;
    if a != [] && b != [] {
      var ia, ib := HashInput(a), HashInput(b);
      assert ia[..8] == BigEndian(|a[0]|, 8) && ib[..8] == BigEndian(|b[0]|, 8);
      assert PowerOf256(4) == 0x1_0000_0000;
      BigEndianInjective(|a[0]|, |b[0]|, 8);
      var k := 8 + |a[0]|;
      assert ia[8..k] == Codes(a[0]) && ib[8..k] == Codes(b[0]);
      CodesInjective(a[0], b[0]);
      assert ia[k..] == HashInput(a[1..]) && ib[k..] == HashInput(b[1..]);
      HashInputInjective(a[1..], b[1..]);
      assert a == [a[0]] + a[1..] && b == [b[0]] + b[1..];
    }
  }

  /** Two upload reservations share a tuple hash only if they are for the same
      key, version, scope and repository. */
  lemma TupleHashIdentifiesTuple(
    key: string, version: string, scope: string, repoID: string,
    key': string, version': string, scope': string, repoID': string)
    requires LengthsFit([key, version, scope, repoID]) && LengthsFit([key', version', scope', repoID'])
    requires HashInput([key, version, scope, repoID]) == HashInput([key', version', scope', repoID'])
    ensures key == key' && version == version' && scope == scope' && repoID == repoID'
  {
    var a, b := [key, version, scope, repoID], [key', version', scope', repoID'];
    HashInputInjective(a, b);
    assert a[0] == b[0] && a[1] == b[1] && a[2] == b[2] && a[3] == b[3];
  }

  /** Byte-wise lexicographic order, as Go compares strings. */
  predicate AtMost(a: string, b: string) {
    a == [] || (b != [] && (a[0] < b[0] || (a[0] == b[0] && AtMost(a[1..], b[1..]))))
  }

  lemma {:induction false} AtMostTotal(a: string, b: string)
    ensures AtMost(a, b) || AtMost(b, a)
  {
    if a != [] && b != [] {
      AtMostTotal(a[1..], b[1..]);
    }
  }

  lemma {:induction false} AtMostAntisymmetric(a: string, b: string)
    requires AtMost(a, b) && AtMost(b, a)
    ensures a == b
  {
    if a != [] {
      AtMostAntisymmetric(a[1..], b[1..]);
      assert a == [a[0]] + a[1..] && b == [b[0]] + b[1..];
    }
  }

  lemma {:induction false} AtMostTransitive(a: string, b: string, c: string)
    requires AtMost(a, b) && AtMost(b, c)
    ensures AtMost(a, c)
  {
    if a != [] && a[0] == b[0] == c[0] {
      AtMostTransitive(a[1..], b[1..], c[1..]);
    }
  }

  function Insert(key: string, sorted: seq<string>): seq<string> {
    if sorted == [] || AtMost(key, sorted[0]) then [key] + sorted
    else [sorted[0]] + Insert(key, sorted[1..])
  }

  function Sorted(keys: seq<string>): seq<string> {
    if keys == [] then [] else Insert(keys[0], Sorted(keys[1..]))
  }

  lemma {:induction false} InsertCommutes(a: string, b: string, sorted: seq<string>)
    ensures Insert(a, Insert(b, sorted)) == Insert(b, Insert(a, sorted))
  {
    AtMostTotal(a, b);
    if AtMost(a, b) && AtMost(b, a) {
      AtMostAntisymmetric(a, b);
    } else if sorted != [] {
      var first, rest := sorted[0], sorted[1..];
      if AtMost(a, first) && AtMost(b, first) {
      } else if AtMost(a, first) {
        AtMostTotal(b, first);
        if AtMost(b, a) { AtMostTransitive(b, a, first); }
      } else if AtMost(b, first) {
        AtMostTotal(a, first);
        if AtMost(a, b) { AtMostTransitive(a, b, first); }
      } else {
        InsertCommutes(a, b, rest);
        assert Insert(a, sorted)[1..] == Insert(a, rest) && Insert(b, sorted)[1..] == Insert(b, rest);
      }
    }
  }

  lemma {:induction false} InsertKeepsElements(key: string, sorted: seq<string>)
    ensures multiset(Insert(key, sorted)) == multiset(sorted) + multiset{key}
  {
    if sorted != [] && !AtMost(key, sorted[0]) {
      InsertKeepsElements(key, sorted[1..]);
      assert sorted == [sorted[0]] + sorted[1..];
    }
  }

  lemma {:induction false} SortedKeepsElements(keys: seq<string>)
    ensures multiset(Sorted(keys)) == multiset(keys)
  {
    if keys != [] {
      SortedKeepsElements(keys[1..]);
      InsertKeepsElements(keys[0], Sorted(keys[1..]));
      assert keys == [keys[0]] + keys[1..];
    }
  }

  /** Sorting first makes the digest independent of the order of the keys. */
  lemma {:induction false} SortedOfInsertion(keys: seq<string>, i: nat)
    requires i < |keys|
    ensures Sorted(keys) == Insert(keys[i], Sorted(keys[..i] + keys[i + 1..]))
  {
    if i == 0 {
      assert keys[..0] + keys[1..] == keys[1..];
    } else {
      var rest := keys[1..];
      SortedOfInsertion(rest, i - 1);
      var without := keys[..i] + keys[i + 1..];
      assert without[1..] == rest[..i - 1] + rest[i..];
      InsertCommutes(keys[0], keys[i], Sorted(without[1..]));
    }
  }

  lemma {:induction false} PermutationsSortAlike(a: seq<string>, b: seq<string>)
    requires multiset(a) == multiset(b)
    ensures Sorted(a) == Sorted(b)
  {
    if a == [] {
      assert |multiset(b)| == 0;
    } else {
      assert a == [a[0]] + a[1..];
      assert a[0] in multiset(b);
      var i :| 0 <= i < |b| && b[i] == a[0];
      var without := b[..i] + b[i + 1..];
      assert b == b[..i] + [b[i]] + b[i + 1..];
      assert multiset(b) == multiset(without) + multiset{b[i]};
      assert multiset(a) == multiset{a[0]} + multiset(a[1..]);
      assert multiset(without) == multiset(b) - multiset{b[i]};
      assert multiset(a[1..]) == multiset(a) - multiset{a[0]};
      PermutationsSortAlike(a[1..], without);
      SortedOfInsertion(b, i);
    }
  }

  type Digest = seq<string> -> seq<int>

  /** The digest of one listed page. */
  function Fingerprint(keys: seq<string>): seq<int> {
    HashInput(Sorted(keys))
  }

  /** Two pages have the same fingerprint exactly when they list the same keys,
      equally often, in any order. */
  lemma FingerprintIdentifiesPage(a: seq<string>, b: seq<string>)
    requires LengthsFit(a) && LengthsFit(b)
    ensures Fingerprint(a) == Fingerprint(b) <==> multiset(a) == multiset(b)
  {
    SortedKeepsElements(a);
    SortedKeepsElements(b);
    if Fingerprint(a) == Fingerprint(b) {
      MembersFit(a);
      MembersFit(b);
      HashInputInjective(Sorted(a), Sorted(b));
    } else if multiset(a) == multiset(b) {
      PermutationsSortAlike(a, b);
    }
  }

  /** Digests tell pages apart. */
  ghost predicate Identifies(digest: Digest) {
    forall a, b {:trigger digest(a), digest(b)} ::
      LengthsFit(a) && LengthsFit(b) && digest(a) == digest(b) ==> multiset(a) == multiset(b)
  }

  lemma FingerprintIdentifies()
    ensures Identifies(Fingerprint)
  {
    forall a, b | LengthsFit(a) && LengthsFit(b) && Fingerprint(a) == Fingerprint(b)
      ensures multiset(a) == multiset(b)
    {
      FingerprintIdentifiesPage(a, b);
    }
  }

  lemma MembersFit(keys: seq<string>)
    requires LengthsFit(keys)
    ensures LengthsFit(Sorted(keys))
  {
    SortedKeepsElements(keys);
    var s := Sorted(keys);
    forall i | 0 <= i < |s|
      ensures |s[i]| < TWO_TO_THE_64
    {
      assert s[i] in multiset(s);
      assert s[i] in multiset(keys);
    }
  }
}
