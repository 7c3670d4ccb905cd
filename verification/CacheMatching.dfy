/** Which cache entry a restore gets (internal/cache/service.go). */
module CacheMatching {
  import opened Options

  datatype Grant = Grant(scope: string, permission: int)

  datatype Entry = Entry(id: string, key: string, version: string, scope: string, repoID: string, updatedAt: int)

  // Scopes.

  /** The first scope that may be written to. */
  function WriteScope(grants: seq<Grant>): (r: Option<string>)
    ensures r.None? <==> forall g <- grants :: g.permission < 2
    ensures r.Some? ==> exists i :: 0 <= i < |grants| && grants[i] == Grant(r.value, grants[i].permission)
                                 && grants[i].permission >= 2 && forall j :: 0 <= j < i ==> grants[j].permission < 2
  {
    if grants == [] then None
    else if grants[0].permission >= 2 then Some(grants[0].scope)
    else WriteScope(grants[1..])
  }

  /** A stable sort by falling permission: `g` goes before all that have no more. */
  function Insert(g: Grant, sorted: seq<Grant>): seq<Grant> {
    if sorted == [] || sorted[0].permission <= g.permission then [g] + sorted
    else [sorted[0]] + Insert(g, sorted[1..])
  }

  function Sorted(grants: seq<Grant>): seq<Grant> {
    if grants == [] then [] else Insert(grants[0], Sorted(grants[1..]))
  }

  function Having(grants: seq<Grant>, permission: int): seq<Grant> {
    if grants == [] then []
    else (if grants[0].permission == permission then [grants[0]] else []) + Having(grants[1..], permission)
  }

  predicate Falling(grants: seq<Grant>) {
    |grants| > 1 ==> grants[0].permission >= grants[1].permission && Falling(grants[1..])
  }

  lemma {:induction false} InsertKeepsOrder(g: Grant, sorted: seq<Grant>)
    requires Falling(sorted)
    ensures Falling(Insert(g, sorted))
    ensures Insert(g, sorted)[0] == g || (sorted != [] && Insert(g, sorted)[0] == sorted[0])
  {
    if sorted == [] || sorted[0].permission <= g.permission {
      assert ([g] + sorted)[1..] == sorted;
    } else {
      InsertKeepsOrder(g, sorted[1..]);
      assert ([sorted[0]] + Insert(g, sorted[1..]))[1..] == Insert(g, sorted[1..]);
    }
  }

  lemma {:induction false} InsertAddsOne(g: Grant, sorted: seq<Grant>)
    ensures multiset(Insert(g, sorted)) == multiset(sorted) + multiset{g}
  {
    if sorted != [] && sorted[0].permission > g.permission {
      InsertAddsOne(g, sorted[1..]);
      assert sorted == [sorted[0]] + sorted[1..];
    }
  }

  lemma HavingOneMore(g: Grant, rest: seq<Grant>, p: int)
    ensures Having([g] + rest, p) == if g.permission == p then [g] + Having(rest, p) else Having(rest, p)
  {
    assert ([g] + rest)[1..] == rest;
  }

  lemma {:induction false} InsertKeepsEquals(g: Grant, sorted: seq<Grant>, p: int)
    ensures Having(Insert(g, sorted), p) == if g.permission == p then [g] + Having(sorted, p) else Having(sorted, p)
  {
    if sorted == [] || sorted[0].permission <= g.permission {
      HavingOneMore(g, sorted, p);
    } else {
      InsertKeepsEquals(g, sorted[1..], p);
      HavingOneMore(sorted[0], Insert(g, sorted[1..]), p);
      HavingOneMore(sorted[0], sorted[1..], p);
      assert sorted == [sorted[0]] + sorted[1..];
    }
  }

  /** The three facts that make it the stable sort: falling, the same grants,
      and those of equal permission in their old order. */
  lemma {:induction false} SortIsStable(grants: seq<Grant>)
    ensures Falling(Sorted(grants)) && multiset(Sorted(grants)) == multiset(grants)
    ensures forall p :: Having(Sorted(grants), p) == Having(grants, p)
  {
    if grants != [] {
      SortIsStable(grants[1..]);
      InsertKeepsOrder(grants[0], Sorted(grants[1..]));
      InsertAddsOne(grants[0], Sorted(grants[1..]));
      assert grants == [grants[0]] + grants[1..];
      forall p
        ensures Having(Sorted(grants), p) == Having(grants, p)
      {
        InsertKeepsEquals(grants[0], Sorted(grants[1..]), p);
      }
    }
  }

  function Readable(grants: seq<Grant>): seq<string> {
    if grants == [] then []
    else (if grants[0].permission < 1 then [] else [grants[0].scope]) + Readable(grants[1..])
  }

  function ReadScopesByPermission(grants: seq<Grant>): seq<string> {
    Readable(Sorted(grants))
  }

  lemma {:induction false} ReadableHolds(grants: seq<Grant>, scope: string)
    ensures scope in Readable(grants) <==> exists g <- grants :: g.scope == scope && g.permission >= 1
  {
    if grants != [] {
      ReadableHolds(grants[1..], scope);
      assert grants == [grants[0]] + grants[1..];
    }
  }

  /** Exactly the scopes granted for reading are searched. */
  lemma ReadScopesAreTheGranted(grants: seq<Grant>, scope: string)
    ensures scope in ReadScopesByPermission(grants) <==> exists g <- grants :: g.scope == scope && g.permission >= 1
  {
    SortIsStable(grants);
    ReadableHolds(Sorted(grants), scope);
    if g :| g in grants && g.scope == scope && g.permission >= 1 {
      assert g in multiset(Sorted(grants));
    }
    if g :| g in Sorted(grants) && g.scope == scope && g.permission >= 1 {
      assert g in multiset(grants);
    }
  }

  // Entries.

  predicate InReach(e: Entry, version: string, scope: string, repoID: string) {
    e.version == version && e.scope == scope && e.repoID == repoID
  }

  /** `key` itself, or a key that begins with it. */
  predicate Fits(e: Entry, key: string, prefix: bool) {
    if prefix then key <= e.key else key == e.key
  }

  predicate Hits(e: Entry, key: string, prefix: bool, version: string, scope: string, repoID: string) {
    InReach(e, version, scope, repoID) && Fits(e, key, prefix)
  }

  /** The first row of the query: for a prefix the latest update, otherwise any. */
  method FindCacheEntry(entries: seq<Entry>, key: string, prefix: bool, version: string, scope: string, repoID: string)
    returns (r: Option<Entry>)
    ensures r.None? <==> forall e <- entries :: !Hits(e, key, prefix, version, scope, repoID)
    ensures r.Some? ==> r.value in entries && Hits(r.value, key, prefix, version, scope, repoID)
    ensures r.Some? && prefix ==>
              forall e <- entries :: Hits(e, key, prefix, version, scope, repoID) ==> e.updatedAt <= r.value.updatedAt
  {
    r := None;
    for i := 0 to |entries|
      invariant r.None? <==> forall j :: 0 <= j < i ==> !Hits(entries[j], key, prefix, version, scope, repoID)
      invariant r.Some? ==> r.value in entries && Hits(r.value, key, prefix, version, scope, repoID)
      invariant r.Some? && prefix ==>
                  forall j :: 0 <= j < i && Hits(entries[j], key, prefix, version, scope, repoID) ==>
                    entries[j].updatedAt <= r.value.updatedAt
    {
      var e := entries[i];
      if Hits(e, key, prefix, version, scope, repoID) && (r.None? || (prefix && r.value.updatedAt < e.updatedAt)) {
        r := Some(e);
      }
    }
  }

  method FindExactOrPrefixed(entries: seq<Entry>, key: string, version: string, scope: string, repoID: string)
    returns (r: Option<Entry>)
    ensures r.None? <==> forall e <- entries :: !Hits(e, key, true, version, scope, repoID)
    ensures r.Some? ==> Best(entries, r.value, key, version, scope, repoID)
  {
    r := FindCacheEntry(entries, key, false, version, scope, repoID);
    if r.Some? {
      return;
    }
    r := FindCacheEntry(entries, key, true, version, scope, repoID);
  }

  /** The best entry for one key in one scope: an exact match, or else the one
      updated last among those that begin with the key. */
  ghost predicate Best(entries: seq<Entry>, e: Entry, key: string, version: string, scope: string, repoID: string) {
    && e in entries && Hits(e, key, true, version, scope, repoID)
    && (e.key == key
        || forall x <- entries :: Hits(x, key, true, version, scope, repoID) ==>
             x.key != key && x.updatedAt <= e.updatedAt)
  }

  /** Nothing matches `key` in `scope`. */
  ghost predicate Misses(entries: seq<Entry>, key: string, version: string, scope: string, repoID: string) {
    forall e <- entries :: !Hits(e, key, true, version, scope, repoID)
  }

  /** `e` is what the search in order of scopes, then keys, comes to first. */
  ghost predicate Earliest(
    entries: seq<Entry>, e: Entry, keys: seq<string>, version: string, scopes: seq<string>, repoID: string, i: nat, j: nat)
  {
    && i < |scopes| && j < |keys|
    && Best(entries, e, keys[j], version, scopes[i], repoID)
    && (forall k, l :: 0 <= k < |scopes| && 0 <= l < |keys| && (k < i || (k == i && l < j)) ==>
          Misses(entries, keys[l], version, scopes[k], repoID))
  }

  method MatchCacheEntry(entries: seq<Entry>, keys: seq<string>, version: string, grants: seq<Grant>, repoID: string)
    returns (r: Option<Entry>)
    requires keys != []
    ensures r.None? <==>
              forall i, j :: 0 <= i < |ReadScopesByPermission(grants)| && 0 <= j < |keys| ==>
                Misses(entries, keys[j], version, ReadScopesByPermission(grants)[i], repoID)
    ensures r.Some? ==> exists i, j :: Earliest(entries, r.value, keys, version, ReadScopesByPermission(grants), repoID, i, j)
  {
    var scopes := ReadScopesByPermission(grants);
    if |scopes| == 0 {
      return None;
    }
    for i := 0 to |scopes|
      invariant forall k, l :: 0 <= k < i && 0 <= l < |keys| ==> Misses(entries, keys[l], version, scopes[k], repoID)
    {
      r := FindExactOrPrefixed(entries, keys[0], version, scopes[i], repoID);
      if r.Some? {
        assert Earliest(entries, r.value, keys, version, scopes, repoID, i, 0);
        return;
      }
      for j := 1 to |keys|
        invariant forall l :: 0 <= l < j ==> Misses(entries, keys[l], version, scopes[i], repoID)
      {
        r := FindExactOrPrefixed(entries, keys[j], version, scopes[i], repoID);
        if r.Some? {
          assert Earliest(entries, r.value, keys, version, scopes, repoID, i, j);
          return;
        }
      }
    }
    return None;
  }
}
