/** What each transaction of the folder protocol does to the rows: the part that
    an invariant does not say. */
module FolderEffects {
  import opened FolderOwnership
  import opened FolderProtocol
  import opened Int64
  import opened Octets
  import opened Options
  import opened Sequences
  import opened UploadSessions

  /** Nothing but the row `k` differs. */
  ghost predicate SameBut<T>(a: map<nat, T>, b: map<nat, T>, k: nat) {
    forall x: nat :: x != k ==> (x in a <==> x in b) && (x in a ==> a[x] == b[x])
  }

  /** Rows were added, none was changed. */
  ghost predicate Grown<T>(a: map<nat, T>, b: map<nat, T>) {
    forall x <- a :: x in b && b[x] == a[x]
  }

  // Finalization.

  /** Every entry that leads to the location, and there is one, is for the tuple. */
  ghost predicate Replaces(s: State, tuple: Tuple, location: nat) {
    && (exists e <- s.entries :: s.entries[e].location == location && s.entries[e].tuple == tuple)
    && (forall e <- s.entries :: s.entries[e].location == location ==> s.entries[e].tuple == tuple)
  }

  /** A location that lost its last entry is fenced from now on at the latest, or
      gone with its folder queued if nothing holds it back. */
  ghost predicate FencedOrGone(s: State, t: State, c: Config, location: nat)
    requires location in s.locations
  {
    var l := s.locations[location];
    if MayGo(s, c, location) then location !in t.locations && Place(l.folder, Root) in t.tasks.Values
    else
      && location in t.locations
      && t.locations[location] == l.(deletionRequestedAt :=
           Some(if l.deletionRequestedAt.Some? then l.deletionRequestedAt.value else s.now))
  }

  ghost predicate Elsewhere(s: State, t: State, location: nat) {
    && SameBut(s.locations, t.locations, location) && Grown(s.tasks, t.tasks)
    && t.entries == s.entries && t.uploads == s.uploads && t.now == s.now
  }

  lemma MarkElsewhere(s: State, location: nat)
    requires location in s.locations
    ensures Elsewhere(s, MarkDeleted(s, location), location)
  {
  }

  lemma RetireElsewhere(s: State, location: nat)
    requires location in s.locations && Drawn(s.tasks, s.next)
    ensures Elsewhere(s, Retire(s, location), location)
  {
  }

  lemma FenceElsewhere(s: State, c: Config, location: nat)
    requires Drawn(s.tasks, s.next)
    ensures Elsewhere(s, Fence(s, c, location), location)
  {
    if location in s.locations {
      MarkElsewhere(s, location);
      RetireElsewhere(MarkDeleted(s, location), location);
    }
  }

  lemma FenceHere(s: State, c: Config, location: nat)
    requires location in s.locations && !Referenced(s, location)
    ensures FencedOrGone(s, Fence(s, c, location), c, location)
  {
    FenceIsExact(s, c, location);
    RetiresExactlyWhenDue(s, c, location);
  }

  /** The entry of the tuple, new or old, leads to the location from now on, and
      every other entry is as before. */
  ghost predicate LeadsTo(s: State, entries: map<nat, Entry>, tuple: Tuple, location: nat) {
    && (exists e <- entries :: entries[e] == Entry(tuple, location, s.now))
    && (forall e <- entries :: entries[e].tuple == tuple ==> entries[e] == Entry(tuple, location, s.now))
    && (forall e <- s.entries :: e in entries && entries[e].tuple == s.entries[e].tuple)
    && (forall e <- s.entries :: s.entries[e].tuple != tuple ==> entries[e] == s.entries[e])
    && (forall e <- entries :: e in s.entries || forall x <- s.entries :: s.entries[x].tuple != tuple)
  }

  /** What finalizing does to the locations that were there. */
  ghost predicate Relocates(s: State, t: State, c: Config, tuple: Tuple) {
    forall l <- s.locations ::
      if Replaces(s, tuple, l) then FencedOrGone(s, t, c, l) else l in t.locations && t.locations[l] == s.locations[l]
  }

  lemma NewEntryLeads(s: State, c: Config, tuple: Tuple, location: nat, p: State)
    requires p.entries == s.entries && p.now == s.now && IdsAreDrawn(s) && p.next > s.next
    requires forall e <- s.entries :: s.entries[e].tuple != tuple
    ensures var t := PointEntry(p.(next := p.next + 1), p.next, tuple, location);
            LeadsTo(s, t.entries, tuple, location) && t.locations == p.locations && t.tasks == p.tasks
  {
    var t := PointEntry(p.(next := p.next + 1), p.next, tuple, location);
    assert t.entries[p.next] == Entry(tuple, location, s.now);
  }

  lemma MovedEntryLeads(s: State, e: nat, tuple: Tuple, location: nat)
    requires e in s.entries && s.entries[e].tuple == tuple
    requires forall x <- s.entries :: s.entries[x].tuple == tuple ==> x == e
    ensures LeadsTo(s, s.entries[e := Entry(tuple, location, s.now)], tuple, location)
  {
    assert s.entries[e := Entry(tuple, location, s.now)][e] == Entry(tuple, location, s.now);
  }

  /** The row that a finalization makes. */
  function NewRow(f: Finalizer): Location {
    Location(f.folder, f.partCount, SizesFound(f), None, None, None, 0, None, None, None)
  }

  /** The transaction before it turns to the entries. */
  ghost predicate Promoted(s: State, p: State, f: Finalizer) {
    && p.now == s.now && p.next > s.next && Drawn(p.tasks, p.next)
    && p.entries == s.entries && p.leases == s.leases && p.uploads == s.uploads - {f.folder}
    && p.locations == s.locations[s.next := NewRow(f)]
    && Grown(s.tasks, p.tasks) && Place(f.folder, Blocks) in p.tasks.Values
  }

  lemma PromotionMakes(s: State, f: Finalizer)
    requires IdsAreDrawn(s)
    ensures Promoted(s, Promote(s, f.folder, SizesFound(f)), f)
  {
    var p := Promote(s, f.folder, SizesFound(f));
    assert p.tasks[s.next + 1] == Place(f.folder, Blocks);
  }

  /** What finalizing an upload of this tuple comes to. */
  ghost predicate Completes(s: State, t: State, c: Config, f: Finalizer) {
    && s.next !in s.locations && s.next in t.locations && t.locations[s.next] == NewRow(f)
    && (forall l <- t.locations :: l in s.locations || l == s.next)
    && LeadsTo(s, t.entries, f.tuple, s.next)
    && Relocates(s, t, c, f.tuple)
    && t.uploads == s.uploads - {f.folder}
    && Grown(s.tasks, t.tasks) && Place(f.folder, Blocks) in t.tasks.Values
  }

  lemma CompletesWithoutEntry(s: State, c: Config, p: State, f: Finalizer)
    requires IdsAreDrawn(s) && Promoted(s, p, f) && forall e <- s.entries :: s.entries[e].tuple != f.tuple
    ensures Completes(s, PointEntry(p.(next := p.next + 1), p.next, f.tuple, s.next), c, f)
  {
    NewEntryLeads(s, c, f.tuple, s.next, p);
  }

  lemma ReplacedIsUnreferenced(s: State, q: State, e: nat, tuple: Tuple, location: nat)
    requires e in s.entries && s.entries[e].tuple == tuple && s.entries[e].location != location
    requires forall x <- s.entries :: s.entries[x].tuple == tuple ==> x == e
    requires q.entries == s.entries[e := Entry(tuple, location, s.now)]
    ensures Referenced(q, s.entries[e].location) <==> !Replaces(s, tuple, s.entries[e].location)
    ensures forall l :: Replaces(s, tuple, l) ==> l == s.entries[e].location
  {
    var was := s.entries[e].location;
    if x :| x in s.entries && s.entries[x].location == was && s.entries[x].tuple != tuple {
      assert x in q.entries && q.entries[x].location == was;
    }
  }

  lemma MovedRelocates(s: State, c: Config, q: State, f: Finalizer, e: nat)
    requires Rows(s, c) && e in s.entries && s.entries[e].tuple == f.tuple
    requires q.now == s.now && q.leases == s.leases && Drawn(q.tasks, q.next) && q.locations == s.locations[s.next := NewRow(f)]
    requires q.entries == s.entries[e := Entry(f.tuple, s.next, s.now)]
    ensures Relocates(s, Fence(q, c, s.entries[e].location), c, f.tuple)
  {
    var was := s.entries[e].location;
    ReplacedIsUnreferenced(s, q, e, f.tuple, s.next);
    FenceElsewhere(q, c, was);
    if Replaces(s, f.tuple, was) {
      FenceHere(q, c, was);
      assert MayGo(q, c, was) <==> MayGo(s, c, was);
    }
  }

  lemma CompletesWithEntry(s: State, c: Config, p: State, f: Finalizer, e: nat)
    requires Rows(s, c) && Promoted(s, p, f) && e in s.entries && s.entries[e].tuple == f.tuple
    ensures Completes(s, Fence(PointEntry(p, e, f.tuple, s.next), c, s.entries[e].location), c, f)
  {
    var q, was := PointEntry(p, e, f.tuple, s.next), s.entries[e].location;
    MovedEntryLeads(s, e, f.tuple, s.next);
    MovedRelocates(s, c, q, f, e);
    FenceElsewhere(q, c, was);
    RestAfterFence(s, q, Fence(q, c, was), f, was);
  }

  lemma RestAfterFence(s: State, q: State, t: State, f: Finalizer, was: nat)
    requires Drawn(s.locations, s.next) && was in s.locations && Elsewhere(q, t, was)
    requires q.locations == s.locations[s.next := NewRow(f)] && q.uploads == s.uploads - {f.folder}
    requires Grown(s.tasks, q.tasks) && Place(f.folder, Blocks) in q.tasks.Values
    ensures s.next !in s.locations && s.next in t.locations && t.locations[s.next] == NewRow(f)
    ensures forall l <- t.locations :: l in s.locations || l == s.next
    ensures t.uploads == s.uploads - {f.folder} && Grown(s.tasks, t.tasks) && Place(f.folder, Blocks) in t.tasks.Values
  {
    var x :| x in q.tasks && q.tasks[x] == Place(f.folder, Blocks);
    assert x in t.tasks && t.tasks[x] == Place(f.folder, Blocks);
  }

  /** Finalizing an upload leads its tuple to the uploaded folder: exactly one
      entry matches it, under the id it had if there was one, and points at a new
      row for that folder; every other entry is unchanged. A location that lost
      its last entry by that is fenced, or gone if it may go; every other one is
      unchanged. */
  lemma CompletionLeadsToTheUpload(s: State, c: Config, id: nat)
    requires Inv(s, c) && Possible(s, c, CompleteUpload(id))
    ensures Completes(s, Next(s, c, CompleteUpload(id)), c, s.finalizers[id])
  {
    FinalizeCompletes(s, c, id);
  }

  lemma FinalizeCompletes(s: State, c: Config, id: nat)
    requires Rows(s, c) && CanFinalize(s, id)
    ensures Completes(s, Finalize(s, c, id), c, s.finalizers[id])
  {
    var f := s.finalizers[id];
    var p := Promote(s, f.folder, SizesFound(f));
    PromotionMakes(s, f);
    OnlyEntry(s, f.tuple);
    match TheEntry(s, f.tuple)
    case None =>
      assert forall e <- s.entries :: !Matches(s, e, f.tuple);
      CompletesWithoutEntry(s, c, p, f);
    case Some(e) =>
      CompletesWithEntry(s, c, p, f, e);
  }
}
