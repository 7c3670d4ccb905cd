/** Finding storage folders that nothing in the database answers for
    (internal/cleanup/orphaned_storage.go). */
module OrphanedStorage {
  import opened Options
  import opened Sequences

  const FOLDER_BATCH_SIZE := 200
  const QUERY_PAGE_SIZE := 200

  /** The part of a name before its first slash. */
  function TopLevel(name: string): string {
    if name == "" || name[0] == '/' then "" else [name[0]] + TopLevel(name[1..])
  }

  /** The folder itself, or something inside it: what the queries' equality and
      prefix conditions say together. */
  predicate Under(name: string, folder: string) {
    name == folder || folder + "/" <= name
  }

  /** For a top-level folder the two conditions pick out exactly its own names. */
  lemma {:induction false} UnderIsTopLevel(name: string, folder: string)
    requires '/' !in folder
    ensures Under(name, folder) <==> TopLevel(name) == folder
  {
    if folder == "" {
      assert "" + "/" == "/";
      assert "/" <= name <==> name != "" && name[0] == '/';
    } else if name == "" || name[0] == '/' {
      assert (folder + "/")[0] == folder[0] != '/';
    } else {
      UnderIsTopLevel(name[1..], folder[1..]);
      assert folder == [folder[0]] + folder[1..] && name == [name[0]] + name[1..];
      assert (folder + "/")[1..] == folder[1..] + "/";
      if folder + "/" <= name {
        assert folder[1..] + "/" <= name[1..];
      }
      if name[0] == folder[0] && folder[1..] + "/" <= name[1..] {
        assert folder + "/" == [folder[0]] + (folder[1..] + "/");
      }
    }
  }

  lemma {:induction false} TopLevelHasNoSlash(name: string)
    ensures '/' !in TopLevel(name)
  {
    if name != "" && name[0] != '/' {
      TopLevelHasNoSlash(name[1..]);
    }
  }

  // Temporary uploads.

  function Roots(names: seq<string>): set<string> {
    set name <- names | TopLevel(name) != "" :: TopLevel(name)
  }

  /** Upload rows by id; names from old imports may be nested. */
  type Uploads = map<nat, string>

  function Matching(uploads: Uploads, roots: set<string>, cursor: Option<nat>): set<nat> {
    set id <- uploads | (cursor.None? || id > cursor.value) && exists root <- roots :: Under(uploads[id], root)
  }

  function ByRoot(uploads: Uploads, roots: set<string>, cursor: Option<nat>): set<nat> {
    set id <- uploads | (cursor.None? || id > cursor.value) && TopLevel(uploads[id]) in roots
  }

  /** The folders among `roots` that some upload row belongs to. */
  function Active(uploads: Uploads, roots: set<string>): set<string> {
    set id <- uploads | TopLevel(uploads[id]) in roots :: TopLevel(uploads[id])
  }

  /** The folders of the rows up to the cursor are known. */
  ghost predicate Known(uploads: Uploads, roots: set<string>, cursor: Option<nat>, active: set<string>) {
    && active <= Active(uploads, roots)
    && forall id <- uploads :: cursor.Some? && id <= cursor.value && TopLevel(uploads[id]) in roots ==> TopLevel(uploads[id]) in active
  }

  lemma RootsAreTopLevel(names: seq<string>, root: string)
    requires root in Roots(names)
    ensures root != "" && '/' !in root
  {
    var name :| name in names && TopLevel(name) == root;
    TopLevelHasNoSlash(name);
  }

  lemma MatchingIsByRoot(uploads: Uploads, names: seq<string>, cursor: Option<nat>)
    ensures Matching(uploads, Roots(names), cursor) == ByRoot(uploads, Roots(names), cursor)
  {
    forall root, id | root in Roots(names) && id in uploads
      ensures Under(uploads[id], root) <==> TopLevel(uploads[id]) == root
    {
      RootsAreTopLevel(names, root);
      UnderIsTopLevel(uploads[id], root);
    }
  }

  method CollectPage(uploads: Uploads, roots: set<string>, page: seq<nat>, known: set<string>, from: Option<nat>)
    returns (active: set<string>, cursor: Option<nat>)
    requires Known(uploads, roots, from, known) && "" !in roots
    requires IsPageOf(ByRoot(uploads, roots, from), QUERY_PAGE_SIZE, page)
    ensures Known(uploads, roots, cursor, active)
    ensures cursor == if page == [] then from else Some(page[|page| - 1])
    ensures |page| < QUERY_PAGE_SIZE ==> active == Active(uploads, roots)
  {
    active, cursor := known, from;
    for i := 0 to |page|
      invariant known <= active <= Active(uploads, roots)
      invariant forall j :: 0 <= j < i ==> TopLevel(uploads[page[j]]) in active
      invariant cursor == if i == 0 then from else Some(page[i - 1])
    {
      cursor := Some(page[i]);
      var root := TopLevel(uploads[page[i]]);
      if root != "" {
        active := active + {root};
      }
    }
    forall id | id in uploads && TopLevel(uploads[id]) in roots
                && ((cursor.Some? && id <= cursor.value) || |page| < QUERY_PAGE_SIZE)
      ensures TopLevel(uploads[id]) in active
    {
      if from.None? || id > from.value {
        assert id in ByRoot(uploads, roots, from);
        assert id in page;
        var j :| 0 <= j < |page| && page[j] == id;
        assert TopLevel(uploads[page[j]]) in active;
      }
    }
  }

  /** Which folders of a batch of temporary files belong to an upload. The paging
      may end early, once every folder of the batch is known to. */
  method ActiveUploadFolders(uploads: Uploads, candidates: seq<string>) returns (active: set<string>)
    ensures active == Active(uploads, Roots(candidates))
  {
    var roots := Roots(candidates);
    active := {};
    if roots == {} {
      return;
    }
    if "" in roots {
      RootsAreTopLevel(candidates, "");
    }
    var cursor: Option<nat> := None;
    var more := true;
    while more
      invariant Known(uploads, roots, cursor, active)
      invariant !more ==> active == Active(uploads, roots)
      decreases more, Matching(uploads, roots, cursor)
    {
      MatchingIsByRoot(uploads, candidates, cursor);
      ghost var was := cursor;
      var page := PageOf(Matching(uploads, roots, cursor), QUERY_PAGE_SIZE);
      active, cursor := CollectPage(uploads, roots, page, active, cursor);
      more := |page| == QUERY_PAGE_SIZE && |active| != |roots|;
      if |active| == |roots| {
        SameSize(active, roots);
      } else if more {
        MatchingIsByRoot(uploads, candidates, cursor);
        assert page[0] in Matching(uploads, roots, was);
        assert page[|page| - 1] >= page[0];
        assert page[0] !in Matching(uploads, roots, cursor);
      }
    }
  }

  lemma SameSize(a: set<string>, b: set<string>)
    requires a <= b && |a| == |b|
    ensures a == b
  {
    assert b == a + (b - a);
  }

  // Orphaned folders.

  /** What an inspection of a folder in storage finds. */
  datatype Summary = Unreadable | Missing | Undated | Recent | Old

  predicate NoneUnder(names: seq<string>, folder: string) {
    names == [] || (!Under(names[0], folder) && NoneUnder(names[1..], folder))
  }

  lemma {:induction false} NoneUnderAppend(a: seq<string>, b: seq<string>, folder: string)
    ensures NoneUnder(a + b, folder) <==> NoneUnder(a, folder) && NoneUnder(b, folder)
  {
    if a == [] {
      assert a + b == b;
    } else {
      assert (a + b)[1..] == a[1..] + b;
      NoneUnderAppend(a[1..], b, folder);
    }
  }

  lemma {:induction false} SomeUnder(names: seq<string>, name: string, folder: string)
    requires name in names && Under(name, folder)
    ensures !NoneUnder(names, folder)
  {
    if names[0] != name {
      assert names == [names[0]] + names[1..];
      SomeUnder(names[1..], name, folder);
    }
  }

  /** The folder names in the three tables. */
  class Tables {
    var uploads: seq<string>
    var locations: seq<string>
    var deletions: seq<string>

    constructor (uploads: seq<string>, locations: seq<string>, deletions: seq<string>)
      ensures this.uploads == uploads && this.locations == locations && this.deletions == deletions
    {
      this.uploads, this.locations, this.deletions := uploads, locations, deletions;
    }

    function Names(): seq<string>
      reads this
    {
      uploads + locations + deletions
    }

    /** The transaction looks at all three tables again before it queues the folder. */
    method Claim(folder: string) returns (claimed: bool)
      modifies this`deletions
      ensures claimed == NoneUnder(old(Names()), folder)
      ensures deletions == if claimed then old(deletions) + [folder] else old(deletions)
    {
      NoneUnderAppend(uploads + locations, deletions, folder);
      NoneUnderAppend(uploads, locations, folder);
      var hasUpload := !NoneUnder(uploads, folder);
      var hasLocation := !NoneUnder(locations, folder);
      var hasDeletion := !NoneUnder(deletions, folder);
      claimed := !hasUpload && !hasLocation && !hasDeletion;
      if claimed {
        deletions := deletions + [folder];
      }
    }

    /** What the first, cheap queries look for. */
    predicate Referenced(folder: string)
      reads this
    {
      || folder in uploads || folder in locations || folder in deletions
      || folder + "/parts" in deletions || folder + "/blocks" in deletions
    }

    lemma ReferencedIsUnder(folder: string)
      requires Referenced(folder)
      ensures !NoneUnder(Names(), folder)
    {
      if folder in Names() {
        SomeUnder(Names(), folder, folder);
      } else {
        var name := if folder + "/parts" in deletions then folder + "/parts" else folder + "/blocks";
        assert folder + "/" <= folder + "/parts" && folder + "/" <= folder + "/blocks";
        SomeUnder(Names(), name, folder);
      }
    }
  }

  /** The folders among the first `n` that get queued, given the names in the
      tables before the first of them. */
  function Orphans(names: seq<string>, folders: seq<string>, n: nat, inspect: string -> Summary, claimFails: string -> bool): seq<string>
    requires n <= |folders|
  {
    if n == 0 then []
    else
      var queued := Orphans(names, folders, n - 1, inspect, claimFails);
      var f := folders[n - 1];
      if NoneUnder(names + queued, f) && inspect(f) == Old && !claimFails(f) then queued + [f] else queued
  }

  /** Distinct top-level folders do not lie in one another. */
  lemma TopLevelsAreApart(f: string, g: string)
    requires '/' !in f && '/' !in g
    ensures Under(f, g) <==> f == g
  {
    if |g| < |f| {
      assert (g + "/")[|g|] == '/';
      assert f[|g|] in f;
    }
  }

  lemma {:induction false} UnderTopLevels(names: seq<string>, folder: string)
    requires '/' !in folder && forall name <- names :: '/' !in name
    ensures NoneUnder(names, folder) <==> folder !in names
  {
    if names != [] {
      assert names[0] in names;
      TopLevelsAreApart(names[0], folder);
      UnderTopLevels(names[1..], folder);
      assert names == [names[0]] + names[1..];
    }
  }

  /** Each top-level folder that is old and that no row is for is queued once,
      in spite of duplicates in the walk, and nothing else is queued. */
  lemma {:induction false} OrphansAreUnclaimed(names: seq<string>, folders: seq<string>, n: nat, inspect: string -> Summary,
                                               claimFails: string -> bool)
    requires n <= |folders| && forall f <- folders :: '/' !in f
    ensures var queued := Orphans(names, folders, n, inspect, claimFails);
            && Distinct(queued)
            && (forall f <- queued :: '/' !in f)
            && (forall f :: f in queued <==> f in folders[..n] && NoneUnder(names, f) && inspect(f) == Old && !claimFails(f))
  {
    if n > 0 {
      OrphansAreUnclaimed(names, folders, n - 1, inspect, claimFails);
      var queued := Orphans(names, folders, n - 1, inspect, claimFails);
      var f := folders[n - 1];
      assert f in folders;
      NoneUnderAppend(names, queued, f);
      UnderTopLevels(queued, f);
      assert folders[..n] == folders[..n - 1] + [f];
    }
  }

  method FindReferences(tables: Tables, folders: seq<string>) returns (references: set<string>)
    ensures forall f <- references :: !NoneUnder(tables.Names(), f)
  {
    references := set f <- folders | tables.Referenced(f);
    forall f | f in references
      ensures !NoneUnder(tables.Names(), f)
    {
      tables.ReferencedIsUnder(f);
    }
  }

  /** A batch queues exactly what one claim after the other would: the folders
      that the first queries leave out would not have been claimed. It stops in
      front of the first folder at which it finds itself cancelled. */
  method ProcessOrphanFolderBatch(tables: Tables, folders: seq<string>, inspect: string -> Summary, claimFails: string -> bool,
                                  cancelled: nat -> bool)
    returns (queued: nat, reached: nat)
    modifies tables`deletions
    ensures reached <= |folders| && (reached < |folders| ==> cancelled(reached))
    ensures forall i :: 0 <= i < reached ==> !cancelled(i)
    ensures tables.deletions == old(tables.deletions) + Orphans(old(tables.Names()), folders, reached, inspect, claimFails)
    ensures queued == |Orphans(old(tables.Names()), folders, reached, inspect, claimFails)|
  {
    queued := 0;
    ghost var names := tables.Names();
    var references := FindReferences(tables, folders);
    for i := 0 to |folders|
      invariant forall j :: 0 <= j < i ==> !cancelled(j)
      invariant tables.deletions == old(tables.deletions) + Orphans(names, folders, i, inspect, claimFails)
      invariant queued == |Orphans(names, folders, i, inspect, claimFails)|
    {
      if cancelled(i) {
        return queued, i;
      }
      ghost var soFar := Orphans(names, folders, i, inspect, claimFails);
      var folder := folders[i];
      if folder in references {
        NoneUnderAppend(names, soFar, folder);
        continue;
      }
      if inspect(folder) != Old || claimFails(folder) {
        continue;
      }
      assert tables.Names() == names + soFar;
      var claimed := tables.Claim(folder);
      if claimed {
        queued := queued + 1;
      }
    }
    return queued, |folders|;
  }

  /** Batch after batch queues what one batch of all would. */
  lemma {:induction false} BatchesAddUp(names: seq<string>, walked: seq<string>, from: nat, n: nat, inspect: string -> Summary,
                                        claimFails: string -> bool)
    requires from + n <= |walked|
    ensures var claimed := Orphans(names, walked, from, inspect, claimFails);
            claimed + Orphans(names + claimed, walked[from..], n, inspect, claimFails)
            == Orphans(names, walked, from + n, inspect, claimFails)
  {
    var claimed := Orphans(names, walked, from, inspect, claimFails);
    if n > 0 {
      BatchesAddUp(names, walked, from, n - 1, inspect, claimFails);
      var more := Orphans(names + claimed, walked[from..], n - 1, inspect, claimFails);
      assert names + claimed + more == names + (claimed + more);
      assert walked[from..][n - 1] == walked[from + n - 1];
      assert claimed + (more + [walked[from + n - 1]]) == claimed + more + [walked[from + n - 1]];
    }
  }

  lemma {:induction false} OnlyTheFirst(names: seq<string>, a: seq<string>, b: seq<string>, n: nat, inspect: string -> Summary,
                                        claimFails: string -> bool)
    requires n <= |a| && n <= |b| && forall i :: 0 <= i < n ==> a[i] == b[i]
    ensures Orphans(names, a, n, inspect, claimFails) == Orphans(names, b, n, inspect, claimFails)
  {
    if n > 0 {
      OnlyTheFirst(names, a, b, n - 1, inspect, claimFails);
    }
  }

  /** The next batch of the walk, as far as it gets. */
  method Flush(tables: Tables, ghost walked: seq<string>, handled: nat, batch: seq<string>, soFar: nat,
               inspect: string -> Summary, claimFails: string -> bool, cancelled: nat -> bool,
               ghost names: seq<string>, ghost before: seq<string>)
    returns (queued: nat, reached: nat)
    requires handled + |batch| <= |walked| && batch == walked[handled..handled + |batch|]
    requires names == tables.uploads + tables.locations + before
    requires tables.deletions == before + Orphans(names, walked, handled, inspect, claimFails)
    requires soFar == |Orphans(names, walked, handled, inspect, claimFails)|
    modifies tables`deletions
    ensures handled <= reached <= handled + |batch| && (reached < handled + |batch| ==> cancelled(reached))
    ensures forall i :: handled <= i < reached ==> !cancelled(i)
    ensures tables.deletions == before + Orphans(names, walked, reached, inspect, claimFails)
    ensures queued == |Orphans(names, walked, reached, inspect, claimFails)|
  {
    ghost var claimed := Orphans(names, walked, handled, inspect, claimFails);
    assert tables.Names() == names + claimed;
    var later := (i: nat) => cancelled(handled + i);
    var n, m := ProcessOrphanFolderBatch(tables, batch, inspect, claimFails, later);
    ghost var more := Orphans(names + claimed, batch, m, inspect, claimFails);
    BatchesAddUp(names, walked, handled, m, inspect, claimFails);
    OnlyTheFirst(names + claimed, walked[handled..], batch, m, inspect, claimFails);
    assert before + claimed + more == before + (claimed + more);
    queued, reached := soFar + n, handled + m;
    forall i: nat | handled <= i < reached
      ensures !cancelled(i)
    {
      assert !later(i - handled);
    }
  }

  /** The walk over all folders, a batch at a time. `batchFails` says which
      batches cannot be looked up and `cancelled` before which folders the job
      finds itself cancelled; either ends the walk. */
  method RunOrphanedStorage(tables: Tables, walked: seq<string>, inspect: string -> Summary, claimFails: string -> bool,
                            batchFails: nat -> bool, cancelled: nat -> bool)
    returns (queued: nat, finished: bool, handled: nat)
    modifies tables`deletions
    ensures handled <= |walked| && (finished ==> handled == |walked|)
    ensures var orphans := Orphans(old(tables.Names()), walked, handled, inspect, claimFails);
            tables.deletions == old(tables.deletions) + orphans && queued == |orphans|
    ensures forall i :: 0 <= i < handled ==> !cancelled(i)
    ensures !finished ==> cancelled(handled) || exists k :: batchFails(k)
  {
    ghost var names := tables.Names();
    var batch: seq<string> := [];
    var batches := 0;
    queued, finished, handled := 0, false, 0;
    for i := 0 to |walked|
      invariant handled <= i && batch == walked[handled..i] && |batch| < FOLDER_BATCH_SIZE
      invariant forall j :: 0 <= j < handled ==> !cancelled(j)
      invariant tables.deletions == old(tables.deletions) + Orphans(names, walked, handled, inspect, claimFails)
      invariant queued == |Orphans(names, walked, handled, inspect, claimFails)|
    {
      batch := batch + [walked[i]];
      if |batch| == FOLDER_BATCH_SIZE {
        if batchFails(batches) {
          return;
        }
        queued, handled := Flush(tables, walked, handled, batch, queued, inspect, claimFails, cancelled, names, old(tables.deletions));
        if handled < i + 1 {
          return;
        }
        batch, batches := [], batches + 1;
      }
    }
    if |batch| > 0 {
      if batchFails(batches) {
        return;
      }
      queued, handled := Flush(tables, walked, handled, batch, queued, inspect, claimFails, cancelled, names, old(tables.deletions));
    }
    finished := handled == |walked|;
  }
}
