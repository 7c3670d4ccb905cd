/** Deleting every object below a key prefix, page by page
    (internal/storage/s3.go, deleteByPrefixWithPageLimit). */
module PrefixDeletion {
  import opened CycleDetection
  import opened Int64
  import opened Options
  import opened PageFingerprint
  import opened Sequences

  const DELETE_BATCH_SIZE := 1000
  const NO_PROGRESS_LIMIT := 3

  datatype ListReply = RequestFailed | EmptyResponse | Listed(keys: seq<string>, truncated: bool)

  datatype DeleteReply = Deleted | DeleteFailed | NoResponse | ObjectErrors

  datatype DeletionOutcome =
    | Finished
    | InvalidPageLimit
    | ListError
    | NoListing
    | KeyOutsidePrefix
    | TruncatedWithoutObjects
    | NoProgress
    | PageCycle
    | DeleteError
    | WorkLimitReached

  // Pages listed by one call before it gives up and leaves the rest to a retry.
  const MAX_PAGES_PER_CALL := 1000

  function KeysOf(reply: ListReply): seq<string> {
    if reply.Listed? then reply.keys else []
  }

  ghost function Matching(keys: set<string>, prefix: string): set<string> {
    set k | k in keys && prefix <= k
  }

  /** What a well-behaved server answers: some of the matching keys, each once
      and at most a page of them, at least one while any is left, and truncation
      exactly when some are left over. A page may be short. */
  ghost predicate HonestPage(keys: set<string>, prefix: string, reply: ListReply) {
    && reply.Listed?
    && Distinct(reply.keys) && |reply.keys| <= DELETE_BATCH_SIZE
    && Elements(reply.keys) <= Matching(keys, prefix)
    && (Matching(keys, prefix) != {} ==> reply.keys != [])
    && (reply.truncated <==> Elements(reply.keys) != Matching(keys, prefix))
  }

  /** As many keys as there are or as fit on a page. */
  ghost predicate FullPage(keys: set<string>, prefix: string, reply: ListReply) {
    |KeysOf(reply)| == Min(DELETE_BATCH_SIZE, |Matching(keys, prefix)|)
  }

  lemma ElementsSnoc(page: seq<string>, k: string)
    ensures Elements(page + [k]) == Elements(page) + {k}
  {
  }

  /** Some of the keys, each once, as many as there are or as are wanted. */
  method Draw(keys: set<string>, size: nat) returns (page: seq<string>, rest: set<string>)
    ensures Distinct(page) && Elements(page) !! rest && Elements(page) + rest == keys
    ensures |page| == Min(size, |keys|)
  {
    page, rest := [], keys;
    while |page| < size && rest != {}
      invariant Distinct(page) && |page| <= size
      invariant Elements(page) !! rest
      invariant Elements(page) + rest == keys
      invariant |page| + |rest| == |keys|
      decreases rest
    {
      var k :| k in rest;
      ElementsSnoc(page, k);
      assert Elements(page) + rest == Elements(page) + {k} + (rest - {k});
      page, rest := page + [k], rest - {k};
    }
  }

  /** A bucket. When it is not `honest` it may answer anything at all and keep
      or lose whatever it likes; one that is `full` also fills its pages.
      `requested` is every key it was told to delete, `replies` what it answered. */
  class Bucket {
    var keys: set<string>
    const honest: bool
    const full: bool
    ghost var requested: set<string>
    ghost var replies: seq<DeleteReply>

    constructor (keys: set<string>, honest: bool, full: bool)
      ensures this.keys == keys && this.honest == honest && this.full == full && requested == {} && replies == []
    {
      this.keys, this.honest, this.full, requested, replies := keys, honest, full, {}, [];
    }

    method List(prefix: string) returns (reply: ListReply)
      ensures honest ==> HonestPage(keys, prefix, reply)
      ensures honest && full ==> FullPage(keys, prefix, reply)
    {
      if !honest {
        reply := *;
        return;
      }
      var size := DELETE_BATCH_SIZE;
      if !full {
        size := *;
        size := Max(1, Min(size, DELETE_BATCH_SIZE));
      }
      var page, rest := Draw((set k | k in keys && prefix <= k), size);
      assert Elements(page) + rest == Matching(keys, prefix);
      return Listed(page, rest != {});
    }

    method Delete(objects: seq<string>) returns (reply: DeleteReply)
      modifies this
      ensures requested == old(requested) + Elements(objects) && replies == old(replies) + [reply]
      ensures honest ==> reply == Deleted && keys == old(keys) - Elements(objects)
    {
      requested := requested + Elements(objects);
      if honest {
        keys := keys - Elements(objects);
        reply := Deleted;
      } else {
        keys, reply := *, *;
      }
      replies := replies + [reply];
    }
  }

  /** Pages that were listed and deleted by an honest server hold keys that are
      gone, so none of their fingerprints can come back. */
  ghost predicate GonePages(digest: Digest, listed: seq<ListReply>, keys: set<string>, history: seq<seq<int>>) {
    && |listed| == |history|
    && forall i :: 0 <= i < |listed| ==>
         && listed[i].Listed? && listed[i].keys != [] && LengthsFit(listed[i].keys)
         && Elements(listed[i].keys) !! keys
         && history[i] == digest(listed[i].keys)
  }

  lemma FreshPage(digest: Digest, listed: seq<ListReply>, keys: set<string>, history: seq<seq<int>>, page: seq<string>)
    requires GonePages(digest, listed, keys, history) && Identifies(digest)
    requires page != [] && LengthsFit(page) && Elements(page) <= keys
    ensures digest(page) !in history
  {
    forall i | 0 <= i < |history|
      ensures history[i] != digest(page)
    {
      assert page[0] in Elements(page);
      DifferentDigests(digest, page, listed[i].keys, page[0]);
    }
  }

  lemma DifferentDigests(digest: Digest, a: seq<string>, b: seq<string>, key: string)
    requires Identifies(digest) && LengthsFit(a) && LengthsFit(b)
    requires key in a && key !in b
    ensures digest(a) != digest(b)
  {
    assert key in multiset(a) && key !in multiset(b);
  }

  /** Stored keys are non-empty and have a length Go can express. */
  ghost predicate KeysFit(keys: set<string>) {
    forall k :: k in keys ==> 0 < |k| < TWO_TO_THE_64
  }

  /** Pages a listing of `n` keys takes when they are full. */
  function PagesFor(n: nat): nat {
    (n + DELETE_BATCH_SIZE - 1) / DELETE_BATCH_SIZE
  }

  function KeyCount(listed: seq<ListReply>): nat {
    if listed == [] then 0 else KeyCount(listed[..|listed| - 1]) + |KeysOf(listed[|listed| - 1])|
  }

  function NonEmptyPages(listed: seq<ListReply>): nat {
    if listed == [] then 0
    else NonEmptyPages(listed[..|listed| - 1]) + if KeysOf(listed[|listed| - 1]) == [] then 0 else 1
  }

  lemma CountOneMore(listed: seq<ListReply>, reply: ListReply)
    ensures KeyCount(listed + [reply]) == KeyCount(listed) + |KeysOf(reply)|
    ensures NonEmptyPages(listed + [reply]) == NonEmptyPages(listed) + if KeysOf(reply) == [] then 0 else 1
  {
    assert (listed + [reply])[..|listed|] == listed;
  }

  ghost predicate SamePage(digest: Digest, a: ListReply, b: ListReply) {
    a.Listed? && b.Listed? && digest(a.keys) == digest(b.keys)
  }

  datatype Verdict = GoOn | Stuck | Cycling

  /** The fingerprints without immediate repetitions. */
  ghost function Changes(prints: seq<seq<int>>): seq<seq<int>> {
    if prints == [] then []
    else if |prints| > 1 && prints[|prints| - 1] == prints[|prints| - 2] then Changes(prints[..|prints| - 1])
    else Changes(prints[..|prints| - 1]) + [prints[|prints| - 1]]
  }

  /** How often the last fingerprint came back at once. */
  ghost function Repeats(prints: seq<seq<int>>): nat {
    if |prints| > 1 && prints[|prints| - 1] == prints[|prints| - 2] then 1 + Repeats(prints[..|prints| - 1]) else 0
  }

  lemma {:induction false} ChangesArePrints(prints: seq<seq<int>>)
    ensures forall f <- Changes(prints) :: f in prints
    decreases |prints|
  {
    if prints != [] {
      ChangesArePrints(prints[..|prints| - 1]);
    }
  }

  lemma OnePrintMore(earlier: seq<seq<int>>, f: seq<int>)
    ensures var again, prints := earlier != [] && earlier[|earlier| - 1] == f, earlier + [f];
            && Changes(prints) == (if again then Changes(earlier) else Changes(earlier) + [f])
            && Repeats(prints) == if again then 1 + Repeats(earlier) else 0
  {
    assert (earlier + [f])[..|earlier|] == earlier;
  }

  lemma EarlierPrint(prints: seq<seq<int>>, f: seq<int>) returns (i: nat)
    requires f in Changes(prints)
    ensures i < |prints| && prints[i] == f
  {
    ChangesArePrints(prints);
    assert f in prints;
    i :| 0 <= i < |prints| && prints[i] == f;
  }

  /** The deletion loop's memory of the pages it has seen: the previous
      fingerprint, how often it came back at once, and the cycle detector.
      `prints` is the fingerprint of every page so far. */
  class PageProgress {
    var previousFingerprint: seq<int>
    var hasPreviousFingerprint: bool
    const pageCycles: CycleDetector<seq<int>>
    var noProgressCount: nat
    ghost var prints: seq<seq<int>>

    ghost predicate Valid()
      reads this, pageCycles
    {
      && pageCycles.Valid()
      && pageCycles.history == Changes(prints)
      && noProgressCount < NO_PROGRESS_LIMIT
      && (hasPreviousFingerprint <==> prints != [])
      && (hasPreviousFingerprint ==>
            previousFingerprint == prints[|prints| - 1] && noProgressCount == Repeats(prints))
    }

    constructor ()
      ensures Valid() && prints == [] && fresh(pageCycles)
    {
      previousFingerprint, hasPreviousFingerprint, noProgressCount, prints := [], false, 0, [];
      pageCycles := new CycleDetector<seq<int>>();
    }

    method Check(fingerprint: seq<int>) returns (verdict: Verdict)
      requires Valid()
      modifies this, pageCycles
      ensures prints == old(prints) + [fingerprint]
      ensures verdict == GoOn ==> Valid()
      ensures verdict == Stuck <==> Repeats(prints) == NO_PROGRESS_LIMIT
      ensures verdict == Cycling <==>
        Changes(prints) != Changes(old(prints)) && Reports(Changes(prints), |Changes(prints)| - 1)
      ensures verdict == Cycling ==> exists i :: 0 <= i < |prints| - 1 && prints[i] == fingerprint
      ensures fingerprint !in old(prints) ==> verdict == GoOn
    {
      ghost var earlier := prints;
      prints := prints + [fingerprint];
      OnePrintMore(earlier, fingerprint);
      if hasPreviousFingerprint && fingerprint == previousFingerprint {
        noProgressCount := noProgressCount + 1;
        if noProgressCount == NO_PROGRESS_LIMIT {
          return Stuck;
        }
      } else {
        ghost var before := pageCycles.history;
        var cycle := pageCycles.Observe(fingerprint);
        if cycle {
          ReportsAreSound(pageCycles.history, |before|);
          ghost var i := EarlierPrint(earlier, fingerprint);
          assert prints[i] == fingerprint;
          return Cycling;
        }
        previousFingerprint := fingerprint;
        hasPreviousFingerprint := true;
        noProgressCount := 0;
      }
      return GoOn;
    }
  }

  /** The last `count` elements are all `f`. */
  ghost predicate EndsWith(prints: seq<seq<int>>, f: seq<int>, count: nat) {
    count <= |prints| && forall i :: |prints| - count <= i < |prints| ==> prints[i] == f
  }

  lemma {:induction false} RepeatsMean(prints: seq<seq<int>>)
    requires prints != []
    ensures EndsWith(prints, prints[|prints| - 1], Repeats(prints) + 1)
    ensures !EndsWith(prints, prints[|prints| - 1], Repeats(prints) + 2)
    decreases |prints|
  {
    if |prints| > 1 {
      var earlier := prints[..|prints| - 1];
      if prints[|prints| - 1] == prints[|prints| - 2] {
        RepeatsMean(earlier);
      } else {
        assert prints[|prints| - 2] != prints[|prints| - 1];
      }
    }
  }

  /** The fingerprints of the pages listed so far, none of them empty. */
  ghost predicate Prints(digest: Digest, listed: seq<ListReply>, prints: seq<seq<int>>) {
    && |listed| == |prints|
    && (listed == [] ||
        var last := listed[|listed| - 1];
        Prints(digest, listed[..|listed| - 1], prints[..|prints| - 1])
        && last.Listed? && prints[|prints| - 1] == digest(last.keys))
  }

  lemma OneMorePrint(digest: Digest, listed: seq<ListReply>, prints: seq<seq<int>>, reply: ListReply)
    requires Prints(digest, listed, prints) && reply.Listed?
    ensures Prints(digest, listed + [reply], prints + [digest(reply.keys)])
  {
    assert (listed + [reply])[..|listed|] == listed && (prints + [digest(reply.keys)])[..|prints|] == prints;
  }

  lemma {:induction false} PrintAt(digest: Digest, listed: seq<ListReply>, prints: seq<seq<int>>, i: nat)
    requires Prints(digest, listed, prints) && i < |listed|
    ensures listed[i].Listed? && prints[i] == digest(listed[i].keys)
    decreases |listed|
  {
    if i < |listed| - 1 {
      PrintAt(digest, listed[..|listed| - 1], prints[..|prints| - 1], i);
    }
  }

  lemma StuckPages(digest: Digest, listed: seq<ListReply>, prints: seq<seq<int>>)
    requires Prints(digest, listed, prints) && prints != [] && Repeats(prints) == NO_PROGRESS_LIMIT
    ensures |listed| > NO_PROGRESS_LIMIT
    ensures forall i :: |listed| - 1 - NO_PROGRESS_LIMIT <= i < |listed| ==> SamePage(digest, listed[i], listed[|listed| - 1])
  {
    RepeatsMean(prints);
    forall i | |listed| - 1 - NO_PROGRESS_LIMIT <= i < |listed|
      ensures SamePage(digest, listed[i], listed[|listed| - 1])
    {
      PrintAt(digest, listed, prints, i);
      PrintAt(digest, listed, prints, |listed| - 1);
    }
  }

  /** An honest server after the pages listed so far: they were not empty and
      are gone, and nothing else was touched. */
  ghost predicate Progressing(
    digest: Digest, original: set<string>, keys: set<string>, prefix: string,
    listed: seq<ListReply>, history: seq<seq<int>>)
  {
    && Identifies(digest) && KeysFit(original) && keys <= original
    && original - Matching(original, prefix) <= keys
    && |Matching(keys, prefix)| + KeyCount(listed) == |Matching(original, prefix)|
    && NonEmptyPages(listed) == |listed| <= KeyCount(listed)
    && GonePages(digest, listed, keys, history)
  }

  /** All pages were full: each held what was left, or a batch of it. */
  ghost predicate AllFull(n: nat, listed: seq<ListReply>) {
    listed == [] ||
    var earlier := listed[..|listed| - 1];
    AllFull(n, earlier) && |KeysOf(listed[|listed| - 1])| == Min(DELETE_BATCH_SIZE, n - KeyCount(earlier))
  }

  lemma PageRemoved(keys: set<string>, prefix: string, page: seq<string>)
    requires Distinct(page) && Elements(page) <= Matching(keys, prefix)
    ensures |Matching(keys - Elements(page), prefix)| == |Matching(keys, prefix)| - |page|
  {
    DistinctCardinality(page);
    assert Matching(keys, prefix) == Matching(keys - Elements(page), prefix) + Elements(page);
  }

  lemma HonestPageIsValid(keys: set<string>, prefix: string, page: seq<string>, truncated: bool)
    requires KeysFit(keys) && HonestPage(keys, prefix, Listed(page, truncated))
    ensures ValidKeys(page, prefix)
    ensures page == [] ==> !truncated && Matching(keys, prefix) == {}
  {
    forall i | 0 <= i < |page|
      ensures page[i] != "" && prefix <= page[i]
    {
      assert page[i] in Elements(page);
    }
  }

  lemma HonestStep(
    digest: Digest, original: set<string>, keys: set<string>, prefix: string,
    listed: seq<ListReply>, history: seq<seq<int>>, reply: ListReply)
    requires Progressing(digest, original, keys, prefix, listed, history)
    requires HonestPage(keys, prefix, reply) && reply.keys != []
    ensures digest(reply.keys) !in history
    ensures Progressing(digest, original, keys - Elements(reply.keys), prefix,
                        listed + [reply], history + [digest(reply.keys)])
  {
    var page := reply.keys;
    forall i | 0 <= i < |page|
      ensures |page[i]| < TWO_TO_THE_64
    {
      assert page[i] in Elements(page);
    }
    FreshPage(digest, listed, keys, history, page);
    PageRemoved(keys, prefix, page);
    CountOneMore(listed, reply);
  }

  /** The pages so far were answered by an honest server: each holds some of the
      keys that the ones before it have left, and was then removed. */
  ghost predicate Answered(
    digest: Digest, original: set<string>, keys: set<string>, prefix: string,
    listed: seq<ListReply>, history: seq<seq<int>>)
    decreases |listed|
  {
    if listed == [] || history == [] then listed == [] && history == [] && keys == original
    else
      var shorter, earlier := listed[..|listed| - 1], history[..|history| - 1];
      var reply, fingerprint := listed[|listed| - 1], history[|history| - 1];
      exists before: set<string> ::
        && Answered(digest, original, before, prefix, shorter, earlier)
        && AnswersNext(digest, before, keys, prefix, reply, fingerprint)
  }

  ghost predicate AnswersNext(
    digest: Digest, before: set<string>, after: set<string>, prefix: string, reply: ListReply, fingerprint: seq<int>)
  {
    HonestPage(before, prefix, reply) && reply.keys != [] && after == before - Elements(reply.keys) && fingerprint == digest(reply.keys)
  }

  lemma OneMoreAnswered(
    digest: Digest, original: set<string>, keys: set<string>, prefix: string,
    listed: seq<ListReply>, history: seq<seq<int>>, reply: ListReply)
    requires Answered(digest, original, keys, prefix, listed, history)
    requires HonestPage(keys, prefix, reply) && reply.keys != []
    ensures Answered(digest, original, keys - Elements(reply.keys), prefix, listed + [reply], history + [digest(reply.keys)])
  {
    var pages, prints, after := listed + [reply], history + [digest(reply.keys)], keys - Elements(reply.keys);
    assert pages[..|pages| - 1] == listed && prints[..|prints| - 1] == history;
    assert Answered(digest, original, keys, prefix, pages[..|pages| - 1], prints[..|prints| - 1]);
    assert AnswersNext(digest, keys, after, prefix, pages[|pages| - 1], prints[|prints| - 1]);
  }

  lemma LastIsSnoc<T>(s: seq<T>)
    requires s != []
    ensures s == s[..|s| - 1] + [s[|s| - 1]]
  {
  }

  lemma {:induction false} AnsweredProgresses(
    digest: Digest, original: set<string>, keys: set<string>, prefix: string,
    listed: seq<ListReply>, history: seq<seq<int>>)
    requires Identifies(digest) && KeysFit(original) && Answered(digest, original, keys, prefix, listed, history)
    ensures Progressing(digest, original, keys, prefix, listed, history)
    decreases |listed|
  {
    if listed != [] && history != [] {
      var shorter, earlier := listed[..|listed| - 1], history[..|history| - 1];
      var reply, fingerprint := listed[|listed| - 1], history[|history| - 1];
      var before: set<string> :|
        && Answered(digest, original, before, prefix, shorter, earlier)
        && AnswersNext(digest, before, keys, prefix, reply, fingerprint);
      AnsweredProgresses(digest, original, before, prefix, shorter, earlier);
      LastIsSnoc(listed);
      LastIsSnoc(history);
      NextProgresses(digest, original, before, keys, prefix, shorter, earlier, reply, listed, history);
    }
  }

  lemma NextProgresses(
    digest: Digest, original: set<string>, before: set<string>, keys: set<string>, prefix: string,
    shorter: seq<ListReply>, earlier: seq<seq<int>>, reply: ListReply, listed: seq<ListReply>, history: seq<seq<int>>)
    requires Progressing(digest, original, before, prefix, shorter, earlier)
    requires HonestPage(before, prefix, reply) && reply.keys != [] && keys == before - Elements(reply.keys)
    requires listed == shorter + [reply] && history == earlier + [digest(reply.keys)]
    ensures Progressing(digest, original, keys, prefix, listed, history)
  {
    HonestStep(digest, original, before, prefix, shorter, earlier, reply);
  }

  lemma AnsweredFits(
    digest: Digest, original: set<string>, keys: set<string>, prefix: string,
    listed: seq<ListReply>, history: seq<seq<int>>)
    requires Identifies(digest) && KeysFit(original) && Answered(digest, original, keys, prefix, listed, history)
    ensures KeysFit(keys)
  {
    AnsweredProgresses(digest, original, keys, prefix, listed, history);
  }

  ghost predicate ValidKeys(keys: seq<string>, prefix: string) {
    forall i :: 0 <= i < |keys| ==> keys[i] != "" && prefix <= keys[i]
  }

  method CheckKeys(keys: seq<string>, prefix: string) returns (valid: bool)
    ensures valid <==> ValidKeys(keys, prefix)
  {
    for k := 0 to |keys|
      invariant ValidKeys(keys[..k], prefix)
    {
      if keys[k] == "" || !(prefix <= keys[k]) {
        return false;
      }
    }
    assert keys[..|keys|] == keys;
    return true;
  }

  /** On an honest server neither check fires: the call finishes exactly when its
      limit exceeds the number of pages that were not empty, which is at most
      the number of keys with the prefix. It has removed the keys it listed and
      no others, and all with the prefix if it finished. */
  ghost predicate HonestVerdict(
    original: set<string>, keys: set<string>, prefix: string, maxPages: int, outcome: DeletionOutcome, listed: seq<ListReply>)
  {
    && outcome in {Finished, WorkLimitReached}
    && (outcome == Finished <==> maxPages > NonEmptyPages(listed))
    && NonEmptyPages(listed) <= |Matching(original, prefix)|
    && keys <= original
    && original - Matching(original, prefix) <= keys
    && |Matching(keys, prefix)| + KeyCount(listed) == |Matching(original, prefix)|
    && (outcome == Finished ==> keys == original - Matching(original, prefix))
  }

  lemma HonestEnd(
    digest: Digest, original: set<string>, keys: set<string>, prefix: string, maxPages: int,
    listed: seq<ListReply>, prints: seq<seq<int>>, last: seq<ListReply>)
    requires Progressing(digest, original, keys, prefix, listed, prints)
    requires |listed| <= maxPages
    requires |listed| < maxPages ==> Matching(keys, prefix) == {} && last == [Listed([], false)]
    requires |listed| == maxPages ==> last == []
    ensures HonestVerdict(original, keys, prefix, maxPages, if |listed| < maxPages then Finished else WorkLimitReached, listed + last)
  {
    if |listed| < maxPages {
      CountOneMore(listed, Listed([], false));
      assert forall k :: k in keys && prefix <= k ==> k in Matching(keys, prefix);
    } else {
      assert listed + last == listed;
    }
  }

  lemma PagesForIs(n: nat, pages: nat)
    requires n <= pages * DELETE_BATCH_SIZE
    requires pages > 0 ==> (pages - 1) * DELETE_BATCH_SIZE < n
    ensures PagesFor(n) == pages
  {
  }

  lemma PagesForMore(n: nat, pages: nat)
    requires pages * DELETE_BATCH_SIZE < n
    ensures PagesFor(n) > pages
  {
  }

  lemma {:induction false} FullPagesCount(n: nat, listed: seq<ListReply>)
    requires AllFull(n, listed)
    ensures KeyCount(listed) == Min(n, |listed| * DELETE_BATCH_SIZE)
    decreases |listed|
  {
    if listed != [] {
      FullPagesCount(n, listed[..|listed| - 1]);
    }
  }

  /** A full page that is not empty means that the pages before it, all of
      them full, left keys over; an empty one means that they did not. */
  lemma LastFullPage(n: nat, listed: seq<ListReply>)
    requires AllFull(n, listed) && listed != []
    ensures KeysOf(listed[|listed| - 1]) == [] <==> n <= (|listed| - 1) * DELETE_BATCH_SIZE
  {
    FullPagesCount(n, listed[..|listed| - 1]);
  }

  /** With full pages the limit is decided by the number of keys alone. */
  lemma FullPagesVerdict(n: nat, maxPages: int, listed: seq<ListReply>)
    requires AllFull(n, listed) && listed != [] && |listed| <= maxPages
    requires |listed| < maxPages ==> KeysOf(listed[|listed| - 1]) == []
    requires NonEmptyPages(listed[..|listed| - 1]) == |listed| - 1
    ensures maxPages > NonEmptyPages(listed) <==> maxPages > PagesFor(n)
  {
    LastFullPage(n, listed);
    if KeysOf(listed[|listed| - 1]) == [] {
      var shorter := listed[..|listed| - 1];
      if shorter != [] {
        LastFullPage(n, shorter);
        LastIsNotEmpty(shorter);
      }
      PagesForIs(n, |listed| - 1);
    } else {
      PagesForMore(n, |listed| - 1);
    }
  }

  lemma {:induction false} AtMostAll(listed: seq<ListReply>)
    ensures NonEmptyPages(listed) <= |listed|
    decreases |listed|
  {
    if listed != [] {
      AtMostAll(listed[..|listed| - 1]);
    }
  }

  lemma LastIsNotEmpty(listed: seq<ListReply>)
    requires listed != [] && NonEmptyPages(listed) == |listed|
    ensures KeysOf(listed[|listed| - 1]) != [] && NonEmptyPages(listed[..|listed| - 1]) == |listed| - 1
  {
    AtMostAll(listed[..|listed| - 1]);
  }

  /** What the outcome says about the pages listed, whatever the server does. */
  ghost predicate Justified(digest: Digest, prefix: string, outcome: DeletionOutcome, listed: seq<ListReply>) {
    match outcome
    case Finished => listed != [] && listed[|listed| - 1] == Listed([], false)
    case PageCycle => exists i :: 0 <= i < |listed| - 1 && SamePage(digest, listed[i], listed[|listed| - 1])
    case NoProgress =>
      && |listed| > NO_PROGRESS_LIMIT
      && forall i :: |listed| - 1 - NO_PROGRESS_LIMIT <= i < |listed| ==> SamePage(digest, listed[i], listed[|listed| - 1])
    case ListError => listed != [] && listed[|listed| - 1].RequestFailed?
    case NoListing => listed != [] && listed[|listed| - 1].EmptyResponse?
    case TruncatedWithoutObjects => listed != [] && listed[|listed| - 1] == Listed([], true)
    case DeleteError => listed != [] && KeysOf(listed[|listed| - 1]) != []
    case InvalidPageLimit => listed == []
    case WorkLimitReached => listed != []
    case KeyOutsidePrefix =>
      listed != [] && listed[|listed| - 1].Listed? && !ValidKeys(listed[|listed| - 1].keys, prefix)
  }

  /** What one round tells the server: to delete the page, whole and once, unless
      a check has ended the call before. */
  ghost predicate Told(
    outcome: Option<DeletionOutcome>, page: ListReply, requested: set<string>, nowRequested: set<string>,
    replies: seq<DeleteReply>, nowReplies: seq<DeleteReply>)
  {
    if outcome.None? || outcome.value == DeleteError then
      && nowRequested == requested + Elements(KeysOf(page))
      && |nowReplies| == |replies| + 1 && nowReplies[..|replies|] == replies
      && (nowReplies[|replies|] == Deleted <==> outcome.None?)
    else nowRequested == requested && nowReplies == replies
  }

  ghost function AllKeys(listed: seq<ListReply>): set<string> {
    if listed == [] then {} else AllKeys(listed[..|listed| - 1]) + Elements(KeysOf(listed[|listed| - 1]))
  }

  /** What a call has told the server: to delete every page listed, but not the
      one that ended the call, and all was answered with success, but for the
      answer that ended it. */
  ghost predicate ToldAll(
    outcome: DeletionOutcome, listed: seq<ListReply>, requested: set<string>, nowRequested: set<string>,
    replies: seq<DeleteReply>, nowReplies: seq<DeleteReply>)
  {
    if listed == [] then nowRequested == requested && nowReplies == replies
    else
      var pages := if outcome in {WorkLimitReached, DeleteError} then |listed| else |listed| - 1;
      && nowRequested == requested + AllKeys(listed[..pages])
      && |nowReplies| == |replies| + pages && nowReplies[..|replies|] == replies
      && (forall i :: |replies| <= i < |nowReplies| - 1 ==> nowReplies[i] == Deleted)
      && (pages > 0 ==> (nowReplies[|nowReplies| - 1] == Deleted <==> outcome != DeleteError))
  }

  lemma ToldOneMore(
    outcome: Option<DeletionOutcome>, listed: seq<ListReply>, page: ListReply,
    requested: set<string>, nowRequested: set<string>, afterRequested: set<string>,
    replies: seq<DeleteReply>, nowReplies: seq<DeleteReply>, afterReplies: seq<DeleteReply>)
    requires ToldAll(WorkLimitReached, listed, requested, nowRequested, replies, nowReplies)
    requires Told(outcome, page, nowRequested, afterRequested, nowReplies, afterReplies) && outcome != Some(WorkLimitReached)
    ensures ToldAll(if outcome.Some? then outcome.value else WorkLimitReached, listed + [page],
                    requested, afterRequested, replies, afterReplies)
  {
    var more := listed + [page];
    assert more[..|listed|] == listed && more[..|more|] == more;
    assert listed[..|listed|] == listed;
    assert afterReplies[..|replies|] == nowReplies[..|replies|];
    forall i | |replies| <= i < |nowReplies|
      ensures afterReplies[i] == Deleted
    {
      assert afterReplies[i] == nowReplies[i];
    }
  }

  /** List the first page. None means it holds keys to delete. */
  method ListPage(bucket: Bucket, prefix: string) returns (reply: ListReply, outcome: Option<DeletionOutcome>)
    requires bucket.honest ==> KeysFit(bucket.keys)
    ensures outcome.None? ==> reply.Listed? && reply.keys != [] && ValidKeys(reply.keys, prefix)
    ensures outcome.Some? ==>
      outcome.value in {ListError, NoListing, KeyOutsidePrefix, TruncatedWithoutObjects, Finished}
    ensures outcome.Some? ==> forall digest, listed :: Justified(digest, prefix, outcome.value, listed + [reply])
    ensures bucket.honest && outcome.None? ==> HonestPage(bucket.keys, prefix, reply)
    ensures bucket.honest && bucket.full ==> FullPage(bucket.keys, prefix, reply)
    ensures bucket.honest && outcome.Some? ==>
      outcome.value == Finished && reply == Listed([], false) && Matching(bucket.keys, prefix) == {}
  {
    reply := bucket.List(prefix);
    if reply.RequestFailed? {
      return reply, Some(ListError);
    }
    if reply.EmptyResponse? {
      return reply, Some(NoListing);
    }
    if bucket.honest {
      HonestPageIsValid(bucket.keys, prefix, reply.keys, reply.truncated);
    }
    var valid := CheckKeys(reply.keys, prefix);
    if !valid {
      return reply, Some(KeyOutsidePrefix);
    }
    if |reply.keys| == 0 {
      return reply, Some(if reply.truncated then TruncatedWithoutObjects else Finished);
    }
    return reply, None;
  }

  lemma FullOneMore(
    digest: Digest, original: set<string>, keys: set<string>, prefix: string,
    listed: seq<ListReply>, history: seq<seq<int>>, reply: ListReply)
    requires AllFull(|Matching(original, prefix)|, listed) && FullPage(keys, prefix, reply)
    requires Identifies(digest) && KeysFit(original) && Answered(digest, original, keys, prefix, listed, history)
    ensures AllFull(|Matching(original, prefix)|, listed + [reply])
  {
    AnsweredProgresses(digest, original, keys, prefix, listed, history);
    assert (listed + [reply])[..|listed|] == listed;
  }

  /** Has the page been seen too often, or in a cycle? */
  method CheckPage(progress: PageProgress, digest: Digest, prefix: string, page: ListReply, ghost listed: seq<ListReply>)
    returns (outcome: Option<DeletionOutcome>)
    requires page.Listed? && progress.Valid() && Prints(digest, listed, progress.prints)
    modifies progress, progress.pageCycles
    ensures progress.prints == old(progress.prints) + [digest(page.keys)]
    ensures outcome.None? ==> progress.Valid() && Prints(digest, listed + [page], progress.prints)
    ensures outcome.Some? ==>
      outcome.value in {NoProgress, PageCycle} && Justified(digest, prefix, outcome.value, listed + [page])
    ensures digest(page.keys) !in old(progress.prints) ==> outcome.None?
  {
    OneMorePrint(digest, listed, progress.prints, page);
    var verdict := progress.Check(digest(page.keys));
    if verdict == Stuck {
      StuckPages(digest, listed + [page], progress.prints);
      return Some(NoProgress);
    }
    if verdict == Cycling {
      ghost var i :| 0 <= i < |progress.prints| - 1 && progress.prints[i] == digest(page.keys);
      PrintAt(digest, listed + [page], progress.prints, i);
      assert SamePage(digest, (listed + [page])[i], page);
      return Some(PageCycle);
    }
    return None;
  }

  /** Check a page for progress and delete it. None means that it is gone; an
      honest server gives no other answer. */
  method RemovePage(
    bucket: Bucket, progress: PageProgress, digest: Digest, prefix: string, page: ListReply,
    ghost listed: seq<ListReply>, ghost original: set<string>)
    returns (outcome: Option<DeletionOutcome>)
    requires page.Listed? && page.keys != [] && ValidKeys(page.keys, prefix)
    requires progress.Valid() && Prints(digest, listed, progress.prints)
    requires bucket.honest ==>
      && Identifies(digest) && KeysFit(original) && HonestPage(bucket.keys, prefix, page)
      && Answered(digest, original, bucket.keys, prefix, listed, progress.prints)
    modifies bucket, progress, progress.pageCycles
    ensures outcome.None? ==> progress.Valid() && Prints(digest, listed + [page], progress.prints)
    ensures outcome.Some? ==>
      outcome.value in {NoProgress, PageCycle, DeleteError} && Justified(digest, prefix, outcome.value, listed + [page])
    ensures Told(outcome, page, old(bucket.requested), bucket.requested, old(bucket.replies), bucket.replies)
    ensures bucket.honest ==>
      outcome.None? && Answered(digest, original, bucket.keys, prefix, listed + [page], progress.prints)
    ensures forall k :: k in bucket.requested ==> k in old(bucket.requested) || prefix <= k
  {
    var objectKeys := page.keys;
    if bucket.honest {
      AnsweredProgresses(digest, original, bucket.keys, prefix, listed, progress.prints);
      HonestStep(digest, original, bucket.keys, prefix, listed, progress.prints, page);
      OneMoreAnswered(digest, original, bucket.keys, prefix, listed, progress.prints, page);
    }
    outcome := CheckPage(progress, digest, prefix, page, listed);
    if outcome.Some? {
      return;
    }
    var deleted := bucket.Delete(objectKeys);
    assert forall k :: k in Elements(objectKeys) ==> prefix <= k;
    return if deleted == Deleted then None else Some(DeleteError);
  }

  lemma VerdictByCount(
    original: set<string>, keys: set<string>, prefix: string, maxPages: int, outcome: DeletionOutcome, listed: seq<ListReply>)
    requires HonestVerdict(original, keys, prefix, maxPages, outcome, listed)
    requires AllFull(|Matching(original, prefix)|, listed) && listed != [] && |listed| <= maxPages
    requires NonEmptyPages(listed[..|listed| - 1]) == |listed| - 1
    requires outcome == WorkLimitReached ==> |listed| == maxPages
    requires outcome == Finished ==> KeysOf(listed[|listed| - 1]) == []
    ensures outcome == Finished <==> maxPages > PagesFor(|Matching(original, prefix)|)
  {
    FullPagesVerdict(|Matching(original, prefix)|, maxPages, listed);
  }

  lemma EndAtEmptyPage(
    digest: Digest, original: set<string>, keys: set<string>, prefix: string, maxPages: int,
    listed: seq<ListReply>, prints: seq<seq<int>>, full: bool)
    requires Identifies(digest) && KeysFit(original) && Answered(digest, original, keys, prefix, listed, prints)
    requires |listed| < maxPages && Matching(keys, prefix) == {}
    requires full ==> AllFull(|Matching(original, prefix)|, listed + [Listed([], false)])
    ensures HonestVerdict(original, keys, prefix, maxPages, Finished, listed + [Listed([], false)])
    ensures full ==> maxPages > PagesFor(|Matching(original, prefix)|)
  {
    AnsweredProgresses(digest, original, keys, prefix, listed, prints);
    HonestEnd(digest, original, keys, prefix, maxPages, listed, prints, [Listed([], false)]);
    if full {
      assert (listed + [Listed([], false)])[..|listed|] == listed;
      VerdictByCount(original, keys, prefix, maxPages, Finished, listed + [Listed([], false)]);
    }
  }

  lemma EndAtLimit(
    digest: Digest, original: set<string>, keys: set<string>, prefix: string, maxPages: int,
    listed: seq<ListReply>, prints: seq<seq<int>>, full: bool)
    requires Identifies(digest) && KeysFit(original) && Answered(digest, original, keys, prefix, listed, prints)
    requires |listed| == maxPages >= 1
    requires full ==> AllFull(|Matching(original, prefix)|, listed)
    ensures HonestVerdict(original, keys, prefix, maxPages, WorkLimitReached, listed)
    ensures full ==> maxPages <= PagesFor(|Matching(original, prefix)|)
  {
    AnsweredProgresses(digest, original, keys, prefix, listed, prints);
    HonestEnd(digest, original, keys, prefix, maxPages, listed, prints, []);
    assert listed + [] == listed;
    if full {
      LastIsNotEmpty(listed);
      VerdictByCount(original, keys, prefix, maxPages, WorkLimitReached, listed);
    }
  }

  /** One round of the loop: list a page, check it, delete it. None means that
      the page is gone and the next one is due. */
  method DeletePage(
    bucket: Bucket, progress: PageProgress, digest: Digest, prefix: string, ghost listed: seq<ListReply>,
    ghost original: set<string>, ghost maxPages: int, ghost requested: set<string>, ghost replies: seq<DeleteReply>)
    returns (outcome: Option<DeletionOutcome>, ghost reply: ListReply)
    requires progress.Valid() && Prints(digest, listed, progress.prints)
    requires |listed| < maxPages && NonEmptyPages(listed) == |listed|
    requires ToldAll(WorkLimitReached, listed, requested, bucket.requested, replies, bucket.replies)
    requires bucket.honest ==> Identifies(digest) && KeysFit(original)
    requires bucket.honest ==> Answered(digest, original, bucket.keys, prefix, listed, progress.prints)
    requires bucket.honest && bucket.full ==> AllFull(|Matching(original, prefix)|, listed)
    modifies bucket, progress, progress.pageCycles
    ensures outcome.None? ==> progress.Valid() && Prints(digest, listed + [reply], progress.prints)
    ensures outcome.None? ==> NonEmptyPages(listed + [reply]) == |listed| + 1
    ensures outcome.None? && bucket.honest ==>
      Answered(digest, original, bucket.keys, prefix, listed + [reply], progress.prints)
    ensures outcome.Some? ==> Justified(digest, prefix, outcome.value, listed + [reply]) && outcome.value != WorkLimitReached
    ensures outcome.Some? && bucket.honest ==>
      HonestVerdict(original, bucket.keys, prefix, maxPages, outcome.value, listed + [reply])
    ensures outcome.Some? && bucket.honest && bucket.full ==>
      (outcome.value == Finished <==> maxPages > PagesFor(|Matching(original, prefix)|))
    ensures bucket.honest && bucket.full ==> AllFull(|Matching(original, prefix)|, listed + [reply])
    ensures ToldAll(if outcome.Some? then outcome.value else WorkLimitReached, listed + [reply],
                    requested, bucket.requested, replies, bucket.replies)
    ensures forall k :: k in bucket.requested ==> k in old(bucket.requested) || prefix <= k
  {
    if bucket.honest {
      AnsweredFits(digest, original, bucket.keys, prefix, listed, progress.prints);
    }
    var page, ended := ListPage(bucket, prefix);
    reply := page;
    if bucket.honest && bucket.full {
      FullOneMore(digest, original, bucket.keys, prefix, listed, progress.prints, reply);
    }
    if ended.Some? {
      if bucket.honest {
        EndAtEmptyPage(digest, original, bucket.keys, prefix, maxPages, listed, progress.prints, bucket.full);
      }
      ToldOneMore(ended, listed, reply, requested, bucket.requested, bucket.requested,
                  replies, bucket.replies, bucket.replies);
      return ended, reply;
    }
    outcome := RemovePage(bucket, progress, digest, prefix, page, listed, original);
    CountOneMore(listed, reply);
    ToldOneMore(outcome, listed, reply, requested, old(bucket.requested), bucket.requested,
                replies, old(bucket.replies), bucket.replies);
  }

  method DeleteByPrefixWithPageLimit(bucket: Bucket, digest: Digest, prefix: string, maxPages: int)
    returns (outcome: DeletionOutcome, ghost listed: seq<ListReply>)
    requires bucket.honest ==> KeysFit(bucket.keys) && Identifies(digest)
    modifies bucket
    ensures maxPages < 1 ==> outcome == InvalidPageLimit && listed == []
    ensures |listed| <= Max(maxPages, 0)
    ensures Justified(digest, prefix, outcome, listed)
    ensures ToldAll(outcome, listed, old(bucket.requested), bucket.requested, old(bucket.replies), bucket.replies)
    ensures outcome == WorkLimitReached ==> |listed| == maxPages && NonEmptyPages(listed) == maxPages
    ensures forall k :: k in bucket.requested ==> k in old(bucket.requested) || prefix <= k
    ensures bucket.honest && maxPages >= 1 ==>
      HonestVerdict(old(bucket.keys), bucket.keys, prefix, maxPages, outcome, listed)
    ensures bucket.honest && bucket.full && maxPages >= 1 ==>
      (outcome == Finished <==> maxPages > PagesFor(|Matching(old(bucket.keys), prefix)|))
  {
    listed := [];
    if maxPages < 1 {
      return InvalidPageLimit, listed;
    }
    var progress := new PageProgress();
    ghost var original := bucket.keys;
    var pageNumber := 1;
    while pageNumber <= maxPages
      invariant 1 <= pageNumber <= maxPages + 1
      invariant |listed| == pageNumber - 1
      invariant fresh(progress) && fresh(progress.pageCycles) && progress.Valid()
      invariant Prints(digest, listed, progress.prints) && NonEmptyPages(listed) == |listed|
      invariant ToldAll(WorkLimitReached, listed, old(bucket.requested), bucket.requested, old(bucket.replies), bucket.replies)
      invariant forall k :: k in bucket.requested ==> k in old(bucket.requested) || prefix <= k
      invariant bucket.honest ==> Answered(digest, original, bucket.keys, prefix, listed, progress.prints)
      invariant bucket.honest && bucket.full ==> AllFull(|Matching(original, prefix)|, listed)
    {
      var ended, reply := DeletePage(bucket, progress, digest, prefix, listed, original, maxPages,
                                     old(bucket.requested), old(bucket.replies));
      listed := listed + [reply];
      if ended.Some? {
        return ended.value, listed;
      }
      pageNumber := pageNumber + 1;
    }
    if bucket.honest {
      EndAtLimit(digest, original, bucket.keys, prefix, maxPages, listed, progress.prints, bucket.full);
    }
    return WorkLimitReached, listed;
  }

  /** The call the adapter makes for a folder. */
  method DeleteByPrefix(bucket: Bucket, prefix: string) returns (outcome: DeletionOutcome, ghost listed: seq<ListReply>)
    requires bucket.honest ==> KeysFit(bucket.keys)
    modifies bucket
    ensures bucket.honest ==>
      HonestVerdict(old(bucket.keys), bucket.keys, prefix, MAX_PAGES_PER_CALL, outcome, listed)
    ensures bucket.honest && bucket.full ==>
      (outcome == Finished <==> MAX_PAGES_PER_CALL > PagesFor(|Matching(old(bucket.keys), prefix)|))
    ensures forall k :: k in bucket.requested ==> k in old(bucket.requested) || prefix <= k
  {
    FingerprintIdentifies();
    outcome, listed := DeleteByPrefixWithPageLimit(bucket, Fingerprint, prefix, MAX_PAGES_PER_CALL);
  }
}
