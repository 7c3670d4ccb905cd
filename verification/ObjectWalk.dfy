/** Paged listing of S3 objects (internal/storage/s3.go, walkObjects). The
    server is a function of the continuation token; the first request carries
    no token, written "". */
module ObjectWalk {
  import opened CycleDetection
  import opened Options
  import opened Sequences

  datatype ObjectMetadata = ObjectMetadata(name: string, sizeBytes: nat, modifiedAt: int)

  /** One listed object as the server sends it: fields may be missing, and a
      missing key reads as "". */
  datatype Listed = Listed(key: string, size: Option<int>, lastModified: Option<int>)

  datatype Page = Page(contents: seq<Listed>, truncated: bool, next: string)

  /** None stands for a failed request or an empty response. */
  type Listing = string -> Option<Page>

  /** The visitor's callback is told everything visited so far, the current
      object last, and answers false when it fails. */
  type Visitor = seq<ObjectMetadata> -> bool

  datatype WalkOutcome = Walked | ListFailed | BadObject | VisitFailed | NoToken | CyclicToken

  predicate WellFormed(prefix: string, item: Listed) {
    && item.key != ""
    && prefix <= item.key
    && item.size.Some? && item.size.value >= 0
    && item.lastModified.Some?
  }

  function Metadata(item: Listed): ObjectMetadata {
    ObjectMetadata(
      item.key,
      if item.size.Some? && item.size.value >= 0 then item.size.value else 0,
      if item.lastModified.Some? then item.lastModified.value else 0)
  }

  function Objects(contents: seq<Listed>): (objects: seq<ObjectMetadata>) {
    seq(|contents|, k requires 0 <= k < |contents| => Metadata(contents[k]))
  }

  ghost predicate GoodContents(prefix: string, contents: seq<Listed>) {
    forall k :: 0 <= k < |contents| ==> WellFormed(prefix, contents[k])
  }

  /** The response to token `t` asks for another request. */
  ghost predicate Continues(list: Listing, t: string) {
    list(t).Some? && list(t).value.truncated && list(t).value.next != ""
  }

  ghost predicate Ends(list: Listing, t: string) {
    list(t).Some? && !list(t).value.truncated
  }

  /** The token of request number `i`. */
  ghost function TokenAt(list: Listing, i: nat): string {
    if i == 0 then ""
    else
      var t := TokenAt(list, i - 1);
      if Continues(list, t) then list(t).value.next else ""
  }

  /** Request number `i` is made: every earlier response continues. */
  ghost predicate Reached(list: Listing, i: nat) {
    forall k: nat :: k < i ==> Continues(list, TokenAt(list, k))
  }

  ghost function ContentsAt(list: Listing, i: nat): seq<Listed> {
    var reply := list(TokenAt(list, i));
    if reply.Some? then reply.value.contents else []
  }

  /** Everything on the first `n` pages, in listing order. */
  ghost function FirstPages(list: Listing, n: nat): seq<ObjectMetadata> {
    if n == 0 then [] else FirstPages(list, n - 1) + Objects(ContentsAt(list, n - 1))
  }

  ghost predicate GoodPageAt(list: Listing, prefix: string, i: nat) {
    list(TokenAt(list, i)).Some? && GoodContents(prefix, ContentsAt(list, i))
  }

  /** Tokens come from a finite set. */
  ghost predicate TokensIn(list: Listing, tokens: set<string>) {
    forall t {:trigger list(t)} ::
      (t == "" || t in tokens) && Continues(list, t) ==> list(t).value.next in tokens
  }

  /** Every response asks for another request. */
  ghost predicate NeverEnds(list: Listing) {
    forall i: nat :: Reached(list, i)
  }

  lemma {:induction false} TokensStayIn(list: Listing, tokens: set<string>, i: nat)
    requires TokensIn(list, tokens) && Reached(list, i)
    ensures i > 0 ==> TokenAt(list, i) in tokens
  {
    if i > 0 {
      TokensStayIn(list, tokens, i - 1);
      assert Continues(list, TokenAt(list, i - 1));
    }
  }

  lemma {:induction false} TokensRepeat(list: Listing, i: nat, j: nat, d: nat)
    requires TokenAt(list, i) == TokenAt(list, j)
    ensures TokenAt(list, i + d) == TokenAt(list, j + d)
  {
    if d > 0 {
      TokensRepeat(list, i, j, d - 1);
    }
  }

  /** A listing whose token repeats asks for requests for ever. */
  lemma {:induction false} RepeatedTokenReaches(list: Listing, i: nat, j: nat, m: nat)
    requires i < j && Reached(list, j) && TokenAt(list, i) == TokenAt(list, j)
    ensures Reached(list, m)
  {
    if m > j {
      RepeatedTokenReaches(list, i, j, m - 1);
      TokensRepeat(list, i, j, m - 1 - j);
      assert TokenAt(list, m - 1 - j + i) == TokenAt(list, m - 1);
      assert Continues(list, TokenAt(list, m - 1 - j + i));
    }
  }

  lemma RepeatedTokenNeverEnds(list: Listing, i: nat, j: nat)
    requires i < j && Reached(list, j) && TokenAt(list, i) == TokenAt(list, j)
    ensures NeverEnds(list)
  {
    forall m: nat
      ensures Reached(list, m)
    {
      RepeatedTokenReaches(list, i, j, m);
    }
  }

  /** The tokens of requests 1, 2, ..., as the detector observes them. */
  ghost predicate ObservedTokens(list: Listing, history: seq<string>) {
    forall k :: 0 <= k < |history| ==> history[k] == TokenAt(list, k + 1)
  }

  /** While nothing is reported, fewer than three times as many tokens are
      observed as there are tokens. */
  lemma SilentIsShort(list: Listing, tokens: set<string>, history: seq<string>)
    requires ObservedTokens(list, history) && Reached(list, |history|)
    requires TokensIn(list, tokens) && |tokens| <= TOP_POWER
    requires Silent(history)
    ensures |history| <= 3 * |tokens|
  {
    if |history| > 3 * |tokens| {
      var first := history[..|tokens| + 1];
      forall x | x in first
        ensures x in tokens
      {
        var k :| 0 <= k < |first| && first[k] == x;
        TokensStayIn(list, tokens, k + 1);
      }
      Pigeonhole(first, tokens);
      var i, j :| 0 <= i < j < |first| && first[i] == first[j];
      forall d | i <= d && d + (j - i) < |history|
        ensures history[d] == history[d + (j - i)]
      {
        TokensRepeat(list, i + 1, j + 1, d - i);
      }
      var r := ReportsWithinBound(history, i, j - i);
      assert false;
    }
  }

  /** The callback succeeded on each of the first `n` visits. */
  ghost predicate Accepted(visit: Visitor, visited: seq<ObjectMetadata>, n: int) {
    forall k :: 0 < k <= n && k <= |visited| ==> visit(visited[..k])
  }

  lemma AcceptedSnoc(visit: Visitor, visited: seq<ObjectMetadata>, next: ObjectMetadata)
    requires Accepted(visit, visited, |visited|)
    ensures Accepted(visit, visited + [next], |visited|)
    ensures visit(visited + [next]) ==> Accepted(visit, visited + [next], |visited| + 1)
  {
    var all := visited + [next];
    forall k | 0 < k <= |visited|
      ensures visit(all[..k])
    {
      assert all[..k] == visited[..k];
    }
    assert all[..|all|] == all;
  }

  /** A page's first `n` objects were visited after `before`; on success that is
      the whole page, and otherwise it says which object stopped the visit. */
  ghost predicate VisitedPart(
    prefix: string, contents: seq<Listed>, visit: Visitor,
    before: seq<ObjectMetadata>, n: nat, visited: seq<ObjectMetadata>, outcome: WalkOutcome)
  {
    && n <= |contents|
    && GoodContents(prefix, contents[..n])
    && visited == before + Objects(contents[..n])
    && match outcome
       case BadObject =>
         n < |contents| && !WellFormed(prefix, contents[n]) && Accepted(visit, visited, |visited|)
       case VisitFailed =>
         n > 0 && !visit(visited) && Accepted(visit, visited, |visited| - 1)
       case _ =>
         n == |contents| && Accepted(visit, visited, |visited|)
  }

  method VisitPage(prefix: string, contents: seq<Listed>, visit: Visitor, before: seq<ObjectMetadata>)
    returns (visited: seq<ObjectMetadata>, outcome: WalkOutcome, ghost n: nat)
    requires Accepted(visit, before, |before|)
    ensures outcome in {Walked, BadObject, VisitFailed}
    ensures VisitedPart(prefix, contents, visit, before, n, visited, outcome)
  {
    visited := before;
    for i := 0 to |contents|
      invariant GoodContents(prefix, contents[..i])
      invariant visited == before + Objects(contents[..i])
      invariant Accepted(visit, visited, |visited|)
    {
      var item := contents[i];
      if !WellFormed(prefix, item) {
        return visited, BadObject, i;
      }
      assert contents[..i + 1] == contents[..i] + [item];
      assert Objects(contents[..i + 1]) == Objects(contents[..i]) + [Metadata(item)];
      AcceptedSnoc(visit, visited, Metadata(item));
      visited := visited + [Metadata(item)];
      if !visit(visited) {
        return visited, VisitFailed, i + 1;
      }
    }
    return visited, Walked, |contents|;
  }

  /** The walk stopped at request number `last`, after `n` objects of its page:
      every earlier page was visited in full, once and in order. */
  ghost predicate StoppedAt(
    list: Listing, prefix: string, visit: Visitor,
    last: nat, n: nat, visited: seq<ObjectMetadata>, outcome: WalkOutcome)
  {
    && Reached(list, last)
    && (forall k: nat :: k < last ==> GoodPageAt(list, prefix, k))
    && VisitedPart(prefix, ContentsAt(list, last), visit, FirstPages(list, last), n, visited, outcome)
    && var reply := list(TokenAt(list, last));
       match outcome
       case ListFailed => reply.None?
       case BadObject => reply.Some?
       case VisitFailed => reply.Some?
       case NoToken => reply.Some? && reply.value.truncated && reply.value.next == ""
       case CyclicToken => reply.Some? && NeverEnds(list)
       case Walked => Ends(list, TokenAt(list, last))
  }

  /** About to make request number `last` with `token`. */
  ghost predicate Requesting(
    list: Listing, prefix: string, visit: Visitor,
    history: seq<string>, last: nat, token: string, visited: seq<ObjectMetadata>)
  {
    && |history| == last
    && ObservedTokens(list, history)
    && token == TokenAt(list, last)
    && Reached(list, last)
    && (forall k: nat :: k < last ==> GoodPageAt(list, prefix, k))
    && visited == FirstPages(list, last)
    && Accepted(visit, visited, |visited|)
  }

  lemma NextRequest(
    list: Listing, prefix: string, visit: Visitor,
    history: seq<string>, last: nat, token: string, before: seq<ObjectMetadata>,
    n: nat, visited: seq<ObjectMetadata>)
    requires Requesting(list, prefix, visit, history, last, token, before)
    requires Continues(list, token)
    requires VisitedPart(prefix, list(token).value.contents, visit, before, n, visited, Walked)
    ensures Requesting(list, prefix, visit, history + [list(token).value.next], last + 1, list(token).value.next, visited)
  {
    var contents := list(token).value.contents;
    assert contents[..n] == contents;
    assert TokenAt(list, last + 1) == list(token).value.next;
    assert GoodPageAt(list, prefix, last);
  }

  method WalkObjects(list: Listing, prefix: string, visit: Visitor, ghost tokens: set<string>)
    returns (visited: seq<ObjectMetadata>, outcome: WalkOutcome, ghost last: nat, ghost n: nat)
    requires TokensIn(list, tokens) && |tokens| <= TOP_POWER
    ensures StoppedAt(list, prefix, visit, last, n, visited, outcome)
    ensures last <= 3 * |tokens|
    ensures outcome == CyclicToken ==> NeverEnds(list)
    ensures outcome == Walked ==> !NeverEnds(list)
  {
    visited, last, n := [], 0, 0;
    var token := "";
    var tokenCycles := new CycleDetector<string>();
    while true
      invariant fresh(tokenCycles) && tokenCycles.Valid()
      invariant last <= 3 * |tokens|
      invariant Requesting(list, prefix, visit, tokenCycles.history, last, token, visited)
      decreases 3 * |tokens| - last
    {
      var reply := list(token);
      if reply.None? {
        n := 0;
        outcome := ListFailed;
        return;
      }
      var page := reply.value;
      ghost var before := visited;
      visited, outcome, n := VisitPage(prefix, page.contents, visit, visited);
      if outcome != Walked {
        return;
      }
      if !page.truncated {
        LastPageEnds(list, last);
        return;
      }
      if page.next == "" {
        outcome := NoToken;
        return;
      }
      NextRequest(list, prefix, visit, tokenCycles.history, last, token, before, n, visited);
      var cyclic := tokenCycles.Observe(page.next);
      if cyclic {
        CyclicTokens(list, tokenCycles.history, last);
        outcome := CyclicToken;
        return;
      }
      SilentIsShort(list, tokens, tokenCycles.history);
      last := last + 1;
      token := page.next;
    }
  }

  lemma LastPageEnds(list: Listing, last: nat)
    requires Ends(list, TokenAt(list, last))
    ensures !NeverEnds(list)
  {
    assert !Continues(list, TokenAt(list, last));
    assert !Reached(list, last + 1);
  }

  lemma CyclicTokens(list: Listing, history: seq<string>, last: nat)
    requires ObservedTokens(list, history) && Reached(list, last + 1)
    requires Reports(history, last)
    ensures NeverEnds(list)
  {
    ReportsAreSound(history, last);
    var i :| 0 <= i < last && history[i] == history[last];
    RepeatedTokenNeverEnds(list, i + 1, last + 1);
  }

  /** With well-formed pages and a callback that never fails, the walk succeeds
      exactly when the listing ends, having visited every object on every page,
      and otherwise reports the token cycle. */
  lemma WalkVerdict(
    list: Listing, prefix: string, visit: Visitor,
    last: nat, n: nat, visited: seq<ObjectMetadata>, outcome: WalkOutcome)
    requires StoppedAt(list, prefix, visit, last, n, visited, outcome)
    requires forall i: nat :: Reached(list, i) ==> GoodPageAt(list, prefix, i)
    requires forall t {:trigger list(t)} :: list(t).Some? && list(t).value.truncated ==> list(t).value.next != ""
    requires forall v {:trigger visit(v)} :: visit(v)
    ensures outcome == Walked <==> !NeverEnds(list)
    ensures outcome == CyclicToken <==> NeverEnds(list)
    ensures outcome == Walked ==> visited == FirstPages(list, last + 1)
  {
    assert GoodPageAt(list, prefix, last);
    var contents := ContentsAt(list, last);
    assert n == |contents| ==> contents[..n] == contents;
    if outcome == Walked {
      LastPageEnds(list, last);
    }
  }
}
