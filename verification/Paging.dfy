/**
 GetTransactions: backward paging over an account's history down to the last processed LT.
 The liteserver is an arbitrary oracle; the only thing assumed about it is that a page it does
 return is a contiguous piece of the history ending at the LT that was asked for.
 */
module Paging {
  import opened Common
  import opened Chain

  const BATCH: nat := 100

  datatype Reply =
    | Page(txs: seq<RawTx>)
    | NoTransactions
    | DeadlineExceeded
    | LiteServerError(code: int)
    | OtherError

  /** Answers the k-th ListTransactions call of a fetch, which asks for the page ending at an LT. */
  type Server = (nat, nat) -> Reply

  datatype Stop = AtCheckpoint | NothingFound | EmptyPage | Deadline | Refused

  /** What precedes the paging: the address is parsed, the masterchain and the account are read. */
  datatype Account = BadAddress | NoMasterchain | NoAccount | AccountAt(lastTxLT: nat)

  datatype Fetch<+T> = Fetched(txs: seq<T>, stop: Stop) | FetchFailed(reply: Reply) | Unavailable(account: Account)

  ghost predicate PageOf(h: seq<RawTx>, lt: nat, page: seq<RawTx>) {
    exists lo: nat, hi: nat ::
      lo <= hi <= |h| && hi <= lo + BATCH && page == h[lo..hi] && (lo < hi ==> h[hi - 1].lt == lt)
  }

  ghost predicate HonestReply(h: seq<RawTx>, server: Server, k: nat, lt: nat) {
    server(k, lt).Page? ==> PageOf(h, lt, server(k, lt).txs)
  }

  ghost predicate Honest(h: seq<RawTx>, server: Server) {
    forall k: nat, lt: nat :: HonestReply(h, server, k, lt)
  }

  /**
   What a fetch that did not fail collected: each transaction of a newest contiguous segment
   exactly once, all of it above the checkpoint except possibly the oldest one, which is at or
   below exactly when the fetch stopped at the checkpoint.
   */
  ghost predicate Segment(h: seq<RawTx>, lastLT: nat, collected: seq<RawTx>, stop: Stop) {
    && |collected| <= |h|
    && var n := |h| - |collected|;
    && multiset(collected) == multiset(h[n..])
    && (forall j :: n < j < |h| ==> lastLT < h[j].lt)
    && (stop.AtCheckpoint? <==> n < |h| && h[n].lt <= lastLT)
  }

  /** The fetch reached the checkpoint or the start of history; otherwise it was cut. */
  ghost predicate Complete(h: seq<RawTx>, collected: seq<RawTx>, stop: Stop) {
    stop.AtCheckpoint? || |collected| == |h|
  }

  // ----- the requests a fetch makes -----

  /** The loop goes on after a page that lies above the checkpoint. */
  ghost predicate GoesOn(reply: Reply, lastLT: nat) {
    reply.Page? && reply.txs != [] && forall t :: t in reply.txs ==> lastLT < t.lt
  }

  /** The k-th request is followed by one for the page below its answer. */
  ghost predicate Follows(server: Server, lastLT: nat, asked: seq<nat>, k: nat)
    requires k + 1 < |asked|
  {
    GoesOn(server(k, asked[k]), lastLT) && asked[k + 1] == server(k, asked[k]).txs[0].prevLT
  }

  /** `asked` holds the LTs that a fetch has requested so far, from the newest down. */
  ghost predicate Requests(server: Server, accountLT: nat, lastLT: nat, asked: seq<nat>) {
    && 0 < |asked| && asked[0] == accountLT
    && forall k :: 0 <= k < |asked| - 1 ==> Follows(server, lastLT, asked, k)
  }

  ghost function LastReply(server: Server, asked: seq<nat>): Reply
    requires 0 < |asked|
  {
    server(|asked| - 1, asked[|asked| - 1])
  }

  /** The replies that end the loop, each with its own stop. */
  ghost predicate Ends(stop: Stop, reply: Reply, lastLT: nat) {
    match stop
    case AtCheckpoint => reply.Page? && exists t :: t in reply.txs && t.lt <= lastLT
    case NothingFound => reply.NoTransactions?
    case EmptyPage => reply == Page([])
    case Deadline => reply.DeadlineExceeded?
    case Refused => reply == LiteServerError(-400)
  }

  /** The reply to the last request ended the loop; unless at the checkpoint, it was for the page below the segment. */
  ghost predicate StoppedBy(h: seq<RawTx>, server: Server, lastLT: nat, asked: seq<nat>, size: nat, stop: Stop)
    requires size <= |h|
  {
    && Requests(server, Tip(h), lastLT, asked)
    && Ends(stop, LastReply(server, asked), lastLT)
    && (stop.NothingFound? ==> 1 < |asked|)
    && (!stop.AtCheckpoint? ==> asked[|asked| - 1] == Before(h, |h| - size))
  }

  /** The replies that fail the fetch; having found nothing is one only on the first request. */
  predicate Fatal(reply: Reply, first: bool) {
    match reply
    case Page(_) | DeadlineExceeded => false
    case NoTransactions => first
    case LiteServerError(code) => code != -400
    case OtherError => true
  }

  /** How the loop takes a reply that is not a page with transactions: as a stop, or as an error. */
  function StopOf(reply: Reply, nothingYet: bool): (r: Option<Stop>)
    requires reply.Page? ==> reply.txs == []
    ensures r.None? <==> Fatal(reply, nothingYet)
    ensures forall lt :: r.Some? ==> !r.value.AtCheckpoint? && Ends(r.value, reply, lt)
    ensures nothingYet ==> r != Some(NothingFound)
  {
    match reply
    case NoTransactions => if nothingYet then None else Some(NothingFound)
    case DeadlineExceeded => Some(Deadline)
    case LiteServerError(code) => if code == -400 then Some(Refused) else None
    case OtherError => None
    case Page(_) => Some(EmptyPage)
  }

  /** The reply to the last request failed the fetch. */
  ghost predicate FailedBy(h: seq<RawTx>, server: Server, lastLT: nat, asked: seq<nat>) {
    && Requests(server, Tip(h), lastLT, asked)
    && Fatal(LastReply(server, asked), |asked| == 1)
  }

  /** The fetch fails: before the paging, or on a reply it receives. */
  ghost predicate FetchFails(h: seq<RawTx>, account: Account, server: Server, lastLT: nat) {
    !account.AccountAt? || exists asked :: FailedBy(h, server, lastLT, asked)
  }

  lemma {:induction false} SameRequests(server: Server, accountLT: nat, lastLT: nat, a: seq<nat>, b: seq<nat>, k: nat)
    requires Requests(server, accountLT, lastLT, a) && Requests(server, accountLT, lastLT, b) && k < |a| && k < |b|
    ensures a[k] == b[k]
  {
    if k != 0 {
      SameRequests(server, accountLT, lastLT, a, b, k - 1);
      assert Follows(server, lastLT, a, k - 1) && Follows(server, lastLT, b, k - 1);
    }
  }

  /** A server determines its requests: those of a fetch that ended are the only ones that end. */
  lemma RequestsAreDetermined(server: Server, accountLT: nat, lastLT: nat, a: seq<nat>, b: seq<nat>)
    requires Requests(server, accountLT, lastLT, a) && Requests(server, accountLT, lastLT, b)
    requires !GoesOn(LastReply(server, a), lastLT) && !GoesOn(LastReply(server, b), lastLT)
    ensures a == b
  {
    var k := if |a| < |b| then |a| - 1 else |b| - 1;
    SameRequests(server, accountLT, lastLT, a, b, k);
    assert |a| < |b| ==> Follows(server, lastLT, b, k);
    assert |b| < |a| ==> Follows(server, lastLT, a, k);
    forall i: nat | i < |a| && i < |b| ensures a[i] == b[i] {
      SameRequests(server, accountLT, lastLT, a, b, i);
    }
  }

  /** A fetch that stopped has not failed: its requests are the only ones, and their last reply is not fatal. */
  lemma StoppedDoesNotFail(h: seq<RawTx>, server: Server, lastLT: nat, asked: seq<nat>, size: nat, stop: Stop)
    requires size <= |h| && StoppedBy(h, server, lastLT, asked, size, stop)
    ensures forall a :: !FailedBy(h, server, lastLT, a)
  {
    forall a | FailedBy(h, server, lastLT, a) ensures false {
      RequestsAreDetermined(server, Tip(h), lastLT, asked, a);
    }
  }

  lemma ExtendRequests(server: Server, accountLT: nat, lastLT: nat, asked: seq<nat>)
    requires Requests(server, accountLT, lastLT, asked) && GoesOn(LastReply(server, asked), lastLT)
    ensures Requests(server, accountLT, lastLT, asked + [LastReply(server, asked).txs[0].prevLT])
  {
    var more := asked + [LastReply(server, asked).txs[0].prevLT];
    forall k | 0 <= k < |more| - 1 ensures Follows(server, lastLT, more, k) {
      assert k < |asked| - 1 ==> Follows(server, lastLT, asked, k);
    }
  }

  /** The server reports that there is nothing, or an empty page, only below the start of history. */
  ghost predicate Truthful(server: Server) {
    forall k: nat, lt: nat :: server(k, lt).NoTransactions? || server(k, lt) == Page([]) ==> lt == 0
  }

  /** Where a page starts and ends is fixed by the paging LT. */
  lemma PageEndsAtCursor(h: seq<RawTx>, server: Server, k: nat, n: nat)
    requires History(h) && Honest(h, server) && n <= |h|
    requires server(k, Before(h, n)).Page? && server(k, Before(h, n)).txs != []
    ensures var page := server(k, Before(h, n)).txs;
            && |page| <= n && page == h[n - |page|..n]
            && page[0].prevLT == Before(h, n - |page|) < Before(h, n)
  {
    assert HonestReply(h, server, k, Before(h, n));
    var page := server(k, Before(h, n)).txs;
    var lo: nat, hi: nat :|
      lo <= hi <= |h| && hi <= lo + BATCH && page == h[lo..hi] && (lo < hi ==> h[hi - 1].lt == Before(h, n));
    assert hi == n by {
      assert 0 < h[hi - 1].lt;
      assert hi - 1 == n - 1;
    }
    assert page[0] == h[lo];
    assert LinkedAt(h, lo);
  }

  lemma PrependSlice(h: seq<RawTx>, lo: nat, hi: nat, collected: seq<RawTx>)
    requires lo <= hi <= |h|
    requires multiset(collected) == multiset(h[hi..])
    ensures multiset(collected + h[lo..hi]) == multiset(h[lo..])
  {
    assert h[lo..] == h[lo..hi] + h[hi..];
  }

  /** The reverse walk over one page. */
  method NewestAtOrBelow(res: seq<RawTx>, lastProcessedLT: nat) returns (r: Option<nat>)
    ensures r.None? ==> forall j :: 0 <= j < |res| ==> lastProcessedLT < res[j].lt
    ensures r.Some? ==> r.value < |res| && res[r.value].lt <= lastProcessedLT
                        && forall j :: r.value < j < |res| ==> lastProcessedLT < res[j].lt
  {
    for i := 0 to |res|
      invariant forall j :: |res| - i <= j < |res| ==> lastProcessedLT < res[j].lt
    {
      var reverseIter := |res| - 1 - i;
      if res[reverseIter].lt <= lastProcessedLT {
        return Some(reverseIter);
      }
    }
    return None;
  }

  /** Breaking out at position k of a page leaves a segment that ends at the checkpoint. */
  lemma StopsInPage(h: seq<RawTx>, n: nat, res: seq<RawTx>, k: nat, lastLT: nat, transactions: seq<RawTx>)
    requires n == |h| - |transactions| && k < |res| <= n && res == h[n - |res|..n]
    requires multiset(transactions) == multiset(h[n..])
    requires forall j :: n <= j < |h| ==> lastLT < h[j].lt
    requires res[k].lt <= lastLT && forall j :: k < j < |res| ==> lastLT < res[j].lt
    ensures Segment(h, lastLT, transactions + res[k..], AtCheckpoint)
  {
    var m := n - |res| + k;
    assert res[k..] == h[m..n];
    PrependSlice(h, m, n, transactions);
    assert forall j :: m <= j < n ==> h[j] == res[j - (n - |res|)];
  }

  /** What the paging loop has gathered before its next call. */
  ghost predicate Gathered(h: seq<RawTx>, lastProcessedLT: nat, transactions: seq<RawTx>) {
    && |transactions| <= |h|
    && multiset(transactions) == multiset(h[|h| - |transactions|..])
    && (forall j :: |h| - |transactions| <= j < |h| ==> lastProcessedLT < h[j].lt)
  }

  lemma TakesWholePage(h: seq<RawTx>, n: nat, res: seq<RawTx>, lastLT: nat, transactions: seq<RawTx>)
    requires Gathered(h, lastLT, transactions) && n == |h| - |transactions|
    requires |res| <= n && res == h[n - |res|..n] && forall j :: 0 <= j < |res| ==> lastLT < res[j].lt
    ensures Gathered(h, lastLT, transactions + res)
  {
    PrependSlice(h, n - |res|, n, transactions);
    assert forall j :: n - |res| <= j < n ==> h[j] == res[j - (n - |res|)];
  }

  /** Appends one page, or the part of it down to the checkpoint. */
  method TakePage(ghost h: seq<RawTx>, res: seq<RawTx>, lastProcessedLT: nat, transactions: seq<RawTx>)
    returns (more: seq<RawTx>, atCheckpoint: bool)
    requires Gathered(h, lastProcessedLT, transactions)
    requires var n := |h| - |transactions|; |res| <= n && res == h[n - |res|..n]
    ensures atCheckpoint ==>
      Segment(h, lastProcessedLT, more, AtCheckpoint) && Ends(AtCheckpoint, Page(res), lastProcessedLT)
    ensures !atCheckpoint ==> Gathered(h, lastProcessedLT, more) && more == transactions + res
    ensures !atCheckpoint && res != [] ==> GoesOn(Page(res), lastProcessedLT)
  {
    ghost var n := |h| - |transactions|;
    var found := NewestAtOrBelow(res, lastProcessedLT);
    atCheckpoint := found.Some?;
    if atCheckpoint {
      StopsInPage(h, n, res, found.value, lastProcessedLT, transactions);
      more := transactions + res[found.value..];
    } else {
      TakesWholePage(h, n, res, lastProcessedLT, transactions);
      more := transactions + res;
    }
  }

  /** The paging loop is about to make its last recorded request. */
  ghost predicate Asking(h: seq<RawTx>, server: Server, lastLT: nat, asked: seq<nat>, transactions: seq<RawTx>) {
    && Gathered(h, lastLT, transactions)
    && Requests(server, Tip(h), lastLT, asked)
    && asked[|asked| - 1] == Before(h, |h| - |transactions|)
    && (|asked| == 1 <==> transactions == [])
  }

  lemma FirstRequest(h: seq<RawTx>, server: Server, lastLT: nat)
    requires History(h)
    ensures Asking(h, server, lastLT, [Tip(h)], [])
  {
    assert h[|h|..] == [];
  }

  /** A reply other than a page that ends the loop leaves what was gathered. */
  lemma EndsHere(h: seq<RawTx>, server: Server, lastLT: nat, asked: seq<nat>, transactions: seq<RawTx>, stop: Stop)
    requires Asking(h, server, lastLT, asked, transactions)
    requires !stop.AtCheckpoint? && Ends(stop, LastReply(server, asked), lastLT)
    requires stop.NothingFound? ==> transactions != []
    ensures Segment(h, lastLT, transactions, stop) && StoppedBy(h, server, lastLT, asked, |transactions|, stop)
  {
  }

  /** A page above the checkpoint is taken whole, and the next request is for what is below it. */
  lemma AsksOn(h: seq<RawTx>, server: Server, lastLT: nat, asked: seq<nat>, transactions: seq<RawTx>, res: seq<RawTx>)
    requires History(h) && Honest(h, server) && Asking(h, server, lastLT, asked, transactions)
    requires LastReply(server, asked) == Page(res) && GoesOn(Page(res), lastLT) &&
      Gathered(h, lastLT, transactions + res)
    ensures Asking(h, server, lastLT, asked + [res[0].prevLT], transactions + res)
    ensures res[0].prevLT < asked[|asked| - 1]
  {
    PageEndsAtCursor(h, server, |asked| - 1, |h| - |transactions|);
    ExtendRequests(server, Tip(h), lastLT, asked);
  }

  /** Takes the page that answered the last request: down to the checkpoint, or whole. */
  method TakeReply(ghost h: seq<RawTx>, ghost server: Server, lastProcessedLT: nat, ghost asked: seq<nat>,
                   transactions: seq<RawTx>, res: seq<RawTx>)
    returns (more: seq<RawTx>, atCheckpoint: bool)
    requires History(h) && Honest(h, server) && Asking(h, server, lastProcessedLT, asked, transactions)
    requires LastReply(server, asked) == Page(res) && res != []
    ensures atCheckpoint ==>
      Segment(h, lastProcessedLT, more, AtCheckpoint) &&
          StoppedBy(h, server, lastProcessedLT, asked, |more|, AtCheckpoint)
    ensures !atCheckpoint ==>
      Asking(h, server, lastProcessedLT, asked + [res[0].prevLT], more) && res[0].prevLT < asked[|asked| - 1]
  {
    PageEndsAtCursor(h, server, |asked| - 1, |h| - |transactions|);
    more, atCheckpoint := TakePage(h, res, lastProcessedLT, transactions);
    if !atCheckpoint {
      AsksOn(h, server, lastProcessedLT, asked, transactions, res);
    }
  }

  /** The paging loop, before parsing. `asked` records the requests it made. */
  method ListHistory(ghost h: seq<RawTx>, server: Server, lastProcessedLT: nat, accountLT: nat)
    returns (r: Fetch<RawTx>, ghost asked: seq<nat>)
    requires History(h) && Honest(h, server) && accountLT == Tip(h)
    ensures !r.Unavailable?
    ensures r.Fetched? ==>
      Segment(h, lastProcessedLT, r.txs, r.stop) && StoppedBy(h, server, lastProcessedLT, asked, |r.txs|, r.stop)
    ensures r.FetchFailed? ==> FailedBy(h, server, lastProcessedLT, asked) && r.reply == LastReply(server, asked)
    ensures r.FetchFailed? <==> exists a :: FailedBy(h, server, lastProcessedLT, a)
  {
    var transactions: seq<RawTx> := [];
    var lastLT, calls := accountLT, 0;
    asked := [accountLT];
    FirstRequest(h, server, lastProcessedLT);
    while true
      invariant Asking(h, server, lastProcessedLT, asked, transactions)
      invariant calls == |asked| - 1 && asked[calls] == lastLT
      decreases lastLT
    {
      var reply := server(calls, lastLT);
      if reply.Page? && reply.txs != [] {
        var atCheckpoint;
        transactions, atCheckpoint := TakeReply(h, server, lastProcessedLT, asked, transactions, reply.txs);
        if atCheckpoint {
          StoppedDoesNotFail(h, server, lastProcessedLT, asked, |transactions|, AtCheckpoint);
          return Fetched(transactions, AtCheckpoint), asked;
        }
        lastLT, calls := reply.txs[0].prevLT, calls + 1;
        asked := asked + [lastLT];
      } else {
        var stop := StopOf(reply, |transactions| == 0);
        if stop.None? {
          return FetchFailed(reply), asked;
        }
        EndsHere(h, server, lastProcessedLT, asked, transactions, stop.value);
        StoppedDoesNotFail(h, server, lastProcessedLT, asked, |transactions|, stop.value);
        return Fetched(transactions, stop.value), asked;
      }
    }
  }

  method ParseTransactions(raw: seq<RawTx>) returns (txs: seq<Tx>)
    ensures txs == ParseAll(raw)
  {
    txs := [];
    for i := 0 to |raw|
      invariant txs == ParseAll(raw[..i])
    {
      assert raw[..i + 1][..i] == raw[..i];
      var parsed := ParseTx(raw[i]);
      if parsed.Some? {
        txs := txs + [parsed.value];
      }
    }
    assert raw[..|raw|] == raw;
  }

  /** Only a deadline or a refusal cuts a fetch: every other stop means that nothing above the checkpoint is left. */
  lemma OnlyErrorsCut(h: seq<RawTx>, server: Server, lastLT: nat, asked: seq<nat>, collected: seq<RawTx>, stop: Stop)
    requires History(h) && Truthful(server)
    requires Segment(h, lastLT, collected, stop) && StoppedBy(h, server, lastLT, asked, |collected|, stop)
    ensures !Complete(h, collected, stop) ==> stop.Deadline? || stop.Refused?
  {
    if !stop.AtCheckpoint? && |collected| < |h| {
      assert 0 < h[|h| - |collected| - 1].lt;
    }
  }

  /** The server never makes the loop stop early. */
  ghost predicate NeverCuts(server: Server) {
    forall k: nat, lt: nat :: !server(k, lt).DeadlineExceeded? && server(k, lt) != LiteServerError(-400)
  }

  /** What a fetch did: what it collected, how it stopped, and the requests it made. */
  datatype FetchRecord = FetchRecord(collected: seq<RawTx>, stop: Stop, asked: seq<nat>)

  /** The record is that of a fetch from the server. */
  ghost predicate IsFetch(h: seq<RawTx>, server: Server, lastLT: nat, f: FetchRecord) {
    && Segment(h, lastLT, f.collected, f.stop)
    && StoppedBy(h, server, lastLT, f.asked, |f.collected|, f.stop)
  }

  /** A truthful server that never cuts gives a complete fetch. */
  lemma UncutIsComplete(h: seq<RawTx>, server: Server, lastLT: nat, f: FetchRecord)
    requires History(h) && Truthful(server) && NeverCuts(server) && IsFetch(h, server, lastLT, f)
    ensures Complete(h, f.collected, f.stop)
  {
    OnlyErrorsCut(h, server, lastLT, f.asked, f.collected, f.stop);
    var k := |f.asked| - 1;
    assert !server(k, f.asked[k]).DeadlineExceeded? && server(k, f.asked[k]) != LiteServerError(-400);
  }

  lemma BeforeIncreases(h: seq<RawTx>)
    requires History(h)
    ensures forall i: nat, j: nat :: i < j <= |h| ==> Before(h, i) < Before(h, j)
  {
    forall i: nat, j: nat | i < j <= |h| ensures Before(h, i) < Before(h, j) {
      assert 0 < h[j - 1].lt;
    }
  }

  /** The server determines what a fetch from an LT does, up to the order of what it collected. */
  lemma FetchIsDetermined(h: seq<RawTx>, server: Server, lastLT: nat, f: FetchRecord, g: FetchRecord)
    requires History(h) && IsFetch(h, server, lastLT, f) && IsFetch(h, server, lastLT, g)
    ensures f.asked == g.asked && f.stop == g.stop && multiset(f.collected) == multiset(g.collected)
  {
    RequestsAreDetermined(server, Tip(h), lastLT, f.asked, g.asked);
    BeforeIncreases(h);
    assert f.stop == g.stop;
  }

  /** GetTransactions as its callers see it: the parsed segment. */
  method GetTransactions(ghost h: seq<RawTx>, account: Account, server: Server, lastProcessedLT: nat)
    returns (r: Fetch<Tx>, ghost f: FetchRecord)
    requires History(h) && Honest(h, server) && (account.AccountAt? ==> account.lastTxLT == Tip(h))
    ensures r.Fetched? ==>
      IsFetch(h, server, lastProcessedLT, f) && r.txs == ParseAll(f.collected) && r.stop == f.stop
    ensures r.FetchFailed? ==> FailedBy(h, server, lastProcessedLT, f.asked) && r.reply == LastReply(server, f.asked)
    ensures r.Unavailable? <==> !account.AccountAt?
    ensures r.Fetched? <==> !FetchFails(h, account, server, lastProcessedLT)
  {
    f := FetchRecord([], Deadline, []);
    if !account.AccountAt? {
      return Unavailable(account), f;
    }
    var raw, asked := ListHistory(h, server, lastProcessedLT, account.lastTxLT);
    if raw.FetchFailed? {
      return FetchFailed(raw.reply), FetchRecord([], Deadline, asked);
    }
    f := FetchRecord(raw.txs, raw.stop, asked);
    var txs := ParseTransactions(raw.txs);
    r := Fetched(txs, raw.stop);
  }

  /** The caller gets the parseable part of the segment, each transaction as often as it is there. */
  lemma ParsedSegment(h: seq<RawTx>, lastLT: nat, collected: seq<RawTx>, stop: Stop)
    requires Segment(h, lastLT, collected, stop)
    ensures multiset(ParseAll(collected)) == multiset(ParseAll(h[|h| - |collected|..]))
  {
    ParseAllPermutes(collected, h[|h| - |collected|..]);
  }

  /** A complete fetch is exactly the history above the checkpoint plus the newest transaction not above it. */
  lemma CompleteFetchIsExact(h: seq<RawTx>, lastLT: nat, collected: seq<RawTx>, stop: Stop)
    requires History(h) && Segment(h, lastLT, collected, stop) && Complete(h, collected, stop)
    ensures var below := AtOrBelow(h, lastLT);
            multiset(collected) == multiset(h[if below == 0 then 0 else below - 1..])
  {
    NotAboveSplits(h, lastLT, |h|);
    var n := |h| - |collected|;
    var below := AtOrBelow(h, lastLT);
    if n < |h| && h[n].lt <= lastLT {
      assert n < below;
      var next := if n + 1 < |h| then n + 1 else n;
      assert next == n || lastLT < h[next].lt;
    }
  }

  /** In a history each transaction occurs once. */
  lemma OccursOnce(h: seq<RawTx>, n: nat, k: nat)
    requires History(h) && n <= k < |h|
    ensures multiset(h[n..])[h[k]] == 1
  {
    assert h[n..] == h[n..k] + [h[k]] + h[k + 1..];
    assert h[k] !in h[n..k];
    assert h[k] !in h[k + 1..];
  }

  lemma InSegment(h: seq<RawTx>, collected: seq<RawTx>, n: nat, t: RawTx)
    requires n <= |h| && multiset(collected) == multiset(h[n..])
    ensures t in collected <==> exists k :: n <= k < |h| && h[k] == t
  {
    assert t in collected <==> t in multiset(collected);
    assert t in multiset(h[n..]) <==> t in h[n..];
  }

  /** Nothing above the checkpoint is lost or doubled; at most one old transaction comes along, the newest. */
  lemma CompleteFetchCovers(h: seq<RawTx>, lastLT: nat, collected: seq<RawTx>, stop: Stop)
    requires History(h) && Segment(h, lastLT, collected, stop) && Complete(h, collected, stop)
    ensures forall k :: 0 <= k < |h| && lastLT < h[k].lt ==> multiset(collected)[h[k]] == 1
    ensures forall t :: t in collected && t.lt <= lastLT ==>
              multiset(collected)[t] == 1 && forall k :: 0 <= k < |h| && h[k].lt <= lastLT ==> h[k].lt <= t.lt
  {
    var n := |h| - |collected|;
    forall k | 0 <= k < |h| && lastLT < h[k].lt ensures multiset(collected)[h[k]] == 1 {
      assert n <= k;
      OccursOnce(h, n, k);
    }
    forall t | t in collected && t.lt <= lastLT
      ensures multiset(collected)[t] == 1 && forall k :: 0 <= k < |h| && h[k].lt <= lastLT ==> h[k].lt <= t.lt
    {
      InSegment(h, collected, n, t);
      assert t == h[n];
      OccursOnce(h, n, n);
    }
  }
}
