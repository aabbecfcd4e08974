/**
 CollectNewProviders as code: one cycle over the stored checkpoint, the known keys and the result
 stream, with every call it makes allowed to fail. Each outcome is a path of the protocol.
 */
module MasterCycle {
  import opened Common
  import opened Strings
  import opened Chain
  import opened Paging
  import opened MasterScan
  import opened MasterCoverage
  import opened MasterProtocol
  import opened Handlers

  /** The outcomes of the calls of one cycle other than the fetch. */
  datatype Outcomes = Outcomes(ltRead: bool, pubkeysRead: bool, publish: PublishOutcome, ltWritten: bool)

  /** The worker has scanned from the checkpoint and not published yet. */
  ghost function Cycled(s: State, w: nat, collected: seq<RawTx>, scanned: seq<Provider>, lastLT: nat): State
    requires |collected| <= |s.chain|
  {
    var result := MasterResult(Fresh(scanned, LowerAll(s.known)), lastLT, |scanned|);
    SetPhase(s, w, Scanned(s.checkpoint, result, Left(s.chain, s.checkpoint, |collected|, lastLT)))
  }

  /** The reads and the scan of one cycle. */
  lemma ScanPath(path: seq<State>, g: Regime, w: nat, collected: seq<RawTx>, stop: Stop,
                 scanned: seq<Provider>, lastLT: nat) returns (longer: seq<State>)
    requires IsPath(path, g) && PhaseOf(Last(path), w).Idle? && (!g.concurrent ==> AllIdle(Last(path)))
    requires FetchAndScan(Last(path).chain, Last(path).checkpoint, collected, stop, scanned, lastLT)
    requires !g.cuts ==> Complete(Last(path).chain, collected, stop)
    ensures IsPath(longer, g) && longer[0] == path[0]
    ensures Last(longer) == Cycled(Last(path), w, collected, scanned, lastLT)
  {
    var s := Last(path);
    longer := ExtendPath(path, g, ReadLT(w));
    longer := ExtendPath(longer, g, ReadKnown(w));
    assert Last(longer) == s.(workers := s.workers[w := HasKnown(s.checkpoint, LowerAll(s.known))]);
    longer := ExtendPath(longer, g, ScanStep(w, collected, stop, scanned, lastLT));
  }

  /** The state after a cycle that published and, if `applied`, wrote the checkpoint. */
  ghost function Ended(s: State, w: nat, applied: bool): State
    requires PhaseOf(s, w).Scanned?
  {
    var ph := PhaseOf(s, w);
    var t := s.(published := s.published + [ph.result], workers := s.workers[w := Idle],
                passedOver := s.passedOver + ph.left);
    if applied && ph.fromLT < ph.result.lastLT then StoreLT(t, ph.result.lastLT) else t
  }

  /** Publishing and writing the checkpoint. */
  lemma PublishPath(path: seq<State>, g: Regime, w: nat, applied: bool) returns (longer: seq<State>)
    requires IsPath(path, g) && PhaseOf(Last(path), w).Scanned?
    ensures IsPath(longer, g) && longer[0] == path[0] && Last(longer) == Ended(Last(path), w, applied)
  {
    longer := ExtendPath(path, g, Publish(w, true));
    longer := ExtendPath(longer, g, WriteLT(w, applied));
  }

  /** What a cycle that got as far as publishing leaves behind. */
  ghost predicate CycleEnd(s: State, s': State, w: nat, result: MasterResult, calls: Outcomes) {
    && s'.known == s.known
    && PhaseOf(s', w).Idle?
    && s'.published == (if calls.publish.NotAppended? then s.published else s.published + [result])
    && s'.checkpoint == (if calls.publish.Appended? && calls.ltWritten && s.checkpoint < result.lastLT
                         then result.lastLT else s.checkpoint)
  }

  lemma CyclePath(s: State, w: nat, collected: seq<RawTx>, stop: Stop, scanned: seq<Provider>, lastLT: nat,
                  calls: Outcomes) returns (path: seq<State>)
    requires PhaseOf(s, w).Idle? && FetchAndScan(s.chain, s.checkpoint, collected, stop, scanned, lastLT)
    ensures IsPath(path, ANY) && path[0] == s
    ensures CycleEnd(s, Last(path), w, MasterResult(Fresh(scanned, LowerAll(s.known)), lastLT, |scanned|), calls)
  {
    path := ScanPath([s], ANY, w, collected, stop, scanned, lastLT);
    match calls.publish
    case NotAppended => path := ExtendPath(path, ANY, Abort(w));
    case AppendedButFailed => path := ExtendPath(path, ANY, Publish(w, false));
    case Appended => path := PublishPath(path, ANY, w, calls.ltWritten);
  }

  /**
   The payload of one cycle: what a scan of the fetch from the checkpoint found that was not known,
   and the LT it reached.
   */
  ghost predicate IsResult(s: State, server: Server, f: FetchRecord, result: MasterResult) {
    && IsFetch(s.chain, server, s.checkpoint, f)
    && exists scanned ::
         && ScanOutcome(ParseAll(f.collected), s.checkpoint, scanned, result.lastLT)
         && result.newProviders == Fresh(scanned, LowerAll(s.known)) && result.scannedCount == |scanned|
  }

  /**
   The payload has exactly the keys registered above the checkpoint that are not known, each as a
   registration of it says, and the LT of the newest transaction that parses.
   */
  ghost predicate ReportsAll(s: State, result: MasterResult) {
    && Keys(result.newProviders) == KeysAbove(s.chain, s.checkpoint) - LowerAll(s.known)
    && (forall p :: p in result.newProviders ==> RegisteredOnChain(s.chain, s.checkpoint, p))
    && IsNewestParsed(s.chain, s.checkpoint, result.lastLT)
  }

  lemma {:induction false} FreshIsPart(scanned: seq<Provider>, known: set<string>, p: Provider)
    requires p in Fresh(scanned, known)
    ensures p in scanned
  {
    var n := |scanned| - 1;
    if p != scanned[n] {
      FreshIsPart(scanned[..n], known, p);
    }
  }

  /** The payload of a complete fetch reports everything. */
  lemma CompleteResultReportsAll(s: State, server: Server, f: FetchRecord, result: MasterResult)
    requires History(s.chain) && IsResult(s, server, f, result) && Complete(s.chain, f.collected, f.stop)
    ensures ReportsAll(s, result)
  {
    var scanned :|
      && ScanOutcome(ParseAll(f.collected), s.checkpoint, scanned, result.lastLT)
      && result.newProviders == Fresh(scanned, LowerAll(s.known)) && result.scannedCount == |scanned|;
    CompleteScanFinds(s.chain, s.checkpoint, f.collected, f.stop, scanned, result.lastLT);
    CompleteScanReaches(s.chain, s.checkpoint, f.collected, f.stop, scanned, result.lastLT);
    ScannedKeysAreLower(ParseAll(f.collected), s.checkpoint, scanned, result.lastLT);
    FreshKeys(scanned, LowerAll(s.known));
    forall p | p in result.newProviders ensures RegisteredOnChain(s.chain, s.checkpoint, p) {
      FreshIsPart(scanned, LowerAll(s.known), p);
      ScannedIsOnChain(s.chain, s.checkpoint, f.collected, f.stop, scanned, result.lastLT, p);
    }
  }

  /** The payload of the fetch, which reports everything if the fetch is complete, as from a truthful, uncut server. */
  ghost predicate IsReport(s: State, server: Server, f: FetchRecord, result: MasterResult) {
    && IsResult(s, server, f, result)
    && (Complete(s.chain, f.collected, f.stop) ==> ReportsAll(s, result))
    && (Truthful(server) && NeverCuts(server) ==> Complete(s.chain, f.collected, f.stop))
  }

  lemma PayloadReports(s: State, server: Server, f: FetchRecord, result: MasterResult)
    requires History(s.chain) && IsResult(s, server, f, result)
    ensures IsReport(s, server, f, result)
  {
    if Complete(s.chain, f.collected, f.stop) {
      CompleteResultReportsAll(s, server, f, result);
    }
    if Truthful(server) && NeverCuts(server) {
      UncutIsComplete(s.chain, server, s.checkpoint, f);
    }
  }

  ghost function AsSet(pubkeys: seq<string>): set<string> {
    set i | 0 <= i < |pubkeys| :: pubkeys[i]
  }

  /** The `known` set of the handler. */
  method LowerKeys(pubkeys: seq<string>) returns (known: set<string>)
    ensures known == LowerAll(AsSet(pubkeys))
  {
    known := {};
    for i := 0 to |pubkeys|
      invariant known == LowerAll(AsSet(pubkeys[..i]))
    {
      assert AsSet(pubkeys[..i + 1]) == AsSet(pubkeys[..i]) + {pubkeys[i]} by {
        assert pubkeys[..i + 1] == pubkeys[..i] + [pubkeys[i]];
      }
      known := known + {Lower(pubkeys[i])};
    }
    assert pubkeys[..|pubkeys|] == pubkeys;
  }

  /** The scanned providers that are not known. */
  method Unknown(scanned: seq<Provider>, known: set<string>) returns (unseen: seq<Provider>)
    ensures unseen == Fresh(scanned, known)
  {
    unseen := [];
    for i := 0 to |scanned|
      invariant unseen == Fresh(scanned[..i], known)
    {
      assert scanned[..i + 1][..i] == scanned[..i];
      if Lower(scanned[i].publicKey) !in known {
        unseen := unseen + [scanned[i]];
      }
    }
    assert scanned[..|scanned|] == scanned;
  }

  /** From reading the known keys to the payload: fetch, scan, filter. */
  method ScanForNew(account: Account, server: Server, fromLT: nat, pubkeys: seq<string>,
                    ghost s: State, ghost w: nat, ghost calls: Outcomes)
    returns (r: Result<MasterResult>, ghost path: seq<State>, ghost f: FetchRecord)
    requires History(s.chain) && Honest(s.chain, server) && (account.AccountAt? ==> account.lastTxLT == Tip(s.chain))
    requires PhaseOf(s, w).Idle? && fromLT == s.checkpoint && AsSet(pubkeys) == s.known
    ensures IsPath(path, ANY) && path[0] == s
    ensures r.Ok? ==> IsResult(s, server, f, r.value)
    ensures r.Err? <==> FetchFails(s.chain, account, server, s.checkpoint)
    ensures if r.Ok? then CycleEnd(s, Last(path), w, r.value, calls) else path == [s]
  {
    var known := LowerKeys(pubkeys);
    var fetch;
    fetch, f := GetTransactions(s.chain, account, server, fromLT);
    if !fetch.Fetched? {
      return Err, [s], f;
    }
    var scanned, lastLT := Scan(fetch.txs, fromLT);
    var newProviders := Unknown(scanned, known);
    path := CyclePath(s, w, f.collected, f.stop, scanned, lastLT, calls);
    assert ScanOutcome(ParseAll(f.collected), s.checkpoint, scanned, lastLT);
    r := Ok(MasterResult(newProviders, lastLT, |scanned|));
  }

  /** The handler up to its payload: the two reads and the scan, each of which may end it. */
  method ReadAndScan(calls: Outcomes, account: Account, server: Server, checkpoint: nat, pubkeys: seq<string>,
                     ghost s: State, ghost w: nat)
    returns (scan: Result<MasterResult>, ghost path: seq<State>, ghost f: FetchRecord, ghost trace: seq<Call>)
    requires History(s.chain) && Honest(s.chain, server) && (account.AccountAt? ==> account.lastTxLT == Tip(s.chain))
    requires PhaseOf(s, w).Idle? && checkpoint == s.checkpoint && AsSet(pubkeys) == s.known
    ensures IsPath(path, ANY) && path[0] == s
    ensures scan.Ok? <==> calls.ltRead && calls.pubkeysRead && !FetchFails(s.chain, account, server, s.checkpoint)
    ensures scan.Ok? ==>
      IsReport(s, server, f, scan.value) && CycleEnd(s, Last(path), w, scan.value, calls) && SoFar(trace)
    ensures scan.Err? ==> path == [s] && Obeys(trace, false, calls.publish, 0)
  {
    path, f, trace := [s], FetchRecord([], Deadline, []), [];
    Calls(trace, calls.ltRead, calls.publish);
    trace := Then(trace, Fallible, calls.ltRead);
    if !calls.ltRead {
      return Err, path, f, trace;
    }
    Calls(trace, calls.pubkeysRead, calls.publish);
    trace := Then(trace, Fallible, calls.pubkeysRead);
    if !calls.pubkeysRead {
      return Err, path, f, trace;
    }
    scan, path, f := ScanForNew(account, server, checkpoint, pubkeys, s, w, calls);
    Calls(trace, scan.Ok?, calls.publish);
    trace := Then(trace, Fallible, scan.Ok?);
    if scan.Ok? {
      PayloadReports(s, server, f, scan.value);
    }
  }

  /** The agent's side of the system: what scan_master reads and writes. */
  class MasterStore {
    var checkpoint: nat
    var pubkeys: seq<string>
    var results: seq<MasterResult>

    constructor (checkpoint: nat, pubkeys: seq<string>)
      ensures this.checkpoint == checkpoint && this.pubkeys == pubkeys && this.results == []
    {
      this.checkpoint, this.pubkeys, this.results := checkpoint, pubkeys, [];
    }

    /** The store holds what the protocol state says, and the worker is between cycles. */
    ghost predicate Agrees(s: State, w: nat)
      reads this
    {
      && checkpoint == s.checkpoint
      && AsSet(pubkeys) == s.known
      && results == s.published
      && PhaseOf(s, w).Idle?
    }

    /**
     One execution of the handler by worker w. Whatever fails, what it leaves behind is the end
     of a protocol path from the state it found. It obeys the law of handlers: what it appends is
     decided by its publish, and the checkpoint moves only after a result that carries its value
     was appended.
     */
    method CollectNewProviders(calls: Outcomes, account: Account, server: Server, ghost s: State, ghost w: nat)
      returns (ok: bool, ghost path: seq<State>, ghost f: FetchRecord, ghost trace: seq<Call>)
      requires Agrees(s, w) && History(s.chain) && Honest(s.chain, server)
      requires account.AccountAt? ==> account.lastTxLT == Tip(s.chain)
      modifies this
      ensures IsPath(path, ANY) && path[0] == s && Agrees(Last(path), w)
      ensures pubkeys == old(pubkeys) && old(results) <= results
      ensures Obeys(trace, ok, calls.publish, |results| - |old(results)|)
      ensures !ok && !calls.publish.AppendedButFailed? ==> results == old(results)
      ensures |results| == |old(results)| + 1 ==> IsReport(s, server, f, results[|old(results)|])
      ensures ok ==> |results| == |old(results)| + 1
      ensures ok <==>
        && calls.ltRead && calls.pubkeysRead && calls.publish.Appended?
        && !FetchFails(s.chain, account, server, s.checkpoint)
      ensures checkpoint ==
                if ok && calls.ltWritten && old(checkpoint) < results[|old(results)|].lastLT
                then results[|old(results)|].lastLT else old(checkpoint)
    {
      var fromLT := checkpoint;
      var scan;
      scan, path, f, trace := ReadAndScan(calls, account, server, fromLT, pubkeys, s, w);
      if scan.Err? {
        return false, path, f, trace;
      }
      var appended;
      ok, appended, trace := Handlers.Publish(scan.value, calls.publish, trace);
      results := results + appended;
      if ok && fromLT < scan.value.lastLT {
        EndsWithBestEffort(trace, calls.publish, 1, calls.ltWritten);
        trace := Then(trace, BestEffort, calls.ltWritten);
        if calls.ltWritten {
          checkpoint := scan.value.lastLT;
        }
      }
    }
  }
}
