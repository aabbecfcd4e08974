/**
 scan_master as a protocol: any number of workers interleave the calls of CollectNewProviders
 (read checkpoint, read known keys, scan, publish, write checkpoint) over a growing chain, and
 each may stop between any two of them. The checkpoint write is unconditional.
 */
module MasterProtocol {
  import opened Strings
  import opened Chain
  import opened Paging
  import opened MasterScan
  import opened MasterCoverage

  datatype MasterResult = MasterResult(newProviders: seq<Provider>, lastLT: nat, scannedCount: nat)

  /** How far a worker has come in one cycle. `known` holds lower-cased keys, `left` what its fetch left behind. */
  datatype Phase =
    | Idle
    | HasLT(fromLT: nat)
    | HasKnown(fromLT: nat, known: set<string>)
    | Scanned(fromLT: nat, result: MasterResult, left: set<string>)
    | Published(fromLT: nat, lastLT: nat)

  /**
   `stored` (every value the checkpoint ever had), `published` (every result ever appended) and
   `passedOver` (keys that a published LT passed in a cut fetch) are history.
   */
  datatype State = State(
    chain: seq<RawTx>,
    checkpoint: nat,
    stored: set<nat>,
    known: set<string>,
    published: seq<MasterResult>,
    workers: map<nat, Phase>,
    passedOver: set<string>)

  datatype Step =
    | Grow(t: RawTx)
    | AddKnown(pubkey: string)
    | BackendWritesLT(i: nat)
    | ReadLT(w: nat)
    | ReadKnown(w: nat)
    | ScanStep(w: nat, collected: seq<RawTx>, stop: Stop, scanned: seq<Provider>, lastLT: nat)
    | Publish(w: nat, acknowledged: bool)
    | WriteLT(w: nat, applied: bool)
    | Abort(w: nat)

  function PhaseOf(s: State, w: nat): Phase {
    if w in s.workers then s.workers[w] else Idle
  }

  /** The scanned providers whose key is not known yet, in order. */
  function Fresh(scanned: seq<Provider>, known: set<string>): seq<Provider> {
    if scanned == [] then [] else
    var p := scanned[|scanned| - 1];
    Fresh(scanned[..|scanned| - 1], known) + if Lower(p.publicKey) in known then [] else [p]
  }

  function PublishedKeys(published: seq<MasterResult>): set<string> {
    if published == [] then {} else
    PublishedKeys(published[..|published| - 1]) + Keys(published[|published| - 1].newProviders)
  }

  function Reported(s: State): set<string> {
    LowerAll(s.known) + PublishedKeys(s.published)
  }

  ghost predicate Enabled(s: State, step: Step) {
    match step
    case Grow(t) => History(s.chain + [t])
    case AddKnown(_) => true
    case BackendWritesLT(i) => i < |s.published|
    case ReadLT(w) => PhaseOf(s, w).Idle?
    case ReadKnown(w) => PhaseOf(s, w).HasLT?
    case ScanStep(w, collected, stop, scanned, lastLT) =>
      PhaseOf(s, w).HasKnown? && FetchAndScan(s.chain, PhaseOf(s, w).fromLT, collected, stop, scanned, lastLT)
    case Publish(w, _) => PhaseOf(s, w).Scanned?
    case WriteLT(w, _) => PhaseOf(s, w).Published?
    case Abort(_) => true
  }

  ghost function SetPhase(s: State, w: nat, ph: Phase): State {
    s.(workers := s.workers[w := ph])
  }

  ghost function StoreLT(s: State, lt: nat): State {
    s.(checkpoint := lt, stored := s.stored + {lt})
  }

  ghost function AfterScan(s: State, w: nat, collected: seq<RawTx>, scanned: seq<Provider>, lastLT: nat): State
    requires PhaseOf(s, w).HasKnown? && |collected| <= |s.chain|
  {
    var ph := PhaseOf(s, w);
    var result := MasterResult(Fresh(scanned, ph.known), lastLT, |scanned|);
    SetPhase(s, w, Scanned(ph.fromLT, result, Left(s.chain, ph.fromLT, |collected|, lastLT)))
  }

  ghost function AfterPublish(s: State, w: nat, acknowledged: bool): State
    requires PhaseOf(s, w).Scanned?
  {
    var ph := PhaseOf(s, w);
    SetPhase(s, w, if acknowledged then Published(ph.fromLT, ph.result.lastLT) else Idle)
      .(published := s.published + [ph.result], passedOver := s.passedOver + ph.left)
  }

  /** SetMasterWalletLT runs only when the scan moved past fromLT, and may fail. */
  ghost function AfterWriteLT(s: State, w: nat, applied: bool): State
    requires PhaseOf(s, w).Published?
  {
    var ph := PhaseOf(s, w);
    SetPhase(if applied && ph.fromLT < ph.lastLT then StoreLT(s, ph.lastLT) else s, w, Idle)
  }

  ghost function Apply(s: State, step: Step): State
    requires Enabled(s, step)
  {
    match step
    case Grow(t) => s.(chain := s.chain + [t])
    case AddKnown(pubkey) => s.(known := s.known + {pubkey})
    case BackendWritesLT(i) => StoreLT(s, s.published[i].lastLT)
    case ReadLT(w) => SetPhase(s, w, HasLT(s.checkpoint))
    case ReadKnown(w) => SetPhase(s, w, HasKnown(PhaseOf(s, w).fromLT, LowerAll(s.known)))
    case ScanStep(w, collected, _, scanned, lastLT) => AfterScan(s, w, collected, scanned, lastLT)
    case Publish(w, acknowledged) => AfterPublish(s, w, acknowledged)
    case WriteLT(w, applied) => AfterWriteLT(s, w, applied)
    case Abort(w) => SetPhase(s, w, Idle)
  }

  // ----- runs -----

  /**
   What a deployment allows: cut fetches, a cycle that starts while another is in progress, LT
   writes of the backend.
   */
  datatype Regime = Regime(cuts: bool, concurrent: bool, backendWrites: bool)

  /** Anything goes. */
  const ANY := Regime(true, true, true)

  /** Every fetch is complete. */
  const COMPLETE := Regime(false, true, true)

  ghost predicate Permits(g: Regime, s: State, step: Step) {
    && (!g.cuts && step.ScanStep? ==> Complete(s.chain, step.collected, step.stop))
    && (!g.concurrent && step.ReadLT? ==> AllIdle(s))
    && (!g.backendWrites ==> !step.BackendWritesLT?)
  }

  ghost predicate AllIdle(s: State) {
    forall w :: PhaseOf(s, w).Idle?
  }

  ghost predicate Next(g: Regime, s: State, s': State) {
    exists step :: Enabled(s, step) && Permits(g, s, step) && s' == Apply(s, step)
  }

  /** A deployment with no cycle in progress whose checkpoint is already accounted for. */
  ghost predicate Init(s: State) {
    && History(s.chain)
    && s.stored == {s.checkpoint}
    && s.published == [] && s.workers == map[] && s.passedOver == {}
    && CoversLT(s, s.checkpoint)
  }

  ghost predicate NextAt(path: seq<State>, g: Regime, i: nat)
    requires i + 1 < |path|
  {
    Next(g, path[i], path[i + 1])
  }

  ghost predicate IsPath(path: seq<State>, g: Regime) {
    && 0 < |path|
    && forall i :: 0 <= i < |path| - 1 ==> NextAt(path, g, i)
  }

  ghost predicate IsRun(run: seq<State>, g: Regime) {
    IsPath(run, g) && Init(run[0])
  }

  ghost function Last(path: seq<State>): State
    requires 0 < |path|
  {
    path[|path| - 1]
  }

  lemma ExtendPath(path: seq<State>, g: Regime, step: Step) returns (longer: seq<State>)
    requires IsPath(path, g) && Enabled(Last(path), step) && Permits(g, Last(path), step)
    ensures IsPath(longer, g) && longer[0] == path[0] && Last(longer) == Apply(Last(path), step)
    ensures |longer| == |path| + 1 && longer[..|path|] == path
  {
    longer := path + [Apply(Last(path), step)];
    assert Next(g, Last(path), Apply(Last(path), step));
    forall i | 0 <= i < |longer| - 1 ensures NextAt(longer, g, i) {
      if i < |path| - 1 {
        assert NextAt(path, g, i);
      }
    }
  }

  /** A fresh deployment (no stored checkpoint reads as 0) meets Init whatever the chain and the known keys. */
  lemma FreshDeployment(s: State)
    requires History(s.chain) && s.checkpoint == 0 && s.stored == {0}
    requires s.published == [] && s.workers == map[] && s.passedOver == {}
    ensures Init(s)
  {
    assert forall j :: 0 <= j < |s.chain| ==> 0 < s.chain[j].lt;
    assert KeysUpTo(s.chain, 0) == {};
  }

  // ----- the coverage invariant -----

  ghost function Accounted(s: State): set<string> {
    Reported(s) + s.passedOver
  }

  /** Every key registered at or below the LT is known, published or was passed over. */
  ghost predicate CoversLT(s: State, lt: nat) {
    lt <= Tip(s.chain) && KeysUpTo(s.chain, lt) <= Accounted(s)
  }

  ghost predicate PhaseOk(s: State, ph: Phase) {
    match ph
    case Idle => true
    case HasLT(f) => CoversLT(s, f)
    case HasKnown(f, known) => CoversLT(s, f) && known <= LowerAll(s.known)
    case Scanned(_, r, left) =>
      && r.lastLT <= Tip(s.chain) && left <= KeysUpTo(s.chain, r.lastLT)
      && KeysUpTo(s.chain, r.lastLT) <= Accounted(s) + Keys(r.newProviders) + left
    case Published(_, lt) => CoversLT(s, lt)
  }

  ghost predicate Inv(s: State) {
    && History(s.chain)
    && s.checkpoint in s.stored
    && (forall lt :: lt in s.stored ==> CoversLT(s, lt))
    && (forall i :: 0 <= i < |s.published| ==> CoversLT(s, s.published[i].lastLT))
    && (forall w :: w in s.workers ==> PhaseOk(s, s.workers[w]))
  }

  /** The chain may have grown by a transaction, and no account was lost. */
  ghost predicate Extends(s: State, s': State) {
    && (s'.chain == s.chain || (|s'.chain| == |s.chain| + 1 && s'.chain == s.chain + [s'.chain[|s.chain|]]))
    && History(s'.chain)
    && LowerAll(s.known) <= LowerAll(s'.known)
    && Accounted(s) <= Accounted(s')
  }

  lemma KeysUpToExtends(s: State, s': State, lt: nat)
    requires Extends(s, s') && lt <= Tip(s.chain)
    ensures lt <= Tip(s'.chain) && KeysUpTo(s'.chain, lt) == KeysUpTo(s.chain, lt)
  {
    if s'.chain != s.chain {
      TipGrows(s.chain, s'.chain[|s.chain|]);
      KeysUpToAppend(s.chain, s'.chain[|s.chain|], lt);
    }
  }

  lemma CoversExtends(s: State, s': State, lt: nat)
    requires Extends(s, s') && CoversLT(s, lt)
    ensures CoversLT(s', lt)
  {
    KeysUpToExtends(s, s', lt);
  }

  lemma PhaseExtends(s: State, s': State, ph: Phase)
    requires Extends(s, s') && PhaseOk(s, ph)
    ensures PhaseOk(s', ph)
  {
    match ph
    case Idle =>
    case HasLT(f) => CoversExtends(s, s', f);
    case HasKnown(f, _) => CoversExtends(s, s', f);
    case Scanned(_, r, _) => KeysUpToExtends(s, s', r.lastLT);
    case Published(_, lt) => CoversExtends(s, s', lt);
  }

  /** A step keeps the invariant when whatever it adds is itself covered. */
  lemma InvExtends(s: State, s': State)
    requires Inv(s) && Extends(s, s')
    requires s'.checkpoint in s'.stored
    requires forall lt :: lt in s'.stored ==> lt in s.stored || CoversLT(s', lt)
    requires s.published <= s'.published
    requires forall i :: |s.published| <= i < |s'.published| ==> CoversLT(s', s'.published[i].lastLT)
    requires forall w :: w in s'.workers ==>
      (w in s.workers && s'.workers[w] == s.workers[w]) || PhaseOk(s', s'.workers[w])
    ensures Inv(s')
  {
    forall lt | lt in s'.stored ensures CoversLT(s', lt) {
      if lt in s.stored { CoversExtends(s, s', lt); }
    }
    forall i | 0 <= i < |s'.published| ensures CoversLT(s', s'.published[i].lastLT) {
      if i < |s.published| { CoversExtends(s, s', s.published[i].lastLT); }
    }
    forall w | w in s'.workers ensures PhaseOk(s', s'.workers[w]) {
      if w in s.workers && s'.workers[w] == s.workers[w] { PhaseExtends(s, s', s.workers[w]); }
    }
  }

  lemma AddKnownKeepsInv(s: State, pubkey: string)
    requires Inv(s)
    ensures Inv(s.(known := s.known + {pubkey}))
  {
    var s' := s.(known := s.known + {pubkey});
    assert LowerAll(s.known) <= LowerAll(s'.known);
    InvExtends(s, s');
  }

  lemma StoreLTKeepsInv(s: State, lt: nat)
    requires Inv(s) && CoversLT(s, lt)
    ensures Inv(StoreLT(s, lt))
  {
    var s' := StoreLT(s, lt);
    assert Extends(s, s');
    CoversExtends(s, s', lt);
    InvExtends(s, s');
  }

  lemma SetPhaseKeepsInv(s: State, w: nat, ph: Phase)
    requires Inv(s) && PhaseOk(s, ph)
    ensures Inv(SetPhase(s, w, ph))
  {
    var s' := SetPhase(s, w, ph);
    assert Extends(s, s');
    PhaseExtends(s, s', ph);
    InvExtends(s, s');
  }

  lemma {:induction false} FreshKeys(scanned: seq<Provider>, known: set<string>)
    requires forall p :: p in scanned ==> Lower(p.publicKey) == p.publicKey
    ensures Keys(Fresh(scanned, known)) == Keys(scanned) - known
  {
    if scanned != [] {
      var n := |scanned| - 1;
      FreshKeys(scanned[..n], known);
      assert scanned == scanned[..n] + [scanned[n]];
      assert Keys(scanned) == Keys(scanned[..n]) + {scanned[n].publicKey};
      var f := Fresh(scanned[..n], known);
      assert Keys(f + [scanned[n]]) == Keys(f) + {scanned[n].publicKey};
      assert f + [] == f;
    }
  }

  lemma ScannedKeysAreLower(txs: seq<Tx>, fromLT: nat, scanned: seq<Provider>, lastLT: nat)
    requires ScanOutcome(txs, fromLT, scanned, lastLT)
    ensures forall p :: p in scanned ==> Lower(p.publicKey) == p.publicKey
  {
    forall p | p in scanned ensures Lower(p.publicKey) == p.publicKey {
      assert RegisteredFrom(txs, fromLT, p);
      var j: nat :| FirstToRegister(txs, fromLT, p.publicKey, j);
      RegistrationKeyIsCanonical(txs[j].message);
    }
  }

  lemma ScanKeepsInv(s: State, w: nat, collected: seq<RawTx>, stop: Stop, scanned: seq<Provider>, lastLT: nat)
    requires Inv(s) && Enabled(s, ScanStep(w, collected, stop, scanned, lastLT))
    ensures Inv(AfterScan(s, w, collected, scanned, lastLT))
  {
    var ph := PhaseOf(s, w);
    assert PhaseOk(s, ph);
    ScanAccounts(s.chain, ph.fromLT, collected, stop, scanned, lastLT);
    ScanIsSound(s.chain, ph.fromLT, collected, stop, scanned, lastLT);
    ScannedKeysAreLower(ParseAll(collected), ph.fromLT, scanned, lastLT);
    FreshKeys(scanned, ph.known);
    var left := Left(s.chain, ph.fromLT, |collected|, lastLT);
    SetPhaseKeepsInv(s, w, Scanned(ph.fromLT, MasterResult(Fresh(scanned, ph.known), lastLT, |scanned|), left));
  }

  lemma PublishKeepsInv(s: State, w: nat, acknowledged: bool)
    requires Inv(s) && PhaseOf(s, w).Scanned?
    ensures Inv(AfterPublish(s, w, acknowledged))
  {
    var ph := PhaseOf(s, w);
    assert PhaseOk(s, ph);
    var t := s.(published := s.published + [ph.result], passedOver := s.passedOver + ph.left);
    assert t.published[..|s.published|] == s.published;
    assert PublishedKeys(t.published) == PublishedKeys(s.published) + Keys(ph.result.newProviders);
    assert Extends(s, t);
    assert CoversLT(t, ph.result.lastLT);
    InvExtends(s, t);
    SetPhaseKeepsInv(t, w, if acknowledged then Published(ph.fromLT, ph.result.lastLT) else Idle);
  }

  lemma WriteLTKeepsInv(s: State, w: nat, applied: bool)
    requires Inv(s) && PhaseOf(s, w).Published?
    ensures Inv(AfterWriteLT(s, w, applied))
  {
    var ph := PhaseOf(s, w);
    assert PhaseOk(s, ph);
    if applied && ph.fromLT < ph.lastLT {
      StoreLTKeepsInv(s, ph.lastLT);
      SetPhaseKeepsInv(StoreLT(s, ph.lastLT), w, Idle);
    } else {
      SetPhaseKeepsInv(s, w, Idle);
    }
  }

  lemma StepKeepsInv(s: State, step: Step)
    requires Inv(s) && Enabled(s, step)
    ensures Inv(Apply(s, step))
  {
    match step
    case Grow(t) => InvExtends(s, Apply(s, step));
    case AddKnown(pubkey) => AddKnownKeepsInv(s, pubkey);
    case BackendWritesLT(i) => StoreLTKeepsInv(s, s.published[i].lastLT);
    case ReadLT(w) => SetPhaseKeepsInv(s, w, HasLT(s.checkpoint));
    case ReadKnown(w) =>
      assert PhaseOk(s, PhaseOf(s, w));
      SetPhaseKeepsInv(s, w, HasKnown(PhaseOf(s, w).fromLT, LowerAll(s.known)));
    case ScanStep(w, collected, stop, scanned, lastLT) => ScanKeepsInv(s, w, collected, stop, scanned, lastLT);
    case Publish(w, acknowledged) => PublishKeepsInv(s, w, acknowledged);
    case WriteLT(w, applied) => WriteLTKeepsInv(s, w, applied);
    case Abort(w) => SetPhaseKeepsInv(s, w, Idle);
  }

  // ----- what is lost -----

  /** The LTs that were ever stored or published. */
  ghost predicate Reached(s: State, lt: nat) {
    lt in s.stored || exists i :: 0 <= i < |s.published| && s.published[i].lastLT == lt
  }

  /** Some published LT is at or above a registration of the key. */
  ghost predicate Passed(s: State, k: string) {
    exists i :: 0 <= i < |s.published| && k in KeysUpTo(s.chain, s.published[i].lastLT)
  }

  /** Nothing is noted as passed over that no published LT has passed. */
  ghost predicate PassedOverIsReal(s: State) {
    forall k :: k in s.passedOver ==> Passed(s, k)
  }

  lemma PassedExtends(s: State, s': State, k: string)
    requires Inv(s) && Extends(s, s') && s.published <= s'.published && Passed(s, k)
    ensures Passed(s', k)
  {
    var i :| 0 <= i < |s.published| && k in KeysUpTo(s.chain, s.published[i].lastLT);
    assert CoversLT(s, s.published[i].lastLT);
    KeysUpToExtends(s, s', s.published[i].lastLT);
    assert s'.published[i] == s.published[i];
  }

  lemma PublishPassesReal(s: State, w: nat, acknowledged: bool)
    requires Inv(s) && PassedOverIsReal(s) && PhaseOf(s, w).Scanned?
    ensures PassedOverIsReal(AfterPublish(s, w, acknowledged))
  {
    var s' := AfterPublish(s, w, acknowledged);
    var ph := PhaseOf(s, w);
    assert PhaseOk(s, ph);
    assert s'.published[|s.published|] == ph.result;
    forall k | k in s'.passedOver ensures Passed(s', k) {
      if k in s.passedOver {
        var i :| 0 <= i < |s.published| && k in KeysUpTo(s.chain, s.published[i].lastLT);
        assert s'.published[i] == s.published[i];
      }
    }
  }

  lemma StepPassesReal(s: State, step: Step)
    requires Inv(s) && PassedOverIsReal(s) && Enabled(s, step)
    ensures PassedOverIsReal(Apply(s, step))
  {
    var s' := Apply(s, step);
    if step.Publish? {
      PublishPassesReal(s, step.w, step.acknowledged);
    } else if step.Grow? {
      forall k | k in s'.passedOver ensures Passed(s', k) {
        PassedExtends(s, s', k);
      }
    } else {
      forall k | k in s'.passedOver ensures Passed(s', k) {
        var i :| 0 <= i < |s.published| && k in KeysUpTo(s.chain, s.published[i].lastLT);
        assert s'.published[i] == s.published[i];
      }
    }
  }

  // ----- complete fetches pass nothing over -----

  ghost predicate NothingLeft(s: State) {
    s.passedOver == {} && forall w :: w in s.workers && s.workers[w].Scanned? ==> s.workers[w].left == {}
  }

  lemma CompleteStepLeavesNothing(g: Regime, s: State, step: Step)
    requires Inv(s) && NothingLeft(s) && Enabled(s, step) && Permits(g, s, step) && !g.cuts
    ensures NothingLeft(Apply(s, step))
  {
    if step.ScanStep? {
      CompleteFetchHasNoGap(s.chain, PhaseOf(s, step.w).fromLT, step.collected, step.stop);
    }
  }

  lemma {:induction false} RunKeepsInv(run: seq<State>, g: Regime, n: nat)
    requires IsRun(run, g) && n < |run|
    ensures Inv(run[n]) && PassedOverIsReal(run[n])
    ensures !g.cuts ==> NothingLeft(run[n])
  {
    if n != 0 {
      RunKeepsInv(run, g, n - 1);
      assert NextAt(run, g, n - 1);
      var step :| Enabled(run[n - 1], step) && Permits(g, run[n - 1], step) && run[n] == Apply(run[n - 1], step);
      StepKeepsInv(run[n - 1], step);
      StepPassesReal(run[n - 1], step);
      if !g.cuts {
        CompleteStepLeavesNothing(g, run[n - 1], step);
      }
    }
  }

  /**
   Checkpoint coverage. In every run, for every checkpoint value ever stored, including one a
   slower worker moved back, and every LastLT ever published, each key registered on chain at or
   below it is known, published, or was passed over by a published LT of a cut fetch.
   */
  lemma Coverage(run: seq<State>, g: Regime, n: nat, lt: nat)
    requires IsRun(run, g) && n < |run| && Reached(run[n], lt)
    ensures KeysUpTo(run[n].chain, lt) <= Reported(run[n]) + run[n].passedOver
  {
    RunKeepsInv(run, g, n);
  }

  /** A key is registered at or below an LT that was reached, and nobody reports it. */
  ghost predicate Lost(s: State, k: string) {
    k !in Reported(s) && exists lt :: Reached(s, lt) && k in KeysUpTo(s.chain, lt)
  }

  /** What is lost is exactly what a cut fetch passed over and nobody reported since. */
  lemma LostExactly(run: seq<State>, g: Regime, n: nat, k: string)
    requires IsRun(run, g) && n < |run|
    ensures Lost(run[n], k) <==> k in run[n].passedOver && k !in Reported(run[n])
  {
    var s := run[n];
    RunKeepsInv(run, g, n);
    if Lost(s, k) {
      var lt :| Reached(s, lt) && k in KeysUpTo(s.chain, lt);
      Coverage(run, g, n, lt);
    }
    if k in s.passedOver && k !in Reported(s) {
      var i :| 0 <= i < |s.published| && k in KeysUpTo(s.chain, s.published[i].lastLT);
      assert Reached(s, s.published[i].lastLT);
    }
  }

  /** When every fetch is complete, nothing is excused. */
  lemma CompleteCoverage(run: seq<State>, g: Regime, n: nat, lt: nat)
    requires IsRun(run, g) && !g.cuts && n < |run| && Reached(run[n], lt)
    ensures KeysUpTo(run[n].chain, lt) <= Reported(run[n])
  {
    RunKeepsInv(run, g, n);
    Coverage(run, g, n, lt);
  }

  // ----- a complete cycle reports everything -----

  lemma StepKeepsAccounts(s: State, step: Step)
    requires Enabled(s, step)
    ensures Accounted(s) <= Accounted(Apply(s, step))
  {
    var s' := Apply(s, step);
    match step
    case AddKnown(_) => assert LowerAll(s.known) <= LowerAll(s'.known);
    case Publish(_, _) => assert s'.published[..|s.published|] == s.published;
    case _ =>
  }

  lemma NextKeepsAccounts(g: Regime, s: State, s': State)
    requires Next(g, s, s')
    ensures Accounted(s) <= Accounted(s')
  {
    var step :| Enabled(s, step) && Permits(g, s, step) && s' == Apply(s, step);
    StepKeepsAccounts(s, step);
  }

  lemma {:induction false} AccountsGrow(run: seq<State>, g: Regime, a: nat, b: nat)
    requires IsPath(run, g) && a <= b < |run|
    ensures Accounted(run[a]) <= Accounted(run[b])
    decreases b
  {
    if a < b {
      AccountsGrow(run, g, a, b - 1);
      assert NextAt(run, g, b - 1);
      NextKeepsAccounts(g, run[b - 1], run[b]);
    }
  }

  /** What a worker with a complete scan is about to publish, together with what is accounted for, is everything. */
  lemma CompleteScanReports(s: State, w: nat, collected: seq<RawTx>, stop: Stop, scanned: seq<Provider>, lastLT: nat)
    requires Inv(s) && Enabled(s, ScanStep(w, collected, stop, scanned, lastLT)) && Complete(s.chain, collected, stop)
    ensures KeysUpTo(s.chain, Tip(s.chain)) <= Accounted(s) + Keys(Fresh(scanned, PhaseOf(s, w).known))
  {
    var ph := PhaseOf(s, w);
    assert PhaseOk(s, ph);
    CompleteScanFinds(s.chain, ph.fromLT, collected, stop, scanned, lastLT);
    KeysSplit(s.chain, ph.fromLT);
    ScannedKeysAreLower(ParseAll(collected), ph.fromLT, scanned, lastLT);
    FreshKeys(scanned, ph.known);
  }

  lemma PublishAccounts(s: State, w: nat, acknowledged: bool)
    requires PhaseOf(s, w).Scanned?
    ensures Keys(PhaseOf(s, w).result.newProviders) <= Accounted(AfterPublish(s, w, acknowledged))
  {
    var s' := AfterPublish(s, w, acknowledged);
    assert s'.published[..|s.published|] == s.published;
  }

  /** In s the worker makes a complete scan, and in t it is about to publish what it found. */
  ghost predicate CompleteCycle(s: State, t: State, w: nat) {
    exists collected, stop, scanned, lastLT ::
      && Enabled(s, ScanStep(w, collected, stop, scanned, lastLT)) && Complete(s.chain, collected, stop)
      && PhaseOf(t, w).Scanned? && PhaseOf(t, w).result.newProviders == Fresh(scanned, PhaseOf(s, w).known)
  }

  lemma CycleAccounts(s: State, t: State, w: nat)
    requires Inv(s) && CompleteCycle(s, t, w)
    ensures PhaseOf(t, w).Scanned?
    ensures KeysUpTo(s.chain, Tip(s.chain)) <= Accounted(s) + Keys(PhaseOf(t, w).result.newProviders)
  {
    var collected, stop, scanned, lastLT :|
      && Enabled(s, ScanStep(w, collected, stop, scanned, lastLT)) && Complete(s.chain, collected, stop)
      && PhaseOf(t, w).result.newProviders == Fresh(scanned, PhaseOf(s, w).known);
    CompleteScanReports(s, w, collected, stop, scanned, lastLT);
  }

  lemma CycleReports(s: State, t: State, t': State, w: nat, acknowledged: bool)
    requires Inv(s) && CompleteCycle(s, t, w) && PhaseOf(t, w).Scanned? && t' == AfterPublish(t, w, acknowledged)
    requires Accounted(s) <= Accounted(t')
    ensures KeysUpTo(s.chain, Tip(s.chain)) <= Accounted(t')
  {
    CycleAccounts(s, t, w);
    PublishAccounts(t, w, acknowledged);
  }

  lemma CycleReportsIn(run: seq<State>, g: Regime, a: nat, t: State, t': State, w: nat, acknowledged: bool)
    requires IsRun(run, g) && a < |run| && CompleteCycle(run[a], t, w) && PhaseOf(t, w).Scanned?
    requires t' == AfterPublish(t, w, acknowledged) && Accounted(run[a]) <= Accounted(t')
    ensures KeysUpTo(run[a].chain, Tip(run[a].chain)) <= Accounted(t')
  {
    RunKeepsInv(run, g, a);
    CycleReports(run[a], t, t', w, acknowledged);
  }

  lemma CompletePassesNothing(run: seq<State>, g: Regime, n: nat)
    requires IsRun(run, g) && n < |run|
    ensures !g.cuts ==> run[n].passedOver == {}
  {
    RunKeepsInv(run, g, n);
  }

  /**
   A complete cycle that published has reported every registration that was on chain when it
   fetched, whatever happened between its scan and its publish, up to what other, cut fetches
   passed over.
   */
  lemma CompleteCycleReports(run: seq<State>, g: Regime, a: nat, b: nat, w: nat, acknowledged: bool)
    requires IsRun(run, g) && a < b < |run| - 1 && CompleteCycle(run[a], run[b], w)
    requires PhaseOf(run[b], w).Scanned? && run[b + 1] == AfterPublish(run[b], w, acknowledged)
    ensures KeysUpTo(run[a].chain, Tip(run[a].chain)) <= Reported(run[b + 1]) + run[b + 1].passedOver
    ensures !g.cuts ==> run[b + 1].passedOver == {}
  {
    AccountsGrow(run, g, a, b + 1);
    CycleReportsIn(run, g, a, run[b], run[b + 1], w, acknowledged);
    CompletePassesNothing(run, g, b + 1);
  }
}
