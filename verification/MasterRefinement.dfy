/**
 What checkpointed scanning amounts to: with complete fetches it refines one pass over the whole
 history; and the checkpoint is monotone when cycles are serialized and only workers write it.
 */
module MasterRefinement {
  import opened Common
  import opened Strings
  import opened Chain
  import opened Paging
  import opened MasterScan
  import opened MasterCoverage
  import opened MasterProtocol

  /** One scan over all of a history. */
  ghost predicate FullScan(h: seq<RawTx>, providers: seq<Provider>) {
    exists lastLT :: ScanOutcome(ParseAll(h), 0, providers, lastLT)
  }

  lemma FullScanFinds(h: seq<RawTx>, providers: seq<Provider>, lastLT: nat, j: nat)
    requires History(h) && ScanOutcome(ParseAll(h), 0, providers, lastLT)
    requires j < |h| && KeyOf(h[j]).Some?
    ensures KeyOf(h[j]).value in Keys(providers)
  {
    ParseAllMembers(h);
    assert Registers(ParseTx(h[j]).value, 0, KeyOf(h[j]).value);
  }

  lemma FullScanIsOnChain(h: seq<RawTx>, providers: seq<Provider>, lastLT: nat, key: string)
    requires History(h) && ScanOutcome(ParseAll(h), 0, providers, lastLT) && key in Keys(providers)
    ensures key in KeysUpTo(h, Tip(h))
  {
    ScanFindsExactly(ParseAll(h), 0, providers, lastLT, key);
    var t :| t in ParseAll(h) && Registers(t, 0, key);
    ParseAllMembers(h);
    var j :| 0 <= j < |h| && ParseTx(h[j]) == Some(t);
    assert KeyOf(h[j]) == Some(key) && h[j].lt <= Tip(h);
  }

  lemma FullScanKeys(h: seq<RawTx>, providers: seq<Provider>)
    requires History(h) && FullScan(h, providers)
    ensures Keys(providers) == KeysUpTo(h, Tip(h))
  {
    var lastLT :| ScanOutcome(ParseAll(h), 0, providers, lastLT);
    forall k | k in KeysUpTo(h, Tip(h)) ensures k in Keys(providers) {
      var j :| 0 <= j < |h| && h[j].lt <= Tip(h) && KeyOf(h[j]).Some? && KeyOf(h[j]).value == k;
      FullScanFinds(h, providers, lastLT, j);
    }
    forall k | k in Keys(providers) ensures k in KeysUpTo(h, Tip(h)) {
      FullScanIsOnChain(h, providers, lastLT, k);
    }
  }

  lemma KeysOfPrefix(h: seq<RawTx>, lt: nat)
    requires History(h)
    ensures var below := h[..AtOrBelow(h, lt)]; History(below) && KeysUpTo(below, Tip(below)) == KeysUpTo(h, lt)
  {
    var n := AtOrBelow(h, lt);
    NotAboveSplits(h, lt, |h|);
    HistoryPrefix(h, n);
    var below := h[..n];
    assert forall j :: 0 <= j < n ==> below[j] == h[j] && below[j].lt <= Tip(below);
    forall k | k in KeysUpTo(h, lt) ensures k in KeysUpTo(below, Tip(below)) {
      var j :| 0 <= j < |h| && h[j].lt <= lt && KeyOf(h[j]).Some? && KeyOf(h[j]).value == k;
      assert j < n && below[j] == h[j];
    }
  }

  // ----- runs in which the known keys come from the chain -----

  function OnChain(s: State): set<string>
  {
    set j | 0 <= j < |s.chain| && KeyOf(s.chain[j]).Some? :: KeyOf(s.chain[j]).value
  }

  lemma OnChainIsKeysUpToTip(s: State)
    requires History(s.chain)
    ensures OnChain(s) == KeysUpTo(s.chain, Tip(s.chain))
  {
    assert forall j :: 0 <= j < |s.chain| ==> s.chain[j].lt <= Tip(s.chain);
  }

  ghost predicate Sound(s: State) {
    && Reported(s) <= OnChain(s)
    && forall w :: w in s.workers && s.workers[w].Scanned? ==> Keys(s.workers[w].result.newProviders) <= OnChain(s)
  }

  /** The backend adds a provider row only from a published result. */
  ghost predicate SoundStep(s: State, step: Step) {
    step.AddKnown? ==> Lower(step.pubkey) in PublishedKeys(s.published)
  }

  ghost predicate SoundNext(s: State, s': State) {
    exists step :: Enabled(s, step) && Permits(COMPLETE, s, step) && SoundStep(s, step) && s' == Apply(s, step)
  }

  ghost predicate IsSoundRun(run: seq<State>) {
    && 0 < |run|
    && Init(run[0]) && LowerAll(run[0].known) <= OnChain(run[0])
    && forall i :: 0 <= i < |run| - 1 ==> SoundNext(run[i], run[i + 1])
  }

  lemma OnChainGrows(s: State, t: RawTx)
    ensures OnChain(s) <= OnChain(s.(chain := s.chain + [t]))
  {
    var s' := s.(chain := s.chain + [t]);
    forall k | k in OnChain(s) ensures k in OnChain(s') {
      var j :| 0 <= j < |s.chain| && KeyOf(s.chain[j]).Some? && KeyOf(s.chain[j]).value == k;
      assert s'.chain[j] == s.chain[j];
    }
  }

  lemma PublishStaysSound(s: State, w: nat, acknowledged: bool)
    requires Sound(s) && PhaseOf(s, w).Scanned?
    ensures Sound(AfterPublish(s, w, acknowledged))
  {
    var s' := AfterPublish(s, w, acknowledged);
    assert s'.published[..|s.published|] == s.published;
    assert PublishedKeys(s'.published) == PublishedKeys(s.published) + Keys(PhaseOf(s, w).result.newProviders);
  }

  lemma ScanStaysSound(s: State, w: nat, collected: seq<RawTx>, stop: Stop, scanned: seq<Provider>, lastLT: nat)
    requires Inv(s) && Sound(s) && Enabled(s, ScanStep(w, collected, stop, scanned, lastLT))
    ensures Sound(AfterScan(s, w, collected, scanned, lastLT))
  {
    var ph := PhaseOf(s, w);
    assert PhaseOk(s, ph);
    ScanIsSound(s.chain, ph.fromLT, collected, stop, scanned, lastLT);
    OnChainIsKeysUpToTip(s);
    ScannedKeysAreLower(ParseAll(collected), ph.fromLT, scanned, lastLT);
    FreshKeys(scanned, ph.known);
  }

  lemma StepStaysSound(s: State, step: Step)
    requires Inv(s) && Sound(s) && Enabled(s, step) && SoundStep(s, step)
    ensures Sound(Apply(s, step))
  {
    match step
    case Grow(t) => OnChainGrows(s, t);
    case AddKnown(pubkey) =>
      assert LowerAll(s.known + {pubkey}) == LowerAll(s.known) + {Lower(pubkey)};
    case ScanStep(w, collected, stop, scanned, lastLT) => ScanStaysSound(s, w, collected, stop, scanned, lastLT);
    case Publish(w, acknowledged) => PublishStaysSound(s, w, acknowledged);
    case _ =>
  }

  lemma {:induction false} SoundRunInvariant(run: seq<State>, n: nat)
    requires IsSoundRun(run) && n < |run|
    ensures Inv(run[n]) && Sound(run[n]) && NothingLeft(run[n])
  {
    if n != 0 {
      SoundRunInvariant(run, n - 1);
      var s := run[n - 1];
      assert SoundNext(s, run[n - 1 + 1]);
      var step :| Enabled(s, step) && Permits(COMPLETE, s, step) && SoundStep(s, step) && run[n] == Apply(s, step);
      StepKeepsInv(s, step);
      StepStaysSound(s, step);
      CompleteStepLeavesNothing(COMPLETE, s, step);
    }
  }

  lemma FullScanBelow(h: seq<RawTx>, lt: nat, below: seq<Provider>)
    requires History(h) && FullScan(h[..AtOrBelow(h, lt)], below)
    ensures Keys(below) == KeysUpTo(h, lt)
  {
    KeysOfPrefix(h, lt);
    FullScanKeys(h[..AtOrBelow(h, lt)], below);
  }

  lemma ReportedIsSandwiched(run: seq<State>, n: nat)
    requires IsSoundRun(run) && n < |run|
    ensures History(run[n].chain)
    ensures KeysUpTo(run[n].chain, run[n].checkpoint) <= Reported(run[n])
    ensures Reported(run[n]) <= KeysUpTo(run[n].chain, Tip(run[n].chain))
  {
    var s := run[n];
    SoundRunInvariant(run, n);
    OnChainIsKeysUpToTip(s);
    assert CoversLT(s, s.checkpoint);
  }

  /**
   Incremental scanning refines a full scan. Compare any reachable state with one pass over the
   history up to the checkpoint (`below`) and one over all of it (`all`): the reported keys
   restricted to registrations at or below the checkpoint are exactly what the first finds,
   nothing is reported that the second would not find, and the three agree once no
   registration lies above the checkpoint.
   */
  lemma IncrementalRefinesFullScan(run: seq<State>, n: nat, below: seq<Provider>, all: seq<Provider>)
    requires IsSoundRun(run) && n < |run|
    requires FullScan(run[n].chain[..AtOrBelow(run[n].chain, run[n].checkpoint)], below)
    requires FullScan(run[n].chain, all)
    ensures Keys(below) == Reported(run[n]) * KeysUpTo(run[n].chain, run[n].checkpoint)
    ensures Keys(below) <= Reported(run[n]) <= Keys(all)
    ensures Keys(all) <= KeysUpTo(run[n].chain, run[n].checkpoint) ==> Reported(run[n]) == Keys(all)
  {
    var s := run[n];
    ReportedIsSandwiched(run, n);
    FullScanBelow(s.chain, s.checkpoint, below);
    FullScanKeys(s.chain, all);
  }

  // ----- serialized cycles -----

  /** A cycle starts only when all workers are idle, and only workers write the checkpoint. */
  predicate IsSerial(g: Regime) {
    !g.concurrent && !g.backendWrites
  }

  /** At most one worker is busy, and it started from the current checkpoint. */
  ghost predicate Serial(s: State) {
    && (forall w, v :: !PhaseOf(s, w).Idle? && !PhaseOf(s, v).Idle? ==> w == v)
    && (forall w :: !PhaseOf(s, w).Idle? ==> PhaseOf(s, w).fromLT == s.checkpoint)
  }

  lemma SerialStepAdvances(g: Regime, s: State, step: Step)
    requires IsSerial(g) && Serial(s) && Enabled(s, step) && Permits(g, s, step)
    ensures Serial(Apply(s, step)) && s.checkpoint <= Apply(s, step).checkpoint
  {
    var s' := Apply(s, step);
    match step
    case ReadLT(w) =>
      assert forall v :: PhaseOf(s', v) == if v == w then HasLT(s.checkpoint) else PhaseOf(s, v);
    case ReadKnown(w) =>
      assert forall v :: v != w ==> PhaseOf(s', v) == PhaseOf(s, v);
    case ScanStep(w, _, _, _, _) =>
      assert forall v :: v != w ==> PhaseOf(s', v) == PhaseOf(s, v);
    case Publish(w, _) =>
      assert forall v :: v != w ==> PhaseOf(s', v) == PhaseOf(s, v);
    case WriteLT(w, _) =>
      assert forall v :: PhaseOf(s', v) == if v == w then Idle else PhaseOf(s, v);
    case Abort(w) =>
      assert forall v :: PhaseOf(s', v) == if v == w then Idle else PhaseOf(s, v);
    case Grow(_) =>
      assert forall v :: PhaseOf(s', v) == PhaseOf(s, v);
    case AddKnown(_) =>
      assert forall v :: PhaseOf(s', v) == PhaseOf(s, v);
    case BackendWritesLT(_) =>
  }

  lemma {:induction false} SerialRunIsSerial(run: seq<State>, g: Regime, n: nat)
    requires IsSerial(g) && IsRun(run, g) && n < |run|
    ensures Serial(run[n])
  {
    if n != 0 {
      SerialRunIsSerial(run, g, n - 1);
      assert NextAt(run, g, n - 1);
      var step :| Enabled(run[n - 1], step) && Permits(g, run[n - 1], step) && run[n] == Apply(run[n - 1], step);
      SerialStepAdvances(g, run[n - 1], step);
    }
  }

  /** With serialized cycles and no LT writes of the backend the checkpoint never decreases, cut fetches or not. */
  lemma {:induction false} SerialCheckpointMonotone(run: seq<State>, g: Regime, m: nat, n: nat)
    requires IsSerial(g) && IsRun(run, g) && m <= n < |run|
    ensures run[m].checkpoint <= run[n].checkpoint
    decreases n
  {
    if m < n {
      SerialCheckpointMonotone(run, g, m, n - 1);
      SerialRunIsSerial(run, g, n - 1);
      assert NextAt(run, g, n - 1);
      var step :| Enabled(run[n - 1], step) && Permits(g, run[n - 1], step) && run[n] == Apply(run[n - 1], step);
      SerialStepAdvances(g, run[n - 1], step);
    }
  }

  // ----- what serialized cycles lose, they lose for good -----

  /** Since the checkpoint was c0 and p0 published, every cycle has scanned from c0 or above. */
  ghost predicate Since(c0: nat, p0: set<string>, s: State) {
    && c0 <= s.checkpoint
    && (forall w :: !PhaseOf(s, w).Idle? ==> c0 <= PhaseOf(s, w).fromLT)
    && (forall w :: PhaseOf(s, w).Scanned? ==> Keys(PhaseOf(s, w).result.newProviders) <= KeysAbove(s.chain, c0))
    && PublishedKeys(s.published) <= p0 + KeysAbove(s.chain, c0)
  }

  lemma ScanStaysAbove(s: State, c0: nat, w: nat, collected: seq<RawTx>, stop: Stop, scanned: seq<Provider>,
                       lastLT: nat)
    requires Enabled(s, ScanStep(w, collected, stop, scanned, lastLT)) && c0 <= PhaseOf(s, w).fromLT
    ensures Keys(Fresh(scanned, PhaseOf(s, w).known)) <= KeysAbove(s.chain, c0)
  {
    var ph := PhaseOf(s, w);
    ScannedKeysAreLower(ParseAll(collected), ph.fromLT, scanned, lastLT);
    FreshKeys(scanned, ph.known);
    forall k | k in Keys(scanned) ensures k in KeysAbove(s.chain, c0) {
      var j := ScannedKeyIsPassed(s.chain, ph.fromLT, collected, stop, scanned, lastLT, k);
      assert KeyOf(s.chain[j]).value == k;
    }
  }

  lemma SetPhaseSince(c0: nat, p0: set<string>, s: State, w: nat, ph: Phase)
    requires Since(c0, p0, s) && (!ph.Idle? ==> c0 <= ph.fromLT)
    requires ph.Scanned? ==> Keys(ph.result.newProviders) <= KeysAbove(s.chain, c0)
    ensures Since(c0, p0, SetPhase(s, w, ph))
  {
    assert forall v :: PhaseOf(SetPhase(s, w, ph), v) == if v == w then ph else PhaseOf(s, v);
  }

  lemma GrowSince(c0: nat, p0: set<string>, s: State, t: RawTx)
    requires Since(c0, p0, s)
    ensures Since(c0, p0, s.(chain := s.chain + [t]))
  {
    KeysAboveGrow(s.chain, t, c0);
    assert forall v :: PhaseOf(s.(chain := s.chain + [t]), v) == PhaseOf(s, v);
  }

  lemma PublishSince(c0: nat, p0: set<string>, s: State, w: nat, acknowledged: bool)
    requires Since(c0, p0, s) && PhaseOf(s, w).Scanned?
    ensures Since(c0, p0, AfterPublish(s, w, acknowledged))
  {
    var ph := PhaseOf(s, w);
    var t := s.(published := s.published + [ph.result], passedOver := s.passedOver + ph.left);
    assert t.published[..|s.published|] == s.published;
    assert forall v :: PhaseOf(t, v) == PhaseOf(s, v);
    SetPhaseSince(c0, p0, t, w, if acknowledged then Published(ph.fromLT, ph.result.lastLT) else Idle);
  }

  lemma WriteSince(c0: nat, p0: set<string>, s: State, w: nat, applied: bool)
    requires Since(c0, p0, s) && PhaseOf(s, w).Published?
    ensures Since(c0, p0, AfterWriteLT(s, w, applied))
  {
    var ph := PhaseOf(s, w);
    var t := if applied && ph.fromLT < ph.lastLT then StoreLT(s, ph.lastLT) else s;
    assert forall v :: PhaseOf(t, v) == PhaseOf(s, v);
    SetPhaseSince(c0, p0, t, w, Idle);
  }

  lemma StepSince(g: Regime, c0: nat, p0: set<string>, s: State, step: Step)
    requires IsSerial(g) && Since(c0, p0, s) && Enabled(s, step) && Permits(g, s, step)
    ensures Since(c0, p0, Apply(s, step))
  {
    match step
    case Grow(t) => GrowSince(c0, p0, s, t);
    case AddKnown(pubkey) =>
      assert forall v :: PhaseOf(Apply(s, step), v) == PhaseOf(s, v);
    case ReadLT(w) => SetPhaseSince(c0, p0, s, w, HasLT(s.checkpoint));
    case ReadKnown(w) => SetPhaseSince(c0, p0, s, w, HasKnown(PhaseOf(s, w).fromLT, LowerAll(s.known)));
    case ScanStep(w, collected, stop, scanned, lastLT) =>
      ScanStaysAbove(s, c0, w, collected, stop, scanned, lastLT);
      SetPhaseSince(c0, p0, s, w, PhaseOf(Apply(s, step), w));
    case Publish(w, acknowledged) => PublishSince(c0, p0, s, w, acknowledged);
    case WriteLT(w, applied) => WriteSince(c0, p0, s, w, applied);
    case Abort(w) => SetPhaseSince(c0, p0, s, w, Idle);
    case BackendWritesLT(_) =>
  }

  lemma {:induction false} RunSince(run: seq<State>, g: Regime, m: nat, n: nat)
    requires IsSerial(g) && IsRun(run, g) && m <= n < |run| && AllIdle(run[m])
    ensures Since(run[m].checkpoint, PublishedKeys(run[m].published), run[n])
    decreases n
  {
    if m < n {
      RunSince(run, g, m, n - 1);
      assert NextAt(run, g, n - 1);
      var step :| Enabled(run[n - 1], step) && Permits(g, run[n - 1], step) && run[n] == Apply(run[n - 1], step);
      StepSince(g, run[m].checkpoint, PublishedKeys(run[m].published), run[n - 1], step);
    }
  }

  /**
   With serialized cycles and no LT writes of the backend, a key that is unreported between two
   cycles is reported later only if it is registered above the checkpoint, or became known in
   another way. So a registration that the checkpoint has passed is lost for good.
   */
  lemma UnreportedForGood(run: seq<State>, g: Regime, m: nat, n: nat, k: string)
    requires IsSerial(g) && IsRun(run, g) && m <= n < |run| && AllIdle(run[m]) && k !in Reported(run[m])
    ensures k in Reported(run[n]) ==> k in LowerAll(run[n].known) || k in KeysAbove(run[n].chain, run[m].checkpoint)
  {
    RunSince(run, g, m, n);
  }
}
