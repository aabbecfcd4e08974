/**
 scan_wallets as a protocol: any number of workers interleave loading the wallet rows, scanning
 wallet after wallet, publishing the merged result and writing the advanced LTs, over growing
 wallet histories, and each may stop between any two calls.
 */
module WalletProtocol {
  import opened Strings
  import opened Domain
  import opened Chain
  import opened Paging
  import opened WalletScan
  import opened WalletCoverage
  import opened WalletMerge

  datatype Wallet = Wallet(publicKey: string, address: string, lt: nat)

  datatype Row = Row(address: string, lt: nat)

  datatype WalletsResult = WalletsResult(
    contracts: seq<StorageContract>, relations: seq<Relation>, updatedWallets: seq<Wallet>)

  /** A worker in the wallet loop before wallets[k], or holding the index of its published result. */
  datatype Phase =
    | Idle
    | Scanning(wallets: seq<Wallet>, k: nat, all: seq<StorageContract>, updated: seq<Wallet>, missed: set<Missed>)
    | Published(i: nat)

  /** `stored` (every LT a wallet's row ever had), `published` and `missed` are history. */
  datatype State = State(
    chains: map<string, seq<RawTx>>,
    rows: map<string, Row>,
    stored: set<(string, nat)>,
    published: seq<WalletsResult>,
    missed: set<Missed>,
    workers: map<nat, Phase>)

  datatype Step =
    | Grow(address: string, t: RawTx)
    | AddRow(pubkey: string, address: string)
    | BackendWrites(i: nat, lts: map<string, nat>)
    | Load(w: nat, wallets: seq<Wallet>)
    | ScanOne(w: nat, collected: seq<RawTx>, stop: Stop, lookup: Lookup, contracts: seq<StorageContract>, lastLT: nat)
    | SkipOne(w: nat)
    | Publish(w: nat, contracts: seq<StorageContract>, relations: seq<Relation>, acknowledged: bool)
    | WriteLTs(w: nat, lts: map<string, nat>)
    | Abort(w: nat)

  function PhaseOf(s: State, w: nat): Phase {
    if w in s.workers then s.workers[w] else Idle
  }

  function ChainOf(s: State, address: string): seq<RawTx> {
    if address in s.chains then s.chains[address] else []
  }

  /** UpdateLT: each row whose key is the lower-cased key of an updated wallet takes that wallet's LT. */
  ghost predicate Chosen(s: State, updated: seq<Wallet>, lts: map<string, nat>) {
    && lts.Keys <= s.rows.Keys
    && forall pk :: pk in lts ==> exists u :: u in updated && Lower(u.publicKey) == pk && u.lt == lts[pk]
  }

  ghost predicate InLoop(s: State, w: nat) {
    PhaseOf(s, w).Scanning? && PhaseOf(s, w).k < |PhaseOf(s, w).wallets|
  }

  ghost predicate ScanEnabled(s: State, w: nat, collected: seq<RawTx>, stop: Stop, lookup: Lookup,
                              contracts: seq<StorageContract>, lastLT: nat)
  {
    && InLoop(s, w)
    && var wallet := PhaseOf(s, w).wallets[PhaseOf(s, w).k];
    && IsUserFriendly(wallet.address)
    && FetchAndScan(ChainOf(s, wallet.address), wallet.lt, wallet.address, collected, stop, lookup, contracts, lastLT)
  }

  ghost predicate Enabled(s: State, step: Step) {
    match step
    case Grow(address, t) => History(ChainOf(s, address) + [t])
    case AddRow(pubkey, _) => pubkey !in s.rows && Lower(pubkey) == pubkey
    case BackendWrites(i, lts) => i < |s.published| && Chosen(s, s.published[i].updatedWallets, lts)
    case Load(w, wallets) => PhaseOf(s, w).Idle? && forall x :: x in wallets ==> IsRow(s, x)
    case ScanOne(w, collected, stop, lookup, contracts, lastLT) =>
      ScanEnabled(s, w, collected, stop, lookup, contracts, lastLT)
    case SkipOne(w) => InLoop(s, w)
    case Publish(w, contracts, _, _) =>
      && PhaseOf(s, w).Scanning? && PhaseOf(s, w).k == |PhaseOf(s, w).wallets|
      && Enumerates(contracts, Merged(PhaseOf(s, w).all))
    case WriteLTs(w, lts) =>
      PhaseOf(s, w).Published? && PhaseOf(s, w).i < |s.published| &&
          Chosen(s, s.published[PhaseOf(s, w).i].updatedWallets, lts)
    case Abort(_) => true
  }

  ghost predicate IsRow(s: State, x: Wallet) {
    x.publicKey in s.rows && s.rows[x.publicKey] == Row(x.address, x.lt)
  }

  ghost function SetPhase(s: State, w: nat, ph: Phase): State {
    s.(workers := s.workers[w := ph])
  }

  ghost function StoreLTs(s: State, lts: map<string, nat>): State {
    s.(rows := map pk | pk in s.rows :: if pk in lts then Row(s.rows[pk].address, lts[pk]) else s.rows[pk],
       stored := s.stored + set pk | pk in s.rows && pk in lts :: (s.rows[pk].address, lts[pk]))
  }

  ghost function AfterScanOne(s: State, w: nat, n: nat, lookup: Lookup, contracts: seq<StorageContract>,
                              lastLT: nat): State
    requires InLoop(s, w) && n <= |ChainOf(s, PhaseOf(s, w).wallets[PhaseOf(s, w).k].address)|
  {
    var ph := PhaseOf(s, w);
    var x := ph.wallets[ph.k];
    SetPhase(s, w, Scanning(ph.wallets, ph.k + 1, ph.all + contracts,
                            if x.lt < lastLT then ph.updated + [x.(lt := lastLT)] else ph.updated,
                            ph.missed + MissedBy(ChainOf(s, x.address), x.address, x.lt, n, lookup, lastLT)))
  }

  ghost function Skipped(ph: Phase): Phase
    requires ph.Scanning?
  {
    Scanning(ph.wallets, ph.k + 1, ph.all, ph.updated, ph.missed)
  }

  ghost function AfterSkipOne(s: State, w: nat): State
    requires InLoop(s, w)
  {
    SetPhase(s, w, Skipped(PhaseOf(s, w)))
  }

  ghost function AfterPublish(s: State, w: nat, contracts: seq<StorageContract>, relations: seq<Relation>,
                              acknowledged: bool): State
    requires PhaseOf(s, w).Scanning?
  {
    var ph := PhaseOf(s, w);
    SetPhase(s, w, if acknowledged then Published(|s.published|) else Idle)
      .(published := s.published + [WalletsResult(contracts, relations, ph.updated)], missed := s.missed + ph.missed)
  }

  ghost function Apply(s: State, step: Step): State
    requires Enabled(s, step)
  {
    match step
    case Grow(address, t) => s.(chains := s.chains[address := ChainOf(s, address) + [t]])
    case AddRow(pubkey, address) => s.(rows := s.rows[pubkey := Row(address, 0)], stored := s.stored + {(address, 0)})
    case BackendWrites(_, lts) => StoreLTs(s, lts)
    case Load(w, wallets) => SetPhase(s, w, Scanning(wallets, 0, [], [], {}))
    case ScanOne(w, collected, _, lookup, contracts, lastLT) =>
      AfterScanOne(s, w, |collected|, lookup, contracts, lastLT)
    case SkipOne(w) => AfterSkipOne(s, w)
    case Publish(w, contracts, relations, acknowledged) => AfterPublish(s, w, contracts, relations, acknowledged)
    case WriteLTs(w, lts) => SetPhase(StoreLTs(s, lts), w, Idle)
    case Abort(w) => SetPhase(s, w, Idle)
  }

  // ----- runs -----

  /** What a deployment allows: cut fetches, and lookups that give no data for a contract they are asked about. */
  datatype Regime = Regime(cuts: bool, omits: bool)

  /** Anything goes. */
  const ANY := Regime(true, true)

  /** The wallet that a worker scans next. */
  ghost function NextWallet(s: State, w: nat): Wallet
    requires InLoop(s, w)
  {
    PhaseOf(s, w).wallets[PhaseOf(s, w).k]
  }

  ghost predicate Permits(g: Regime, s: State, step: Step)
    requires Enabled(s, step)
  {
    step.ScanOne? ==>
      var h := ChainOf(s, NextWallet(s, step.w).address);
      && (!g.cuts ==> Complete(h, step.collected, step.stop))
      && (!g.omits ==> AnswersAll(h, |step.collected|, step.lookup))
  }

  ghost predicate Next(g: Regime, s: State, s': State) {
    exists step :: Enabled(s, step) && Permits(g, s, step) && s' == Apply(s, step)
  }

  /** Rows with lower-case keys whose LTs are already accounted for; no cycle in progress. */
  ghost predicate Init(s: State) {
    && (forall a :: a in s.chains ==> History(s.chains[a]))
    && (forall pk :: pk in s.rows ==> Lower(pk) == pk && (s.rows[pk].address, s.rows[pk].lt) in s.stored)
    && (forall x :: x in s.stored ==> CoversLT(s, x.0, x.1))
    && s.published == [] && s.missed == {} && s.workers == map[]
  }

  ghost predicate NextAt(path: seq<State>, g: Regime, i: nat)
    requires i + 1 < |path|
  {
    Next(g, path[i], path[i + 1])
  }

  ghost predicate IsPath(path: seq<State>, g: Regime) {
    && 0 < |path|
    && forall i :: 0 <= i < |path| - 1 ==> NextAt(path, g, i)
  }

  ghost predicate IsRun(run: seq<State>, g: Regime) {
    IsPath(run, g) && Init(run[0])
  }

  ghost function Last(path: seq<State>): State
    requires 0 < |path|
  {
    path[|path| - 1]
  }

  lemma ExtendPath(path: seq<State>, g: Regime, step: Step) returns (longer: seq<State>)
    requires IsPath(path, g) && Enabled(Last(path), step) && Permits(g, Last(path), step)
    ensures IsPath(longer, g) && path <= longer && Last(longer) == Apply(Last(path), step)
  {
    longer := path + [Apply(Last(path), step)];
    assert Next(g, Last(path), Apply(Last(path), step));
    forall i | 0 <= i < |longer| - 1 ensures NextAt(longer, g, i) {
      if i < |path| - 1 {
        assert NextAt(path, g, i);
      }
    }
  }

  // ----- the coverage invariant -----

  ghost function Listed(published: seq<WalletsResult>): set<(string, string)> {
    if published == [] then {} else
    Listed(published[..|published| - 1]) + ListedIn(published[|published| - 1].contracts)
  }

  ghost predicate CoversLT(s: State, wallet: string, lt: nat) {
    Covers(ChainOf(s, wallet), wallet, lt, Listed(s.published), s.missed)
  }

  /** The wallet belongs to a row, whose key is in lower case and whose address never changes. */
  ghost predicate HasRow(s: State, x: Wallet) {
    x.publicKey in s.rows && s.rows[x.publicKey].address == x.address && Lower(x.publicKey) == x.publicKey
  }

  ghost predicate WalletOk(s: State, x: Wallet) {
    HasRow(s, x) && CoversLT(s, x.address, x.lt)
  }

  /** An advanced wallet is covered once the worker's own contracts and misses are published. */
  ghost predicate AdvanceOk(s: State, all: seq<StorageContract>, missed: set<Missed>, x: Wallet) {
    && HasRow(s, x)
    && Covers(ChainOf(s, x.address), x.address, x.lt, Listed(s.published) + ListedIn(all), s.missed + missed)
  }

  ghost predicate PhaseOk(s: State, ph: Phase) {
    match ph
    case Idle => true
    case Scanning(wallets, _, all, updated, missed) =>
      && (forall x :: x in wallets ==> WalletOk(s, x))
      && (forall x :: x in updated ==> AdvanceOk(s, all, missed, x))
    case Published(i) => i < |s.published|
  }

  ghost predicate ResultOk(s: State, r: WalletsResult) {
    forall x :: x in r.updatedWallets ==> WalletOk(s, x)
  }

  ghost predicate Inv(s: State) {
    && (forall a :: a in s.chains ==> History(s.chains[a]))
    && (forall pk :: pk in s.rows ==> Lower(pk) == pk && (s.rows[pk].address, s.rows[pk].lt) in s.stored)
    && (forall x :: x in s.stored ==> CoversLT(s, x.0, x.1))
    && (forall i :: 0 <= i < |s.published| ==> ResultOk(s, s.published[i]))
    && (forall w :: w in s.workers ==> PhaseOk(s, s.workers[w]))
  }

  lemma InvImpliesHistory(s: State, a: string)
    requires Inv(s)
    ensures History(ChainOf(s, a))
  {
  }

  /** Histories only grow, rows keep their address, and nothing listed or excused is withdrawn. */
  ghost predicate Extends(s: State, s': State) {
    && (forall a :: GrewTo(ChainOf(s, a), ChainOf(s', a)))
    && (forall pk :: pk in s.rows ==> pk in s'.rows && s'.rows[pk].address == s.rows[pk].address)
    && Listed(s.published) <= Listed(s'.published)
    && s.published <= s'.published
    && s.missed <= s'.missed
  }

  ghost predicate GrewTo(h: seq<RawTx>, g: seq<RawTx>) {
    g == h || (|g| == |h| + 1 && g == h + [g[|h|]] && History(g))
  }

  lemma CoversGrown(h: seq<RawTx>, g: seq<RawTx>, wallet: string, lt: nat,
                    listed: set<(string, string)>, missed: set<Missed>,
                    listed': set<(string, string)>, missed': set<Missed>)
    requires GrewTo(h, g) && Covers(h, wallet, lt, listed, missed) && listed <= listed' && missed <= missed'
    ensures Covers(g, wallet, lt, listed', missed')
  {
    CoversMore(h, wallet, lt, listed, missed, listed', missed');
    if g != h {
      CoversAppend(h, g[|h|], wallet, lt, listed', missed');
    }
  }

  lemma CoversExtends(s: State, s': State, wallet: string, lt: nat)
    requires Extends(s, s') && CoversLT(s, wallet, lt)
    ensures CoversLT(s', wallet, lt)
  {
    CoversGrown(ChainOf(s, wallet), ChainOf(s', wallet), wallet, lt, Listed(s.published), s.missed,
                Listed(s'.published), s'.missed);
  }

  lemma AdvanceExtends(s: State, s': State, all: seq<StorageContract>, missed: set<Missed>, x: Wallet)
    requires Extends(s, s') && AdvanceOk(s, all, missed, x)
    ensures AdvanceOk(s', all, missed, x)
  {
    CoversGrown(ChainOf(s, x.address), ChainOf(s', x.address), x.address, x.lt,
                Listed(s.published) + ListedIn(all), s.missed + missed,
                Listed(s'.published) + ListedIn(all), s'.missed + missed);
  }

  lemma WalletExtends(s: State, s': State, x: Wallet)
    requires Extends(s, s') && WalletOk(s, x)
    ensures WalletOk(s', x)
  {
    CoversExtends(s, s', x.address, x.lt);
  }

  lemma PhaseExtends(s: State, s': State, ph: Phase)
    requires Extends(s, s') && PhaseOk(s, ph)
    ensures PhaseOk(s', ph)
  {
    if ph.Scanning? {
      forall x | x in ph.wallets ensures WalletOk(s', x) { WalletExtends(s, s', x); }
      forall x | x in ph.updated ensures AdvanceOk(s', ph.all, ph.missed, x) {
        AdvanceExtends(s, s', ph.all, ph.missed, x);
      }
    }
  }

  lemma ResultExtends(s: State, s': State, r: WalletsResult)
    requires Extends(s, s') && ResultOk(s, r)
    ensures ResultOk(s', r)
  {
    forall x | x in r.updatedWallets ensures WalletOk(s', x) { WalletExtends(s, s', x); }
  }

  /** A step keeps the invariant when whatever it adds is itself covered. */
  lemma InvExtends(s: State, s': State)
    requires Inv(s) && Extends(s, s')
    requires forall a :: a in s'.chains ==> History(s'.chains[a])
    requires forall pk :: pk in s'.rows ==> Lower(pk) == pk && (s'.rows[pk].address, s'.rows[pk].lt) in s'.stored
    requires forall x :: x in s'.stored ==> x in s.stored || CoversLT(s', x.0, x.1)
    requires forall i :: |s.published| <= i < |s'.published| ==> ResultOk(s', s'.published[i])
    requires forall w :: w in s'.workers ==>
      (w in s.workers && s'.workers[w] == s.workers[w]) || PhaseOk(s', s'.workers[w])
    ensures Inv(s')
  {
    forall x | x in s'.stored ensures CoversLT(s', x.0, x.1) {
      if x in s.stored { CoversExtends(s, s', x.0, x.1); }
    }
    forall i | 0 <= i < |s'.published| ensures ResultOk(s', s'.published[i]) {
      if i < |s.published| { ResultExtends(s, s', s.published[i]); }
    }
    forall w | w in s'.workers ensures PhaseOk(s', s'.workers[w]) {
      if w in s.workers && s'.workers[w] == s.workers[w] { PhaseExtends(s, s', s.workers[w]); }
    }
  }

  lemma SetPhaseKeepsInv(s: State, w: nat, ph: Phase)
    requires Inv(s) && PhaseOk(s, ph)
    ensures Inv(SetPhase(s, w, ph))
  {
    var s' := SetPhase(s, w, ph);
    assert Extends(s, s') by {
      forall a ensures GrewTo(ChainOf(s, a), ChainOf(s', a)) { }
    }
    PhaseExtends(s, s', ph);
    InvExtends(s, s');
  }

  lemma GrowKeepsInv(s: State, address: string, t: RawTx)
    requires Inv(s) && Enabled(s, Grow(address, t))
    ensures Inv(Apply(s, Grow(address, t)))
  {
    var s' := Apply(s, Grow(address, t));
    forall a ensures GrewTo(ChainOf(s, a), ChainOf(s', a)) { }
    InvExtends(s, s');
  }

  lemma AddRowKeepsInv(s: State, pubkey: string, address: string)
    requires Inv(s) && Enabled(s, AddRow(pubkey, address))
    ensures Inv(Apply(s, AddRow(pubkey, address)))
  {
    var s' := Apply(s, AddRow(pubkey, address));
    forall a ensures GrewTo(ChainOf(s, a), ChainOf(s', a)) { }
    InvImpliesHistory(s, address);
    CoversNothing(ChainOf(s', address), address, Listed(s'.published), s'.missed);
    InvExtends(s, s');
  }

  lemma ChosenIsCovered(s: State, r: WalletsResult, lts: map<string, nat>, pk: string)
    requires ResultOk(s, r) && Chosen(s, r.updatedWallets, lts) && pk in lts
    ensures CoversLT(s, s.rows[pk].address, lts[pk])
  {
    var u :| u in r.updatedWallets && Lower(u.publicKey) == pk && u.lt == lts[pk];
    assert WalletOk(s, u);
  }

  lemma StoreLTsKeepsInv(s: State, r: WalletsResult, lts: map<string, nat>)
    requires Inv(s) && ResultOk(s, r) && Chosen(s, r.updatedWallets, lts)
    ensures Inv(StoreLTs(s, lts))
  {
    var s' := StoreLTs(s, lts);
    forall a ensures GrewTo(ChainOf(s, a), ChainOf(s', a)) { }
    assert Extends(s, s');
    forall x | x in s'.stored ensures x in s.stored || CoversLT(s', x.0, x.1) {
      if x !in s.stored {
        var pk :| pk in s.rows && pk in lts && (s.rows[pk].address, lts[pk]) == x;
        ChosenIsCovered(s, r, lts, pk);
        CoversExtends(s, s', x.0, x.1);
      }
    }
    InvExtends(s, s');
  }

  lemma LoadKeepsInv(s: State, w: nat, wallets: seq<Wallet>)
    requires Inv(s) && Enabled(s, Load(w, wallets))
    ensures Inv(Apply(s, Load(w, wallets)))
  {
    forall x | x in wallets ensures WalletOk(s, x) {
      assert IsRow(s, x);
      assert (x.address, x.lt) in s.stored;
    }
    SetPhaseKeepsInv(s, w, Scanning(wallets, 0, [], [], {}));
  }

  lemma ListedInConcat(a: seq<StorageContract>, b: seq<StorageContract>)
    ensures ListedIn(a + b) == ListedIn(a) + ListedIn(b)
  {
  }

  lemma AdvanceMore(s: State, all: seq<StorageContract>, missed: set<Missed>,
                    all': seq<StorageContract>, missed': set<Missed>, x: Wallet)
    requires AdvanceOk(s, all, missed, x) && ListedIn(all) <= ListedIn(all') && missed <= missed'
    ensures AdvanceOk(s, all', missed', x)
  {
    CoversMore(ChainOf(s, x.address), x.address, x.lt,
               Listed(s.published) + ListedIn(all), s.missed + missed,
               Listed(s.published) + ListedIn(all'), s.missed + missed');
  }

  lemma ScannedWalletAdvances(s: State, w: nat, collected: seq<RawTx>, stop: Stop, lookup: Lookup,
                              contracts: seq<StorageContract>, lastLT: nat)
    requires Inv(s) && ScanEnabled(s, w, collected, stop, lookup, contracts, lastLT)
    ensures var ph := PhaseOf(s, w); var x := ph.wallets[ph.k];
            AdvanceOk(s, ph.all + contracts,
                      ph.missed + MissedBy(ChainOf(s, x.address), x.address, x.lt, |collected|, lookup, lastLT),
                      x.(lt := lastLT))
  {
    var ph := PhaseOf(s, w);
    assert PhaseOk(s, ph);
    var x := ph.wallets[ph.k];
    assert x in ph.wallets && WalletOk(s, x);
    var h := ChainOf(s, x.address);
    InvImpliesHistory(s, x.address);
    ScanCovers(h, x.lt, x.address, collected, stop, lookup, contracts, lastLT, Listed(s.published), s.missed);
    var more := MissedBy(h, x.address, x.lt, |collected|, lookup, lastLT);
    ListedInConcat(ph.all, contracts);
    CoversMore(h, x.address, lastLT, Listed(s.published) + ListedIn(contracts), s.missed + more,
               Listed(s.published) + ListedIn(ph.all + contracts), s.missed + (ph.missed + more));
  }

  lemma ScanOneKeepsInv(s: State, w: nat, collected: seq<RawTx>, stop: Stop, lookup: Lookup,
                        contracts: seq<StorageContract>, lastLT: nat)
    requires Inv(s) && ScanEnabled(s, w, collected, stop, lookup, contracts, lastLT)
    ensures Inv(AfterScanOne(s, w, |collected|, lookup, contracts, lastLT))
  {
    var ph := PhaseOf(s, w);
    assert PhaseOk(s, ph);
    var ph' := PhaseOf(AfterScanOne(s, w, |collected|, lookup, contracts, lastLT), w);
    ScannedWalletAdvances(s, w, collected, stop, lookup, contracts, lastLT);
    ListedInConcat(ph.all, contracts);
    forall y | y in ph'.updated ensures AdvanceOk(s, ph'.all, ph'.missed, y) {
      if y in ph.updated { AdvanceMore(s, ph.all, ph.missed, ph'.all, ph'.missed, y); }
    }
    SetPhaseKeepsInv(s, w, ph');
  }

  lemma PhaseOfOk(s: State, w: nat)
    requires Inv(s)
    ensures PhaseOk(s, PhaseOf(s, w))
  {
  }

  lemma SkippedPhaseOfOk(s: State, w: nat)
    requires Inv(s) && InLoop(s, w)
    ensures PhaseOk(s, Skipped(PhaseOf(s, w)))
  {
    PhaseOfOk(s, w);
  }

  lemma SkipOneKeepsInv(s: State, w: nat)
    requires Inv(s) && InLoop(s, w)
    ensures Inv(AfterSkipOne(s, w))
  {
    SkippedPhaseOfOk(s, w);
    SetPhaseKeepsInv(s, w, Skipped(PhaseOf(s, w)));
  }

  /** Whatever a scan listed, the merged contracts list. */
  lemma MergeKeepsListed(all: seq<StorageContract>, cs: seq<StorageContract>)
    requires Enumerates(cs, Merged(all))
    ensures ListedIn(all) <= ListedIn(cs)
  {
    forall x | x in ListedIn(all) ensures x in ListedIn(cs) {
      var c, p :| c in all && p in c.providers && (p, c.address) == x;
      MergedIsExact(all);
      assert c.address in Addresses(all);
      assert EntryOf(all, Merged(all), c.address);
      ProvidersIncluded(all, c);
      var m :| m in cs && m.address == c.address;
      assert p in m.providers;
    }
  }

  lemma {:induction false} ProvidersIncluded(all: seq<StorageContract>, c: StorageContract)
    requires c in all
    ensures forall p :: p in c.providers ==> p in ProvidersOf(all, c.address)
  {
    var n := |all| - 1;
    assert all == all[..n] + [all[n]];
    if c in all[..n] {
      ProvidersIncluded(all[..n], c);
    }
  }

  lemma PublishKeepsInv(s: State, w: nat, contracts: seq<StorageContract>, relations: seq<Relation>, acknowledged: bool)
    requires Inv(s) && Enabled(s, Publish(w, contracts, relations, acknowledged))
    ensures Inv(AfterPublish(s, w, contracts, relations, acknowledged))
  {
    var ph := PhaseOf(s, w);
    assert PhaseOk(s, ph);
    var r := WalletsResult(contracts, relations, ph.updated);
    var t := s.(published := s.published + [r], missed := s.missed + ph.missed);
    assert t.published[..|s.published|] == s.published;
    assert Listed(t.published) == Listed(s.published) + ListedIn(contracts);
    forall a ensures GrewTo(ChainOf(s, a), ChainOf(t, a)) { }
    MergeKeepsListed(ph.all, contracts);
    forall x | x in ph.updated ensures WalletOk(t, x) {
      assert AdvanceOk(s, ph.all, ph.missed, x);
      CoversMore(ChainOf(s, x.address), x.address, x.lt, Listed(s.published) + ListedIn(ph.all), s.missed + ph.missed,
                 Listed(t.published), t.missed);
    }
    InvExtends(s, t);
    SetPhaseKeepsInv(t, w, if acknowledged then Published(|s.published|) else Idle);
  }

  lemma WriteKeepsInv(s: State, w: nat, lts: map<string, nat>)
    requires Inv(s) && Enabled(s, WriteLTs(w, lts))
    ensures Inv(Apply(s, WriteLTs(w, lts)))
  {
    StoreLTsKeepsInv(s, s.published[PhaseOf(s, w).i], lts);
    SetPhaseKeepsInv(StoreLTs(s, lts), w, Idle);
  }

  lemma StepKeepsInv(s: State, step: Step)
    requires Inv(s) && Enabled(s, step)
    ensures Inv(Apply(s, step))
  {
    if step.Grow? || step.AddRow? || step.BackendWrites? {
      EnvironmentKeepsInv(s, step);
    } else {
      WorkerKeepsInv(s, step);
    }
  }

  lemma EnvironmentKeepsInv(s: State, step: Step)
    requires Inv(s) && Enabled(s, step) && (step.Grow? || step.AddRow? || step.BackendWrites?)
    ensures Inv(Apply(s, step))
  {
    match step
    case Grow(address, t) => GrowKeepsInv(s, address, t);
    case AddRow(pubkey, address) => AddRowKeepsInv(s, pubkey, address);
    case BackendWrites(i, lts) => StoreLTsKeepsInv(s, s.published[i], lts);
  }

  lemma LoopKeepsInv(s: State, step: Step)
    requires Inv(s) && Enabled(s, step) && (step.ScanOne? || step.SkipOne?)
    ensures Inv(Apply(s, step))
  {
    match step
    case ScanOne(w, collected, stop, lookup, contracts, lastLT) =>
      ScanOneKeepsInv(s, w, collected, stop, lookup, contracts, lastLT);
    case SkipOne(w) => SkipOneKeepsInv(s, w);
  }

  lemma WorkerKeepsInv(s: State, step: Step)
    requires Inv(s) && Enabled(s, step) && !(step.Grow? || step.AddRow? || step.BackendWrites?)
    ensures Inv(Apply(s, step))
  {
    match step
    case Load(w, wallets) => LoadKeepsInv(s, w, wallets);
    case ScanOne(_, _, _, _, _, _) => LoopKeepsInv(s, step);
    case SkipOne(_) => LoopKeepsInv(s, step);
    case Publish(w, contracts, relations, acknowledged) => PublishKeepsInv(s, w, contracts, relations, acknowledged);
    case WriteLTs(w, lts) => WriteKeepsInv(s, w, lts);
    case Abort(w) => SetPhaseKeepsInv(s, w, Idle);
  }

  // ----- what a regime can miss -----

  /** A cut fetch is needed to leave a contract in a gap, and a lookup without data to omit one. */
  ghost predicate OnlyAllowed(g: Regime, missed: set<Missed>) {
    forall m :: m in missed ==> if m.why.LeftInGap? then g.cuts else g.omits
  }

  ghost predicate MissesAllowed(g: Regime, s: State) {
    && OnlyAllowed(g, s.missed)
    && forall w :: w in s.workers && s.workers[w].Scanning? ==> OnlyAllowed(g, s.workers[w].missed)
  }

  lemma ScanMissesAllowed(g: Regime, s: State, step: Step)
    requires Inv(s) && Enabled(s, step) && Permits(g, s, step) && step.ScanOne?
    ensures var x := NextWallet(s, step.w);
            OnlyAllowed(g, MissedBy(ChainOf(s, x.address), x.address, x.lt, |step.collected|, step.lookup, step.lastLT))
  {
    var x := NextWallet(s, step.w);
    InvImpliesHistory(s, x.address);
    if !g.cuts {
      CompleteFetchHasNoGap(ChainOf(s, x.address), x.address, x.lt, step.collected, step.stop, step.lastLT);
    }
  }

  lemma StepMissesAllowed(g: Regime, s: State, step: Step)
    requires Inv(s) && MissesAllowed(g, s) && Enabled(s, step) && Permits(g, s, step)
    ensures MissesAllowed(g, Apply(s, step))
  {
    if step.ScanOne? {
      ScanMissesAllowed(g, s, step);
    }
  }

  // ----- what is missed was passed by a published LT -----

  /** Some of the wallets has the address and the LT. */
  ghost predicate Carries(wallets: seq<Wallet>, address: string, lt: nat) {
    exists u :: u in wallets && u.address == address && u.lt == lt
  }

  /** A published result carries the LT for the wallet. */
  ghost predicate PublishedLT(s: State, wallet: string, lt: nat) {
    exists i :: 0 <= i < |s.published| && Carries(s.published[i].updatedWallets, wallet, lt)
  }

  /** A scan that missed a contract and moved the LT is among the advanced ones. */
  ghost predicate MissesCarried(missed: set<Missed>, updated: seq<Wallet>) {
    forall m :: m in missed && m.fromLT < m.upto ==> Carries(updated, m.wallet, m.upto)
  }

  ghost predicate MissesReal(s: State) {
    && (forall m :: m in s.missed && m.fromLT < m.upto ==> PublishedLT(s, m.wallet, m.upto))
    && (forall w :: w in s.workers && s.workers[w].Scanning? ==>
          MissesCarried(s.workers[w].missed, s.workers[w].updated))
  }

  lemma CarriesMore(wallets: seq<Wallet>, u: Wallet, address: string, lt: nat)
    ensures Carries(wallets, address, lt) ==> Carries(wallets + [u], address, lt)
    ensures Carries(wallets + [u], u.address, u.lt)
  {
    assert (wallets + [u])[|wallets|] == u;
    if Carries(wallets, address, lt) {
      var v :| v in wallets && v.address == address && v.lt == lt;
      assert v in wallets + [u];
    }
  }

  lemma ScanOneMissesCarried(s: State, step: Step)
    requires MissesReal(s) && Enabled(s, step) && step.ScanOne?
    ensures var ph := PhaseOf(Apply(s, step), step.w); MissesCarried(ph.missed, ph.updated)
  {
    var ph, x := PhaseOf(s, step.w), NextWallet(s, step.w);
    assert MissesCarried(ph.missed, ph.updated);
    var ph' := PhaseOf(Apply(s, step), step.w);
    forall m | m in ph'.missed && m.fromLT < m.upto ensures Carries(ph'.updated, m.wallet, m.upto) {
      CarriesMore(ph.updated, x.(lt := step.lastLT), m.wallet, m.upto);
    }
  }

  lemma PublishMissesReal(s: State, w: nat, contracts: seq<StorageContract>, relations: seq<Relation>,
                          acknowledged: bool)
    requires MissesReal(s) && PhaseOf(s, w).Scanning?
    ensures MissesReal(AfterPublish(s, w, contracts, relations, acknowledged))
  {
    var ph := PhaseOf(s, w);
    var s' := AfterPublish(s, w, contracts, relations, acknowledged);
    assert MissesCarried(ph.missed, ph.updated);
    assert s'.published[|s.published|].updatedWallets == ph.updated;
    forall m | m in s'.missed && m.fromLT < m.upto ensures PublishedLT(s', m.wallet, m.upto) {
      if m in s.missed {
        PublishedLTStays(s, s', m.wallet, m.upto);
      }
    }
  }

  lemma PublishedLTStays(s: State, s': State, wallet: string, lt: nat)
    requires s.published <= s'.published && PublishedLT(s, wallet, lt)
    ensures PublishedLT(s', wallet, lt)
  {
    var i :| 0 <= i < |s.published| && Carries(s.published[i].updatedWallets, wallet, lt);
    assert s'.published[i] == s.published[i];
  }

  /** A step that publishes nothing and leaves or resets the workers' misses. */
  lemma QuietMissesReal(s: State, s': State)
    requires MissesReal(s) && s'.published == s.published && s'.missed == s.missed
    requires forall w :: w in s'.workers && s'.workers[w].Scanning? ==>
      MissesCarried(s'.workers[w].missed, s'.workers[w].updated)
    ensures MissesReal(s')
  {
    forall m | m in s'.missed && m.fromLT < m.upto ensures PublishedLT(s', m.wallet, m.upto) {
      PublishedLTStays(s, s', m.wallet, m.upto);
    }
  }

  lemma StepMissesReal(s: State, step: Step)
    requires MissesReal(s) && Enabled(s, step)
    ensures MissesReal(Apply(s, step))
  {
    var s' := Apply(s, step);
    match step
    case Publish(w, contracts, relations, acknowledged) => PublishMissesReal(s, w, contracts, relations, acknowledged);
    case ScanOne(_, _, _, _, _, _) =>
      ScanOneMissesCarried(s, step);
      QuietMissesReal(s, s');
    case SkipOne(w) =>
      assert MissesCarried(PhaseOf(s, w).missed, PhaseOf(s, w).updated);
      QuietMissesReal(s, s');
    case _ => QuietMissesReal(s, s');
  }

  // ----- whole runs -----

  lemma {:induction false} RunKeepsInv(run: seq<State>, g: Regime, n: nat)
    requires IsRun(run, g) && n < |run|
    ensures Inv(run[n]) && MissesAllowed(g, run[n]) && MissesReal(run[n])
  {
    if n != 0 {
      RunKeepsInv(run, g, n - 1);
      assert NextAt(run, g, n - 1);
      var step :| Enabled(run[n - 1], step) && Permits(g, run[n - 1], step) && run[n] == Apply(run[n - 1], step);
      StepKeepsInv(run[n - 1], step);
      StepMissesAllowed(g, run[n - 1], step);
      StepMissesReal(run[n - 1], step);
    }
  }

  /** The LTs that a wallet's row ever held or a published result carries for it. */
  ghost predicate Reached(s: State, wallet: string, lt: nat) {
    (wallet, lt) in s.stored || PublishedLT(s, wallet, lt)
  }

  lemma ReachedIsCovered(s: State, wallet: string, lt: nat)
    requires Inv(s) && Reached(s, wallet, lt)
    ensures CoversLT(s, wallet, lt)
  {
    if (wallet, lt) !in s.stored {
      var i :| 0 <= i < |s.published| && Carries(s.published[i].updatedWallets, wallet, lt);
      assert ResultOk(s, s.published[i]);
      var u :| u in s.published[i].updatedWallets && u.address == wallet && u.lt == lt;
      assert WalletOk(s, u);
    }
  }

  /**
   Wallet checkpoint coverage. In every run, for every LT that a wallet's row ever held or that was
   published for it and every payment at or below it, the paying contract is listed for that
   wallet in a published result, unless a published scan that passed the payment missed it; and a
   scan misses a contract only if its fetch was cut or its lookup returned no data for it.
   */
  lemma Coverage(run: seq<State>, g: Regime, n: nat, wallet: string, lt: nat, contract: string, at: nat)
    requires IsRun(run, g) && n < |run| && Reached(run[n], wallet, lt)
    requires (contract, at) in Payments(ChainOf(run[n], wallet), lt)
    ensures (wallet, contract) in Listed(run[n].published) || Excused(run[n].missed, wallet, contract, at)
    ensures OnlyAllowed(g, run[n].missed)
  {
    RunKeepsInv(run, g, n);
    ReachedIsCovered(run[n], wallet, lt);
  }

  /** The wallet's history has a payment of the contract at the LT. */
  ghost predicate Paid(s: State, wallet: string, contract: string, at: nat) {
    (contract, at) in Payments(ChainOf(s, wallet), at)
  }

  /** A payment at or below an LT that was reached, whose contract nobody lists for the wallet. */
  ghost predicate Lost(s: State, wallet: string, contract: string, at: nat) {
    && Paid(s, wallet, contract, at) && (wallet, contract) !in Listed(s.published)
    && exists lt :: Reached(s, wallet, lt) && at <= lt
  }

  lemma PaidBelow(s: State, wallet: string, contract: string, at: nat, lt: nat)
    requires Paid(s, wallet, contract, at) && at <= lt
    ensures (contract, at) in Payments(ChainOf(s, wallet), lt)
  {
    var h := ChainOf(s, wallet);
    var j :| 0 <= j < |h| && h[j].lt <= at && PaidBy(h[j]).Some? && (PaidBy(h[j]).value, h[j].lt) == (contract, at);
    assert h[j].lt <= lt;
  }

  /** What is lost is exactly what a published scan missed and nobody listed since. */
  lemma LostExactly(run: seq<State>, g: Regime, n: nat, wallet: string, contract: string, at: nat)
    requires IsRun(run, g) && n < |run| && Paid(run[n], wallet, contract, at)
    ensures Lost(run[n], wallet, contract, at) <==>
              Excused(run[n].missed, wallet, contract, at) && (wallet, contract) !in Listed(run[n].published)
  {
    var s := run[n];
    RunKeepsInv(run, g, n);
    if Lost(s, wallet, contract, at) {
      var lt :| Reached(s, wallet, lt) && at <= lt;
      PaidBelow(s, wallet, contract, at, lt);
      Coverage(run, g, n, wallet, lt, contract, at);
    }
    if Excused(s.missed, wallet, contract, at) {
      var m :| m in s.missed && m.wallet == wallet && m.contract == contract && m.fromLT < at <= m.upto;
      assert PublishedLT(s, wallet, m.upto);
      assert Reached(s, wallet, m.upto);
    }
  }

  /** Without cut fetches and omitting lookups nothing is lost. */
  lemma NothingLost(run: seq<State>, g: Regime, n: nat, wallet: string, contract: string, at: nat)
    requires IsRun(run, g) && n < |run| && !g.cuts && !g.omits
    ensures !Lost(run[n], wallet, contract, at)
  {
    RunKeepsInv(run, g, n);
    if Paid(run[n], wallet, contract, at) {
      LostExactly(run, g, n, wallet, contract, at);
    }
  }

  /** Only LTs carried by an already published result reach a row, whatever else fails. */
  lemma OnlyPublishedLTsReachRows(s: State, step: Step, pk: string)
    requires Enabled(s, step) && pk in s.rows && Apply(s, step).rows[pk] != s.rows[pk]
    ensures exists i, u :: 0 <= i < |s.published| && u in s.published[i].updatedWallets
                           && Lower(u.publicKey) == pk && Apply(s, step).rows[pk] == Row(s.rows[pk].address, u.lt)
  {
    match step
    case BackendWrites(i, lts) =>
      var u :| u in s.published[i].updatedWallets && Lower(u.publicKey) == pk && u.lt == lts[pk];
    case WriteLTs(w, lts) =>
      var i := PhaseOf(s, w).i;
      var u :| u in s.published[i].updatedWallets && Lower(u.publicKey) == pk && u.lt == lts[pk];
    case AddRow(_, _) =>
    case _ =>
  }
}
