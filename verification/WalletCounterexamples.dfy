/**
 What the wallet scans can lose, and when: a run for each way, the exact condition over a
 deployment, and a run in which a contract that a lookup omitted is listed after all.
 */
module WalletCounterexamples {
  import opened Common
  import opened Strings
  import opened Chain
  import opened Paging
  import opened WalletScan
  import opened WalletCoverage
  import opened WalletMerge
  import opened WalletProtocol

  const DATA := Details("bag", "owner", 1, 1)

  function NoData(contract: string): Option<Details> {
    None
  }

  function AllData(contract: string): Option<Details> {
    Some(DATA)
  }

  /** A withdrawal of a contract. */
  function Payment(lt: nat, prevLT: nat, contract: string): RawTx {
    RawTx(lt, prevLT, Some(Message(contract, WITHDRAWAL_OP, "", 0)))
  }

  function Parsed(lt: nat, contract: string): Tx {
    Tx(lt, WITHDRAWAL_OP, contract, "", 0)
  }

  function Entry(wallet: string, contract: string, lt: nat): StorageContract {
    StorageContract(contract, DATA.bagID, DATA.ownerAddr, DATA.size, DATA.chunkSize, lt, [wallet])
  }

  lemma PaymentParses(lt: nat, prevLT: nat, contract: string)
    requires 0 < lt
    ensures PaidBy(Payment(lt, prevLT, contract)) == Some(contract) && IsWithdrawal(Parsed(lt, contract))
    ensures ParseAll([Payment(lt, prevLT, contract)]) == [Parsed(lt, contract)]
  {
    var ts := [Payment(lt, prevLT, contract)];
    assert ts[..0] == [];
    assert ParseAll(ts) == ParseAll(ts[..0]) + [Parsed(lt, contract)];
  }

  /** A scan of one withdrawal whose contract the lookup does not know. */
  lemma ScanWithoutData(wallet: string, fromLT: nat, lt: nat, contract: string)
    requires fromLT <= lt && 0 < lt
    ensures WalletOutcome([Parsed(lt, contract)], fromLT, wallet, [], lt)
    ensures Enriched([Parsed(lt, contract)], NoData, [])
  {
    var t := Parsed(lt, contract);
    assert t in [t] && IsWithdrawal(t);
  }

  /** The same with a lookup that knows it. */
  lemma ScanWithData(wallet: string, fromLT: nat, lt: nat, contract: string)
    requires fromLT <= lt && 0 < lt
    ensures WalletOutcome([Parsed(lt, contract)], fromLT, wallet, [Entry(wallet, contract, lt)], lt)
    ensures Enriched([Parsed(lt, contract)], AllData, [Entry(wallet, contract, lt)])
  {
    var t, c := Parsed(lt, contract), Entry(wallet, contract, lt);
    assert t in [t] && From(t, contract);
    assert IsLatest([t], contract, lt);
    assert c in [c] && c.address == contract;
  }

  lemma OneIsMerged(c: StorageContract)
    ensures Enumerates([c], Merged([c]))
  {
    var cs := [c];
    assert cs[..0] == [];
    assert Merged(cs) == map[c.address := c];
    assert c in cs;
  }

  // ----- one wallet, one worker -----

  /** One wallet row that no scan has advanced yet. */
  ghost function Fresh(wallet: string, h: seq<RawTx>): State {
    State(map[wallet := h], map["" := Row(wallet, 0)], {(wallet, 0)}, [], {}, map[])
  }

  lemma FreshMeetsInit(wallet: string, h: seq<RawTx>)
    requires History(h)
    ensures Init(Fresh(wallet, h))
  {
    CoversNothing(h, wallet, Listed([]), {});
  }

  /** The worker is between cycles, and the wallet has its row. */
  ghost predicate Ready(s: State, wallet: string) {
    PhaseOf(s, 0).Idle? && "" in s.rows && s.rows[""].address == wallet
  }

  /** The state after one published cycle. */
  ghost predicate Cycled(s: State, s': State, wallet: string, contracts: seq<StorageContract>, updated: seq<Wallet>) {
    && s'.chains == s.chains && s'.rows == s.rows && s'.stored == s.stored
    && PhaseOf(s', 0) == Published(|s.published|)
    && s'.published == s.published + [WalletsResult(contracts, [], updated)]
  }

  /** The wallets that a scan to an LT advances. */
  ghost function Moved(x: Wallet, lastLT: nat): seq<Wallet> {
    if x.lt < lastLT then [x.(lt := lastLT)] else []
  }

  /** Two states that differ in the workers only. */
  ghost predicate SameStores(s: State, s': State) {
    && s'.chains == s.chains && s'.rows == s.rows && s'.stored == s.stored
    && s'.published == s.published && s'.missed == s.missed
  }

  lemma LoadPath(path: seq<State>, g: Regime, wallet: string) returns (longer: seq<State>)
    requires IsPath(path, g) && Ready(Last(path), wallet)
    ensures IsPath(longer, g) && path <= longer && SameStores(Last(path), Last(longer))
    ensures PhaseOf(Last(longer), 0) == Scanning([Wallet("", wallet, Last(path).rows[""].lt)], 0, [], [], {})
  {
    longer := ExtendPath(path, g, Load(0, [Wallet("", wallet, Last(path).rows[""].lt)]));
  }

  lemma ScanPath(path: seq<State>, g: Regime, x: Wallet, collected: seq<RawTx>, stop: Stop, lookup: Lookup,
                 contracts: seq<StorageContract>, lastLT: nat) returns (longer: seq<State>)
    requires IsPath(path, g) && IsUserFriendly(x.address) && PhaseOf(Last(path), 0) == Scanning([x], 0, [], [], {})
    requires FetchAndScan(ChainOf(Last(path), x.address), x.lt, x.address, collected, stop, lookup, contracts, lastLT)
    requires !g.cuts ==> Complete(ChainOf(Last(path), x.address), collected, stop)
    requires !g.omits ==> AnswersAll(ChainOf(Last(path), x.address), |collected|, lookup)
    ensures IsPath(longer, g) && path <= longer && SameStores(Last(path), Last(longer))
    ensures var ph := PhaseOf(Last(longer), 0);
            ph.Scanning? && ph.wallets == [x] && ph.k == 1 && ph.all == contracts && ph.updated == Moved(x, lastLT)
  {
    longer := ExtendPath(path, g, ScanOne(0, collected, stop, lookup, contracts, lastLT));
    assert [] + contracts == contracts && [] + [x.(lt := lastLT)] == [x.(lt := lastLT)];
  }

  lemma CyclePath(path: seq<State>, g: Regime, wallet: string, collected: seq<RawTx>, stop: Stop, lookup: Lookup,
                  contracts: seq<StorageContract>, lastLT: nat) returns (longer: seq<State>)
    requires IsPath(path, g) && IsUserFriendly(wallet) && Ready(Last(path), wallet)
    requires FetchAndScan(ChainOf(Last(path), wallet), Last(path).rows[""].lt, wallet, collected, stop, lookup,
                          contracts, lastLT)
    requires !g.cuts ==> Complete(ChainOf(Last(path), wallet), collected, stop)
    requires !g.omits ==> AnswersAll(ChainOf(Last(path), wallet), |collected|, lookup)
    requires Enumerates(contracts, Merged(contracts))
    ensures IsPath(longer, g) && path <= longer
    ensures Cycled(Last(path), Last(longer), wallet, contracts,
                   Moved(Wallet("", wallet, Last(path).rows[""].lt), lastLT))
  {
    var x := Wallet("", wallet, Last(path).rows[""].lt);
    longer := LoadPath(path, g, wallet);
    longer := ScanPath(longer, g, x, collected, stop, lookup, contracts, lastLT);
    longer := ExtendPath(longer, g, Publish(0, contracts, [], true));
  }

  // ----- a lookup without data -----

  /** A history with one withdrawal. */
  function One(): seq<RawTx> {
    [Payment(1, 0, "c")]
  }

  lemma OneIsHistory()
    ensures History(One()) && ParseAll(One()) == [Parsed(1, "c")] && PaidBy(One()[0]) == Some("c")
  {
    assert LinkedAt(One(), 0);
    PaymentParses(1, 0, "c");
  }

  /** The first scan finds no data for the contract and still moves to its withdrawal. */
  lemma OmittingScan(wallet: string)
    ensures Complete(One(), One(), NothingFound)
    ensures FetchAndScan(One(), 0, wallet, One(), NothingFound, NoData, [], 1)
  {
    OneIsHistory();
    assert One()[0..] == One();
    ScanWithoutData(wallet, 0, 1, "c");
  }

  /** A scan from there fetches the same withdrawal again. */
  lemma SecondScan(wallet: string)
    ensures Complete(One(), One(), AtCheckpoint)
    ensures FetchAndScan(One(), 1, wallet, One(), AtCheckpoint, AllData, [Entry(wallet, "c", 1)], 1)
  {
    OneIsHistory();
    assert One()[0..] == One();
    ScanWithData(wallet, 1, 1, "c");
  }

  /** The published LT has passed the withdrawal, and its contract is listed nowhere. */
  lemma IsLost(s: State, wallet: string, lt: nat, contract: string, at: nat, j: nat)
    requires j < |ChainOf(s, wallet)| && ChainOf(s, wallet)[j].lt == at <= lt
    requires PaidBy(ChainOf(s, wallet)[j]) == Some(contract)
    requires PublishedLT(s, wallet, lt) && (wallet, contract) !in Listed(s.published)
    ensures Lost(s, wallet, contract, at)
  {
    var h := ChainOf(s, wallet);
    assert (PaidBy(h[j]).value, h[j].lt) == (contract, at);
    assert Reached(s, wallet, lt);
  }

  lemma OmittingPath(g: Regime, wallet: string) returns (path: seq<State>)
    requires g.omits && IsUserFriendly(wallet)
    ensures IsRun(path, g) && Cycled(Fresh(wallet, One()), Last(path), wallet, [], [Wallet("", wallet, 1)])
  {
    OneIsHistory();
    OmittingScan(wallet);
    FreshMeetsInit(wallet, One());
    path := CyclePath([Fresh(wallet, One())], g, wallet, One(), NothingFound, NoData, [], 1);
  }

  lemma FirstPublished(s: State, wallet: string, contracts: seq<StorageContract>, lt: nat)
    requires s.published == [WalletsResult(contracts, [], [Wallet("", wallet, lt)])]
    ensures PublishedLT(s, wallet, lt) && Listed(s.published) == ListedIn(contracts)
  {
    var u := Wallet("", wallet, lt);
    assert s.published[0].updatedWallets == [u] && u in [u];
    assert Carries(s.published[0].updatedWallets, wallet, lt);
    assert s.published[..0] == [];
  }

  /** A lookup without data loses the contract of a withdrawal that the scan passed. */
  lemma OmissionLoses(g: Regime, wallet: string) returns (run: seq<State>)
    requires g.omits && IsUserFriendly(wallet)
    ensures IsRun(run, g) && Lost(Last(run), wallet, "c", 1)
  {
    run := OmittingPath(g, wallet);
    OneIsHistory();
    FirstPublished(Last(run), wallet, [], 1);
    IsLost(Last(run), wallet, 1, "c", 1, 0);
  }

  /** The worker writes the LT of its result. */
  lemma StoredPath(path: seq<State>, g: Regime, wallet: string) returns (longer: seq<State>)
    requires IsPath(path, g) && Cycled(Fresh(wallet, One()), Last(path), wallet, [], [Wallet("", wallet, 1)])
    ensures IsPath(longer, g) && path <= longer && Ready(Last(longer), wallet)
    ensures Last(longer).chains == Last(path).chains && Last(longer).published == Last(path).published
    ensures Last(longer).rows[""] == Row(wallet, 1)
  {
    var s := Last(path);
    var u := Wallet("", wallet, 1);
    var lts: map<string, nat> := map["" := 1];
    assert u in s.published[0].updatedWallets && Lower(u.publicKey) == "";
    assert Chosen(s, s.published[0].updatedWallets, lts);
    longer := ExtendPath(path, g, WriteLTs(0, lts));
  }

  lemma ListedBySecond(s: State, wallet: string, first: WalletsResult, c: StorageContract, updated: seq<Wallet>)
    requires s.published == [first] + [WalletsResult([c], [], updated)] && c.providers == [wallet]
    ensures (wallet, c.address) in Listed(s.published)
  {
    assert s.published[|s.published| - 1].contracts == [c];
    assert c in [c] && wallet in c.providers;
    assert (wallet, c.address) in ListedIn([c]);
  }

  /** The next cycle lists the contract. */
  lemma SecondPath(path: seq<State>, g: Regime, wallet: string) returns (longer: seq<State>)
    requires IsUserFriendly(wallet) && IsPath(path, g)
    requires Cycled(Fresh(wallet, One()), Last(path), wallet, [], [Wallet("", wallet, 1)])
    ensures IsPath(longer, g) && path <= longer && (wallet, "c") in Listed(Last(longer).published)
  {
    longer := StoredPath(path, g, wallet);
    OneIsHistory();
    SecondScan(wallet);
    OneIsMerged(Entry(wallet, "c", 1));
    longer := CyclePath(longer, g, wallet, One(), AtCheckpoint, AllData, [Entry(wallet, "c", 1)], 1);
    ListedBySecond(Last(longer), wallet, Last(path).published[0], Entry(wallet, "c", 1), []);
  }

  /**
   The omitted contract need not stay lost: the next scan from the stored LT fetches the newest
   withdrawal again, and if its lookup has data, lists the contract.
   */
  lemma OmittedIsListedLater(g: Regime, wallet: string) returns (run: seq<State>, n: nat)
    requires g.omits && IsUserFriendly(wallet)
    ensures IsRun(run, g) && n < |run| && Lost(run[n], wallet, "c", 1) && !Lost(Last(run), wallet, "c", 1)
  {
    var path := OmittingPath(g, wallet);
    n := |path| - 1;
    OneIsHistory();
    FirstPublished(Last(path), wallet, [], 1);
    IsLost(Last(path), wallet, 1, "c", 1, 0);
    run := SecondPath(path, g, wallet);
    assert run[n] == path[n];
  }

  // ----- a cut fetch -----

  /** A history with two withdrawals. */
  function Two(): seq<RawTx> {
    [Payment(1, 0, "c"), Payment(2, 1, "d")]
  }

  lemma TwoIsHistory()
    ensures History(Two()) && PaidBy(Two()[0]) == Some("c") && PaidBy(Two()[1]) == Some("d")
    ensures ParseAll([Two()[1]]) == [Parsed(2, "d")]
  {
    assert LinkedAt(Two(), 0) && LinkedAt(Two(), 1);
    PaymentParses(1, 0, "c");
    PaymentParses(2, 1, "d");
  }

  /** A deadline after the newest page. */
  lemma CutScan(wallet: string)
    ensures FetchAndScan(Two(), 0, wallet, [Two()[1]], Deadline, AllData, [Entry(wallet, "d", 2)], 2)
    ensures AnswersAll(Two(), 1, AllData)
  {
    TwoIsHistory();
    assert Two()[1..] == [Two()[1]];
    ScanWithData(wallet, 0, 2, "d");
  }

  lemma CutPath(g: Regime, wallet: string) returns (path: seq<State>)
    requires g.cuts && IsUserFriendly(wallet)
    ensures IsRun(path, g)
    ensures Cycled(Fresh(wallet, Two()), Last(path), wallet, [Entry(wallet, "d", 2)], [Wallet("", wallet, 2)])
  {
    TwoIsHistory();
    CutScan(wallet);
    FreshMeetsInit(wallet, Two());
    OneIsMerged(Entry(wallet, "d", 2));
    path := CyclePath([Fresh(wallet, Two())], g, wallet, [Two()[1]], Deadline, AllData, [Entry(wallet, "d", 2)], 2);
  }

  lemma ListsOnly(wallet: string)
    ensures (wallet, "c") !in ListedIn([Entry(wallet, "d", 2)])
  {
  }

  /** A cut fetch loses the contract of a withdrawal in its gap. */
  lemma CutLoses(g: Regime, wallet: string) returns (run: seq<State>)
    requires g.cuts && IsUserFriendly(wallet)
    ensures IsRun(run, g) && Lost(Last(run), wallet, "c", 1)
  {
    run := CutPath(g, wallet);
    TwoIsHistory();
    FirstPublished(Last(run), wallet, [Entry(wallet, "d", 2)], 2);
    ListsOnly(wallet);
    IsLost(Last(run), wallet, 2, "c", 1, 0);
  }

  // ----- the exact condition -----

  ghost predicate CanLose(g: Regime) {
    exists run: seq<State>, n: nat, wallet: string, contract: string, at: nat ::
      n < |run| && IsRun(run, g) && Lost(run[n], wallet, contract, at)
  }

  /** Payments can be lost exactly if fetches may be cut or lookups may have no data. */
  lemma LossIff(g: Regime)
    ensures CanLose(g) <==> g.cuts || g.omits
  {
    if g.cuts || g.omits {
      var wallet := "EQ" + seq(46, _ => 'A');
      var run;
      if g.cuts {
        run := CutLoses(g, wallet);
      } else {
        run := OmissionLoses(g, wallet);
      }
      assert Lost(run[|run| - 1], wallet, "c", 1);
    } else {
      forall run: seq<State>, n: nat, wallet: string, contract: string, at: nat | n < |run| && IsRun(run, g)
        ensures !Lost(run[n], wallet, contract, at)
      {
        NothingLost(run, g, n, wallet, contract, at);
      }
    }
  }
}
