/**
 CollectStorageContracts as code: the wallet loop, the merge, the relations, the publish and the
 LT write, with every call allowed to fail. Each outcome is a path of the protocol.
 */
module WalletCycle {
  import opened Common
  import opened Strings
  import opened Domain
  import opened Chain
  import opened Paging
  import opened WalletScan
  import opened WalletCoverage
  import opened WalletMerge
  import opened WalletProtocol
  import opened Handlers

  /** What the network answers for one wallet. */
  datatype Source = Source(account: Account, server: Server, masterchainOk: bool, lookup: Lookup)

  ghost predicate HonestSource(h: seq<RawTx>, src: Source) {
    && History(h) && Honest(h, src.server)
    && (src.account.AccountAt? ==> src.account.lastTxLT == Tip(h))
  }

  ghost predicate HonestAt(s: State, wallets: seq<Wallet>, sources: nat -> Source, k: nat)
    requires k < |wallets|
  {
    HonestSource(ChainOf(s, wallets[k].address), sources(k))
  }

  ghost predicate AllHonest(s: State, wallets: seq<Wallet>, sources: nat -> Source) {
    forall k :: 0 <= k < |wallets| ==> HonestAt(s, wallets, sources, k)
  }

  /** One wallet's turn in the loop: what its scan returned and, as evidence, what it fetched. */
  datatype Turn = Turn(scan: Result<(seq<StorageContract>, nat)>, fetch: FetchRecord)

  /** A turn without a fetch. */
  ghost function NoTurn(): Turn {
    Turn(Err, FetchRecord([], Deadline, []))
  }

  /** The fetch of a turn met a withdrawal, so that there is something to look up. */
  ghost predicate HasWithdrawal(turn: Turn) {
    exists t :: t in ParseAll(turn.fetch.collected) && IsWithdrawal(t)
  }

  /** A turn is a real fetch and scan exactly when nothing fails it: the address, the fetch or the start of a lookup. */
  ghost predicate IsTurn(s: State, x: Wallet, src: Source, turn: Turn) {
    var h := ChainOf(s, x.address);
    var fetches := IsUserFriendly(x.address) && !FetchFails(h, src.account, src.server, x.lt);
    && (turn.scan.Ok? <==> fetches && (src.masterchainOk || !HasWithdrawal(turn)))
    && (fetches ==> IsFetch(h, src.server, x.lt, turn.fetch))
    && (turn.scan.Ok? ==>
          FetchAndScan(h, x.lt, x.address, turn.fetch.collected, turn.fetch.stop, src.lookup,
                       turn.scan.value.0, turn.scan.value.1))
  }

  ghost predicate TurnAt(s: State, wallets: seq<Wallet>, sources: nat -> Source, turns: seq<Turn>, k: nat)
    requires k < |turns| && k < |wallets|
  {
    IsTurn(s, wallets[k], sources(k), turns[k])
  }

  ghost predicate AreTurns(s: State, wallets: seq<Wallet>, sources: nat -> Source, turns: seq<Turn>) {
    && |turns| <= |wallets|
    && forall k :: 0 <= k < |turns| ==> TurnAt(s, wallets, sources, turns, k)
  }

  lemma AreTurnsPrefix(s: State, wallets: seq<Wallet>, sources: nat -> Source, turns: seq<Turn>, k: nat)
    requires AreTurns(s, wallets, sources, turns) && k <= |turns|
    ensures AreTurns(s, wallets, sources, turns[..k])
  {
    forall j | 0 <= j < k ensures TurnAt(s, wallets, sources, turns[..k], j) {
      assert TurnAt(s, wallets, sources, turns, j);
    }
  }

  /** walletScanner.Scan as the loop calls it: the fetch from the wallet's LT, then the scan of what it gave. */
  method ScanWallet(ghost s: State, x: Wallet, src: Source)
    returns (r: Result<(seq<StorageContract>, nat)>, ghost turn: Turn)
    requires HonestSource(ChainOf(s, x.address), src) && IsUserFriendly(x.address)
    ensures turn.scan == r && IsTurn(s, x, src, turn)
    ensures FetchFails(ChainOf(s, x.address), src.account, src.server, x.lt) ==> r.Err?
  {
    ghost var h := ChainOf(s, x.address);
    var fetch, f := GetTransactions(h, src.account, src.server, x.lt);
    if !fetch.Fetched? {
      return Err, NoTurn();
    }
    r := Scan(fetch.txs, x.lt, x.address, src.masterchainOk, src.lookup);
    turn := Turn(r, f);
  }

  /** All contracts of the successful scans, in wallet order. */
  ghost function ScannedContracts(turns: seq<Turn>): seq<StorageContract> {
    if turns == [] then [] else
    var last := turns[|turns| - 1];
    ScannedContracts(turns[..|turns| - 1]) + if last.scan.Ok? then last.scan.value.0 else []
  }

  /** The wallets whose successful scan moved past their LT. */
  ghost function Advanced(wallets: seq<Wallet>, turns: seq<Turn>): seq<Wallet>
    requires |turns| <= |wallets|
  {
    if turns == [] then [] else
    var k := |turns| - 1;
    Advanced(wallets, turns[..k]) +
    if turns[k].scan.Ok? && wallets[k].lt < turns[k].scan.value.1
    then [wallets[k].(lt := turns[k].scan.value.1)] else []
  }

  lemma {:induction false} MergedConcat(all: seq<StorageContract>, c: StorageContract)
    ensures Merged(all + [c]) == MergeInto(Merged(all), c)
  {
    assert (all + [c])[..|all|] == all;
  }

  /** The inner merge loop for one wallet's contracts. */
  method MergeScan(merged: map<string, StorageContract>, contracts: seq<StorageContract>,
                   ghost all: seq<StorageContract>)
    returns (r: map<string, StorageContract>)
    requires merged == Merged(all)
    ensures r == Merged(all + contracts)
  {
    r := merged;
    assert all + contracts[..0] == all;
    for i := 0 to |contracts|
      invariant r == Merged(all + contracts[..i])
    {
      var c := contracts[i];
      assert all + contracts[..i + 1] == (all + contracts[..i]) + [c];
      MergedConcat(all + contracts[..i], c);
      if c.address in r {
        var existing := r[c.address];
        existing := existing.(providers := existing.providers + c.providers);
        if existing.lastLT < c.lastLT {
          existing := existing.(lastLT := c.lastLT);
        }
        r := r[c.address := existing];
      } else {
        r := r[c.address := c];
      }
    }
    assert contracts[..|contracts|] == contracts;
  }

  /** The protocol state in which worker w has handled the wallets of the turns. */
  ghost function Handled(s: State, w: nat, wallets: seq<Wallet>, turns: seq<Turn>, missed: set<Missed>): State
    requires |turns| <= |wallets|
  {
    SetPhase(s, w, Scanning(wallets, |turns|, ScannedContracts(turns), Advanced(wallets, turns), missed))
  }

  ghost function MissedIn(s: State, x: Wallet, src: Source, turn: Turn): set<Missed>
    requires turn.scan.Ok? && |turn.fetch.collected| <= |ChainOf(s, x.address)|
  {
    MissedBy(ChainOf(s, x.address), x.address, x.lt, |turn.fetch.collected|, src.lookup, turn.scan.value.1)
  }

  lemma TurnsSnoc(wallets: seq<Wallet>, turns: seq<Turn>, turn: Turn)
    requires |turns| < |wallets|
    ensures var x := wallets[|turns|]; var all := turns + [turn];
            && ScannedContracts(all) == ScannedContracts(turns) + (if turn.scan.Ok? then turn.scan.value.0 else [])
            && Advanced(wallets, all) == Advanced(wallets, turns) +
                 (if turn.scan.Ok? && x.lt < turn.scan.value.1 then [x.(lt := turn.scan.value.1)] else [])
  {
    assert (turns + [turn])[..|turns|] == turns;
  }

  lemma HandlesOneMore(s: State, w: nat, wallets: seq<Wallet>, turns: seq<Turn>, src: Source, turn: Turn,
                       missed: set<Missed>)
    requires |turns| < |wallets| && turn.scan.Ok? && |turn.fetch.collected| <= |ChainOf(s, wallets[|turns|].address)|
    ensures var t := Handled(s, w, wallets, turns, missed); var x := wallets[|turns|];
            && InLoop(t, w) && ChainOf(t, x.address) == ChainOf(s, x.address)
            && AfterScanOne(t, w, |turn.fetch.collected|, src.lookup, turn.scan.value.0, turn.scan.value.1)
               == Handled(s, w, wallets, turns + [turn], missed + MissedIn(s, x, src, turn))
  {
    TurnsSnoc(wallets, turns, turn);
    var x := wallets[|turns|];
    var t := Handled(s, w, wallets, turns, missed);
    var all, updated := ScannedContracts(turns + [turn]), Advanced(wallets, turns + [turn]);
    assert updated == if x.lt < turn.scan.value.1 then Advanced(wallets, turns) + [x.(lt := turn.scan.value.1)]
                      else Advanced(wallets, turns);
    SetPhaseTwice(s, w, PhaseOf(t, w),
                  Scanning(wallets, |turns| + 1, all, updated, missed + MissedIn(s, x, src, turn)));
  }

  lemma SetPhaseTwice(s: State, w: nat, a: Phase, b: Phase)
    ensures SetPhase(SetPhase(s, w, a), w, b) == SetPhase(s, w, b)
  {
  }

  lemma ScanOnePath(path: seq<State>, s: State, w: nat, wallets: seq<Wallet>, turns: seq<Turn>, src: Source, turn: Turn,
                    missed: set<Missed>) returns (longer: seq<State>, missed': set<Missed>)
    requires |turns| < |wallets| && turn.scan.Ok? && IsTurn(s, wallets[|turns|], src, turn)
    requires IsPath(path, ANY) && Last(path) == Handled(s, w, wallets, turns, missed)
    ensures IsPath(longer, ANY) && longer[0] == path[0]
    ensures Last(longer) == Handled(s, w, wallets, turns + [turn], missed')
  {
    HandlesOneMore(s, w, wallets, turns, src, turn, missed);
    missed' := missed + MissedIn(s, wallets[|turns|], src, turn);
    var step := ScanOne(w, turn.fetch.collected, turn.fetch.stop, src.lookup, turn.scan.value.0, turn.scan.value.1);
    assert Enabled(Last(path), step);
    longer := ExtendPath(path, ANY, step);
  }

  lemma SkipOnePath(path: seq<State>, s: State, w: nat, wallets: seq<Wallet>, turns: seq<Turn>, turn: Turn,
                    missed: set<Missed>)
    returns (longer: seq<State>)
    requires |turns| < |wallets| && turn.scan.Err?
    requires IsPath(path, ANY) && Last(path) == Handled(s, w, wallets, turns, missed)
    ensures IsPath(longer, ANY) && longer[0] == path[0]
    ensures Last(longer) == Handled(s, w, wallets, turns + [turn], missed)
  {
    longer := ExtendPath(path, ANY, SkipOne(w));
    TurnsSnoc(wallets, turns, turn);
    assert Advanced(wallets, turns) + [] == Advanced(wallets, turns);
    assert ScannedContracts(turns) + [] == ScannedContracts(turns);
  }

  /** The wallet loop is a protocol path, one step per wallet. */
  lemma {:induction false} LoopPath(s: State, w: nat, wallets: seq<Wallet>, sources: nat -> Source, turns: seq<Turn>)
    returns (path: seq<State>, missed: set<Missed>)
    requires PhaseOf(s, w).Idle? && forall x :: x in wallets ==> IsRow(s, x)
    requires AreTurns(s, wallets, sources, turns)
    ensures IsPath(path, ANY) && path[0] == s && Last(path) == Handled(s, w, wallets, turns, missed)
  {
    if turns == [] {
      missed := {};
      path := ExtendPath([s], ANY, Load(w, wallets));
    } else {
      var k := |turns| - 1;
      assert turns == turns[..k] + [turns[k]];
      AreTurnsPrefix(s, wallets, sources, turns, k);
      path, missed := LoopPath(s, w, wallets, sources, turns[..k]);
      assert TurnAt(s, wallets, sources, turns, k);
      if turns[k].scan.Ok? {
        path, missed := ScanOnePath(path, s, w, wallets, turns[..k], sources(k), turns[k], missed);
      } else {
        path := SkipOnePath(path, s, w, wallets, turns[..k], turns[k], missed);
      }
    }
  }

  /** What the loop holds after some turns. */
  ghost predicate Holds(s: State, wallets: seq<Wallet>, sources: nat -> Source, turns: seq<Turn>,
                        merged: map<string, StorageContract>, updated: seq<Wallet>)
  {
    && AreTurns(s, wallets, sources, turns)
    && merged == Merged(ScannedContracts(turns)) && updated == Advanced(wallets, turns)
  }

  lemma AreTurnsSnoc(s: State, wallets: seq<Wallet>, sources: nat -> Source, turns: seq<Turn>, turn: Turn)
    requires AreTurns(s, wallets, sources, turns) && |turns| < |wallets|
    requires IsTurn(s, wallets[|turns|], sources(|turns|), turn)
    ensures AreTurns(s, wallets, sources, turns + [turn])
  {
    var all := turns + [turn];
    forall k | 0 <= k < |all| ensures TurnAt(s, wallets, sources, all, k) {
      assert k < |turns| ==> all[k] == turns[k] && TurnAt(s, wallets, sources, turns, k);
    }
  }

  lemma HoldsMore(s: State, wallets: seq<Wallet>, sources: nat -> Source, turns: seq<Turn>, turn: Turn,
                  updated: seq<Wallet>)
    requires AreTurns(s, wallets, sources, turns) && |turns| < |wallets|
    requires IsTurn(s, wallets[|turns|], sources(|turns|), turn)
    requires updated == Advanced(wallets, turns) +
               if turn.scan.Ok? && wallets[|turns|].lt < turn.scan.value.1
               then [wallets[|turns|].(lt := turn.scan.value.1)] else []
    ensures var all := ScannedContracts(turns) + if turn.scan.Ok? then turn.scan.value.0 else [];
            Holds(s, wallets, sources, turns + [turn], Merged(all), updated)
  {
    TurnsSnoc(wallets, turns, turn);
    AreTurnsSnoc(s, wallets, sources, turns, turn);
  }

  /** One wallet that the context allowed: scanned and merged, or skipped. */
  method ScanOneWallet(ghost s: State, wallets: seq<Wallet>, k: nat, sources: nat -> Source, ghost turns: seq<Turn>,
                       merged: map<string, StorageContract>, updated: seq<Wallet>, ghost trace: seq<Call>)
    returns (merged': map<string, StorageContract>, updated': seq<Wallet>, ghost turns': seq<Turn>,
             ghost trace': seq<Call>)
    requires |turns| == k < |wallets| && AllHonest(s, wallets, sources) && SoFar(trace)
    requires Holds(s, wallets, sources, turns, merged, updated)
    ensures |turns'| == k + 1 && SoFar(trace') && Holds(s, wallets, sources, turns', merged', updated')
  {
    merged', updated', trace' := merged, updated, trace;
    ghost var turn := NoTurn();
    if IsUserFriendly(wallets[k].address) {
      assert HonestAt(s, wallets, sources, k);
      var r;
      r, turn := ScanWallet(s, wallets[k], sources(k));
      Tries(trace, r.Ok?);
      trace' := Then(trace, BestEffort, r.Ok?);
      if r.Ok? {
        var (contracts, lastLT) := r.value;
        merged' := MergeScan(merged, contracts, ScannedContracts(turns));
        if wallets[k].lt < lastLT {
          updated' := updated + [wallets[k].(lt := lastLT)];
        }
      }
    }
    turns' := turns + [turn];
    assert ScannedContracts(turns) + [] == ScannedContracts(turns);
    HoldsMore(s, wallets, sources, turns, turn, updated');
  }

  lemma HoldsNothing(s: State, wallets: seq<Wallet>, sources: nat -> Source)
    ensures Holds(s, wallets, sources, [], map[], [])
  {
  }

  /** The context check before the k-th wallet, and the wallet's turn unless it says to stop. */
  method ScanNext(ghost s: State, wallets: seq<Wallet>, k: nat, stop: bool, sources: nat -> Source,
                  ghost turns: seq<Turn>, merged: map<string, StorageContract>, updated: seq<Wallet>,
                  ghost trace: seq<Call>, ghost publish: PublishOutcome)
    returns (merged': map<string, StorageContract>, updated': seq<Wallet>, ghost turns': seq<Turn>,
             ghost trace': seq<Call>)
    requires |turns| == k < |wallets| && AllHonest(s, wallets, sources) && SoFar(trace)
    requires Holds(s, wallets, sources, turns, merged, updated)
    ensures Holds(s, wallets, sources, turns', merged', updated')
    ensures if stop then Obeys(trace', false, publish, 0) else |turns'| == k + 1 && SoFar(trace')
  {
    Calls(trace, !stop, publish);
    trace' := Then(trace, Fallible, !stop);
    if stop {
      return merged, updated, turns, trace';
    }
    merged', updated', turns', trace' := ScanOneWallet(s, wallets, k, sources, turns, merged, updated, trace');
  }

  /** The loop after k wallets, none of which the context stopped. */
  ghost predicate Looping(s: State, wallets: seq<Wallet>, cancelled: nat -> bool, sources: nat -> Source, k: nat,
                          turns: seq<Turn>, merged: map<string, StorageContract>, updated: seq<Wallet>,
                          trace: seq<Call>)
  {
    && (forall j :: 0 <= j < k ==> !cancelled(j))
    && |turns| == k && SoFar(trace) && Holds(s, wallets, sources, turns, merged, updated)
  }

  /** What the loop returned: nothing if the context stopped it, otherwise the merged scans and the advanced wallets. */
  ghost predicate Looped(s: State, wallets: seq<Wallet>, cancelled: nat -> bool, sources: nat -> Source,
                         publish: PublishOutcome, r: Option<(map<string, StorageContract>, seq<Wallet>)>,
                         turns: seq<Turn>, trace: seq<Call>)
  {
    && AreTurns(s, wallets, sources, turns)
    && (r.None? <==> exists k :: 0 <= k < |wallets| && cancelled(k))
    && (r.None? ==> Obeys(trace, false, publish, 0))
    && (r.Some? ==>
          && |turns| == |wallets| && SoFar(trace)
          && r.value == (Merged(ScannedContracts(turns)), Advanced(wallets, turns)))
  }

  lemma LoopStops(s: State, wallets: seq<Wallet>, cancelled: nat -> bool, sources: nat -> Source, k: nat,
                  publish: PublishOutcome, turns: seq<Turn>, trace: seq<Call>)
    requires k < |wallets| && cancelled(k) && AreTurns(s, wallets, sources, turns) && Obeys(trace, false, publish, 0)
    ensures Looped(s, wallets, cancelled, sources, publish, None, turns, trace)
  {
  }

  lemma LoopEnds(s: State, wallets: seq<Wallet>, cancelled: nat -> bool, sources: nat -> Source,
                 publish: PublishOutcome, turns: seq<Turn>, merged: map<string, StorageContract>, updated: seq<Wallet>,
                 trace: seq<Call>)
    requires Looping(s, wallets, cancelled, sources, |wallets|, turns, merged, updated, trace)
    ensures Looped(s, wallets, cancelled, sources, publish, Some((merged, updated)), turns, trace)
  {
  }

  /** The wallet loop. None: the context was cancelled before some wallet. */
  method ScanWallets(ghost s: State, wallets: seq<Wallet>, cancelled: nat -> bool, sources: nat -> Source,
                     ghost before: seq<Call>, ghost publish: PublishOutcome)
    returns (r: Option<(map<string, StorageContract>, seq<Wallet>)>, ghost turns: seq<Turn>, ghost trace: seq<Call>)
    requires AllHonest(s, wallets, sources) && SoFar(before)
    ensures Looped(s, wallets, cancelled, sources, publish, r, turns, trace)
  {
    var merged: map<string, StorageContract> := map[];
    var updated: seq<Wallet> := [];
    turns, trace := [], before;
    HoldsNothing(s, wallets, sources);
    for k := 0 to |wallets|
      invariant Looping(s, wallets, cancelled, sources, k, turns, merged, updated, trace)
    {
      merged, updated, turns, trace :=
        ScanNext(s, wallets, k, cancelled(k), sources, turns, merged, updated, trace, publish);
      if cancelled(k) {
        LoopStops(s, wallets, cancelled, sources, k, publish, turns, trace);
        return None, turns, trace;
      }
    }
    LoopEnds(s, wallets, cancelled, sources, publish, turns, merged, updated, trace);
    r := Some((merged, updated));
  }

  /** The i-th wallet is the last with the address. */
  ghost predicate Owns(wallets: seq<Wallet>, i: nat, address: string) {
    && i < |wallets| && wallets[i].address == address
    && forall j :: i < j < |wallets| ==> wallets[j].address != address
  }

  /** The key is that of the last wallet with the address. */
  ghost predicate IsOwner(wallets: seq<Wallet>, address: string, pubkey: string) {
    exists i: nat :: Owns(wallets, i, address) && wallets[i].publicKey == pubkey
  }

  lemma OwnerStep(wallets: seq<Wallet>, x: Wallet, address: string, pubkey: string)
    requires if address == x.address then pubkey == x.publicKey else IsOwner(wallets, address, pubkey)
    ensures IsOwner(wallets + [x], address, pubkey)
  {
    if address == x.address {
      assert Owns(wallets + [x], |wallets|, address);
    } else {
      var i: nat :| Owns(wallets, i, address) && wallets[i].publicKey == pubkey;
      assert Owns(wallets + [x], i, address);
    }
  }

  /** addrToPubkey: a later wallet with the same address wins. */
  method AddrToPubkey(wallets: seq<Wallet>) returns (m: map<string, string>)
    ensures forall x :: x in wallets ==> x.address in m
    ensures forall a :: a in m ==> IsOwner(wallets, a, m[a])
  {
    m := map[];
    for i := 0 to |wallets|
      invariant forall x :: x in wallets[..i] ==> x.address in m
      invariant forall a :: a in m ==> IsOwner(wallets[..i], a, m[a])
    {
      var x := wallets[i];
      assert wallets[..i + 1] == wallets[..i] + [x];
      m := m[x.address := x.publicKey];
      forall a | a in m ensures IsOwner(wallets[..i + 1], a, m[a]) {
        OwnerStep(wallets[..i], x, a, m[a]);
      }
    }
    assert wallets[..|wallets|] == wallets;
  }

  /** Each scanned contract lists exactly its own wallet, which has a row. */
  lemma {:induction false} ScansListOwnWallet(s: State, wallets: seq<Wallet>, sources: nat -> Source, turns: seq<Turn>,
                                              addrs: set<string>)
    requires AreTurns(s, wallets, sources, turns) && forall x :: x in wallets ==> x.address in addrs
    ensures forall c :: c in ScannedContracts(turns) ==> |c.providers| == 1 && c.providers[0] in addrs
  {
    if turns != [] {
      var k := |turns| - 1;
      AreTurnsPrefix(s, wallets, sources, turns, k);
      ScansListOwnWallet(s, wallets, sources, turns[..k], addrs);
      assert TurnAt(s, wallets, sources, turns, k) && wallets[k] in wallets;
    }
  }

  /** A relation repeats a published contract's data and names the last loaded wallet with an address that it lists. */
  ghost predicate RelationOf(rel: Relation, contracts: seq<StorageContract>, wallets: seq<Wallet>) {
    && IsOwner(wallets, rel.providerAddress, rel.providerPubkey)
    && exists c :: c in contracts && rel.providerAddress in c.providers
                   && rel == Relation(c.address, rel.providerPubkey, rel.providerAddress, c.bagID, c.size)
  }

  lemma RelationNamesWallet(rel: Relation, contracts: seq<StorageContract>, wallets: seq<Wallet>,
                            addrToPubkey: map<string, string>)
    requires RelationFrom(rel, contracts, addrToPubkey)
    requires forall a :: a in addrToPubkey ==> IsOwner(wallets, a, addrToPubkey[a])
    ensures RelationOf(rel, contracts, wallets)
  {
    var c :| c in contracts && rel.contractAddr == c.address && rel.bagID == c.bagID && rel.size == c.size &&
        rel.providerAddress in c.providers;
    assert rel == Relation(c.address, rel.providerPubkey, rel.providerAddress, c.bagID, c.size);
  }

  /** The payload of a cycle, described by the scans alone. */
  ghost predicate PayloadOf(r: WalletsResult, wallets: seq<Wallet>, turns: seq<Turn>)
    requires |turns| <= |wallets|
  {
    var all := ScannedContracts(turns);
    && Enumerates(r.contracts, Merged(all))
    && r.updatedWallets == Advanced(wallets, turns)
    && |r.relations| == |all|
    && Image(RelationPair, r.relations) == AllPairs(all, set x | x in wallets :: x.address)
    && forall rel :: rel in r.relations ==> RelationOf(rel, r.contracts, wallets)
  }

  lemma OwnersAreLoaded(wallets: seq<Wallet>, addrToPubkey: map<string, string>)
    requires forall x :: x in wallets ==> x.address in addrToPubkey
    requires forall a :: a in addrToPubkey ==> IsOwner(wallets, a, addrToPubkey[a])
    ensures addrToPubkey.Keys == set x | x in wallets :: x.address
  {
    forall a | a in addrToPubkey ensures exists x :: x in wallets && x.address == a {
      assert IsOwner(wallets, a, addrToPubkey[a]);
      var i: nat :| Owns(wallets, i, a) && wallets[i].publicKey == addrToPubkey[a];
      assert wallets[i] in wallets;
    }
  }

  method Payload(wallets: seq<Wallet>, merged: map<string, StorageContract>, updated: seq<Wallet>,
                 ghost s: State, ghost sources: nat -> Source, ghost turns: seq<Turn>)
    returns (r: WalletsResult)
    requires AreTurns(s, wallets, sources, turns)
    requires merged == Merged(ScannedContracts(turns)) && updated == Advanced(wallets, turns)
    ensures PayloadOf(r, wallets, turns)
  {
    ghost var all := ScannedContracts(turns);
    var addrToPubkey := AddrToPubkey(wallets);
    MergedIsExact(all);
    forall a | a in merged ensures merged[a].address == a { assert EntryOf(all, merged, a); }
    var contracts := Contracts(merged);
    var relations := Relations(contracts, addrToPubkey);
    ScansListOwnWallet(s, wallets, sources, turns, addrToPubkey.Keys);
    RelationsConserveScans(all, contracts, relations, addrToPubkey);
    OwnersAreLoaded(wallets, addrToPubkey);
    forall rel | rel in relations ensures RelationOf(rel, contracts, wallets) {
      RelationNamesWallet(rel, contracts, wallets, addrToPubkey);
    }
    r := WalletsResult(contracts, relations, updated);
  }

  // ----- what the payload says about each wallet -----

  /** The turn's fetch was not cut. */
  ghost predicate IsComplete(s: State, x: Wallet, turn: Turn) {
    Complete(ChainOf(s, x.address), turn.fetch.collected, turn.fetch.stop)
  }

  /** A truthful server that never cuts. */
  ghost predicate Uncut(src: Source) {
    Truthful(src.server) && NeverCuts(src.server)
  }

  /** The contracts a complete scan has to list: known to the lookup, and paid in what a complete fetch brings. */
  ghost predicate HasToList(h: seq<RawTx>, fromLT: nat, lookup: Lookup, a: string) {
    lookup(a).Some? && exists j :: First(h, fromLT) <= j < |h| && PaidBy(h[j]) == Some(a)
  }

  /** The scan reaches the newest withdrawal, and lists exactly the contracts it has to, each with its data. */
  ghost predicate TurnIsExact(s: State, x: Wallet, src: Source, turn: Turn) {
    var h := ChainOf(s, x.address);
    && turn.scan.Ok? && IsNewestPayment(h, x.lt, turn.scan.value.1)
    && (forall a :: a in Addresses(turn.scan.value.0) <==> HasToList(h, x.lt, src.lookup, a))
    && (forall c :: c in turn.scan.value.0 ==> IsListing(h, First(h, x.lt), x.address, src.lookup, c))
  }

  lemma CompleteTurnIsExact(s: State, x: Wallet, src: Source, turn: Turn)
    requires History(ChainOf(s, x.address)) && IsTurn(s, x, src, turn) && turn.scan.Ok? && IsComplete(s, x, turn)
    ensures TurnIsExact(s, x, src, turn)
  {
    var h, f := ChainOf(s, x.address), turn.fetch;
    var contracts, lastLT := turn.scan.value.0, turn.scan.value.1;
    CompleteScanReaches(h, x.lt, x.address, f.collected, f.stop, contracts, lastLT);
    CompleteFetchBegins(h, x.lt, f.collected, f.stop);
    forall a ensures a in Addresses(contracts) <==> HasToList(h, x.lt, src.lookup, a) {
      CompleteScanLists(h, x.lt, x.address, f.collected, f.stop, src.lookup, contracts, lastLT, a);
    }
    forall c | c in contracts ensures IsListing(h, First(h, x.lt), x.address, src.lookup, c) {
      ListingIsExact(h, x.lt, x.address, f.collected, f.stop, src.lookup, contracts, lastLT, c);
    }
  }

  lemma UncutTurnIsComplete(s: State, x: Wallet, src: Source, turn: Turn)
    requires History(ChainOf(s, x.address)) && IsTurn(s, x, src, turn) && turn.scan.Ok? && Uncut(src)
    ensures IsComplete(s, x, turn)
  {
    UncutIsComplete(ChainOf(s, x.address), src.server, x.lt, turn.fetch);
  }

  lemma {:induction false} ScannedHas(turns: seq<Turn>, k: nat, c: StorageContract)
    requires k < |turns| && turns[k].scan.Ok? && c in turns[k].scan.value.0
    ensures c in ScannedContracts(turns)
  {
    if k < |turns| - 1 {
      ScannedHas(turns[..|turns| - 1], k, c);
    }
  }

  lemma {:induction false} AdvancedHas(wallets: seq<Wallet>, turns: seq<Turn>, k: nat)
    requires |turns| <= |wallets| && k < |turns| && turns[k].scan.Ok? && wallets[k].lt < turns[k].scan.value.1
    ensures wallets[k].(lt := turns[k].scan.value.1) in Advanced(wallets, turns)
  {
    if k < |turns| - 1 {
      AdvancedHas(wallets, turns[..|turns| - 1], k);
    }
  }

  lemma {:induction false} AdvancedFrom(wallets: seq<Wallet>, turns: seq<Turn>, u: Wallet) returns (k: nat)
    requires |turns| <= |wallets| && u in Advanced(wallets, turns)
    ensures k < |turns| && turns[k].scan.Ok? && wallets[k].lt < turns[k].scan.value.1
    ensures u == wallets[k].(lt := turns[k].scan.value.1)
  {
    var n := |turns| - 1;
    if u in Advanced(wallets, turns[..n]) {
      k := AdvancedFrom(wallets, turns[..n], u);
    } else {
      k := n;
    }
  }

  /** Every contract that paid the wallet above its LT, and that the lookup knows, is listed for it. */
  ghost predicate WalletListed(s: State, x: Wallet, src: Source, r: WalletsResult) {
    var h := ChainOf(s, x.address);
    forall j :: 0 <= j < |h| && x.lt < h[j].lt && PaidBy(h[j]).Some? && src.lookup(PaidBy(h[j]).value).Some? ==>
      (x.address, PaidBy(h[j]).value) in ListedIn(r.contracts)
  }

  /** If there is a withdrawal above the wallet's LT, the wallet is advanced to the newest. */
  ghost predicate WalletAdvanced(s: State, x: Wallet, r: WalletsResult) {
    forall lt :: IsNewestPayment(ChainOf(s, x.address), x.lt, lt) && x.lt < lt ==> x.(lt := lt) in r.updatedWallets
  }

  lemma NewerIsFetched(h: seq<RawTx>, fromLT: nat, j: nat)
    requires History(h) && j < |h| && fromLT < h[j].lt
    ensures First(h, fromLT) <= j
  {
    NotAboveSplits(h, fromLT, |h|);
  }

  lemma ExactTurnIsListed(s: State, wallets: seq<Wallet>, src: Source, turns: seq<Turn>, r: WalletsResult, k: nat)
    requires |turns| == |wallets| && k < |turns| && PayloadOf(r, wallets, turns)
    requires History(ChainOf(s, wallets[k].address)) && TurnIsExact(s, wallets[k], src, turns[k])
    ensures WalletListed(s, wallets[k], src, r)
  {
    var x := wallets[k];
    var h, all := ChainOf(s, x.address), ScannedContracts(turns);
    MergeKeepsListed(all, r.contracts);
    forall j | 0 <= j < |h| && x.lt < h[j].lt && PaidBy(h[j]).Some? && src.lookup(PaidBy(h[j]).value).Some?
      ensures (x.address, PaidBy(h[j]).value) in ListedIn(r.contracts)
    {
      var a := PaidBy(h[j]).value;
      NewerIsFetched(h, x.lt, j);
      assert HasToList(h, x.lt, src.lookup, a);
      var c :| c in turns[k].scan.value.0 && c.address == a;
      ScannedHas(turns, k, c);
      assert x.address in c.providers;
      assert (x.address, a) in ListedIn(all);
    }
  }

  lemma ExactTurnAdvances(s: State, wallets: seq<Wallet>, src: Source, turns: seq<Turn>, r: WalletsResult, k: nat)
    requires |turns| == |wallets| && k < |turns| && PayloadOf(r, wallets, turns)
    requires TurnIsExact(s, wallets[k], src, turns[k])
    ensures WalletAdvanced(s, wallets[k], r)
  {
    var x, lastLT := wallets[k], turns[k].scan.value.1;
    forall lt | IsNewestPayment(ChainOf(s, x.address), x.lt, lt) && x.lt < lt ensures x.(lt := lt) in r.updatedWallets {
      assert lt == lastLT;
      AdvancedHas(wallets, turns, k);
    }
  }

  /** What the payload says about the k-th wallet when its scan succeeded. */
  ghost predicate ReportsWallet(s: State, wallets: seq<Wallet>, sources: nat -> Source, turns: seq<Turn>,
                                r: WalletsResult, k: nat)
    requires k < |wallets| && k < |turns|
  {
    turns[k].scan.Ok? ==>
      && (Uncut(sources(k)) ==> IsComplete(s, wallets[k], turns[k]))
      && (IsComplete(s, wallets[k], turns[k]) ==>
            && TurnIsExact(s, wallets[k], sources(k), turns[k])
            && WalletListed(s, wallets[k], sources(k), r) && WalletAdvanced(s, wallets[k], r))
  }

  lemma PayloadReportsOne(s: State, wallets: seq<Wallet>, sources: nat -> Source, turns: seq<Turn>, r: WalletsResult,
                          k: nat)
    requires AllHonest(s, wallets, sources) && AreTurns(s, wallets, sources, turns) && |turns| == |wallets|
    requires PayloadOf(r, wallets, turns) && k < |wallets|
    ensures ReportsWallet(s, wallets, sources, turns, r, k)
  {
    var x, src, turn := wallets[k], sources(k), turns[k];
    assert HonestAt(s, wallets, sources, k) && TurnAt(s, wallets, sources, turns, k);
    if turn.scan.Ok? && Uncut(src) {
      UncutTurnIsComplete(s, x, src, turn);
    }
    if turn.scan.Ok? && IsComplete(s, x, turn) {
      CompleteTurnIsExact(s, x, src, turn);
      ExactTurnIsListed(s, wallets, src, turns, r, k);
      ExactTurnAdvances(s, wallets, src, turns, r, k);
    }
  }

  ghost predicate ReportsWallets(s: State, wallets: seq<Wallet>, sources: nat -> Source, turns: seq<Turn>,
                                 r: WalletsResult)
    requires |turns| == |wallets|
  {
    forall k :: 0 <= k < |wallets| ==> ReportsWallet(s, wallets, sources, turns, r, k)
  }

  lemma PayloadReportsAll(s: State, wallets: seq<Wallet>, sources: nat -> Source, turns: seq<Turn>, r: WalletsResult)
    requires AllHonest(s, wallets, sources) && AreTurns(s, wallets, sources, turns) && |turns| == |wallets|
    requires PayloadOf(r, wallets, turns)
    ensures ReportsWallets(s, wallets, sources, turns, r)
  {
    forall k | 0 <= k < |wallets| ensures ReportsWallet(s, wallets, sources, turns, r, k) {
      PayloadReportsOne(s, wallets, sources, turns, r, k);
    }
  }

  /**
   With one wallet per key, a wallet whose fetch was complete is among the advanced ones exactly if
   there is a withdrawal above its LT, and then with the LT of the newest.
   */
  lemma AdvancedExactly(s: State, wallets: seq<Wallet>, sources: nat -> Source, turns: seq<Turn>, k: nat)
    requires AllHonest(s, wallets, sources) && AreTurns(s, wallets, sources, turns) && |turns| == |wallets|
    requires k < |wallets| && turns[k].scan.Ok? && IsComplete(s, wallets[k], turns[k])
    requires forall i :: 0 <= i < |wallets| && i != k ==> wallets[i].publicKey != wallets[k].publicKey
    ensures var h, x := ChainOf(s, wallets[k].address), wallets[k];
            && ((exists u :: u in Advanced(wallets, turns) && u.publicKey == x.publicKey) <==>
                exists j :: 0 <= j < |h| && PaidBy(h[j]).Some? && x.lt < h[j].lt)
            && forall u :: u in Advanced(wallets, turns) && u.publicKey == x.publicKey ==>
                 u == x.(lt := u.lt) && x.lt < u.lt && IsNewestPayment(h, x.lt, u.lt)
  {
    var h, x := ChainOf(s, wallets[k].address), wallets[k];
    assert HonestAt(s, wallets, sources, k) && TurnAt(s, wallets, sources, turns, k);
    CompleteTurnIsExact(s, x, sources(k), turns[k]);
    forall u | u in Advanced(wallets, turns) && u.publicKey == x.publicKey
      ensures u == x.(lt := turns[k].scan.value.1) && x.lt < u.lt
    {
      var i := AdvancedFrom(wallets, turns, u);
    }
    if x.lt < turns[k].scan.value.1 {
      AdvancedHas(wallets, turns, k);
    }
  }

  /** What the end of a cycle leaves of the protocol state. */
  ghost predicate CycleEnd(s: State, s': State, w: nat, r: WalletsResult, publish: PublishOutcome,
                           lts: map<string, nat>) {
    && PhaseOf(s', w).Idle?
    && s'.published == (if publish.NotAppended? then s.published else s.published + [r])
    && s'.rows == (if publish.Appended? then StoreLTs(s, lts).rows else s.rows)
  }

  lemma EndPath(path: seq<State>, s: State, w: nat, wallets: seq<Wallet>, all: seq<StorageContract>,
                missed: set<Missed>, r: WalletsResult, publish: PublishOutcome, lts: map<string, nat>)
    returns (longer: seq<State>)
    requires IsPath(path, ANY)
    requires Last(path) == SetPhase(s, w, Scanning(wallets, |wallets|, all, r.updatedWallets, missed))
    requires Enumerates(r.contracts, Merged(all)) && Chosen(s, r.updatedWallets, lts)
    ensures IsPath(longer, ANY) && longer[0] == path[0]
    ensures CycleEnd(s, Last(longer), w, r, publish, lts)
  {
    if publish.NotAppended? {
      longer := ExtendPath(path, ANY, Abort(w));
    } else {
      longer := ExtendPath(path, ANY, Publish(w, r.contracts, r.relations, publish.Appended?));
      if publish.Appended? {
        longer := ExtendPath(longer, ANY, WriteLTs(w, lts));
      }
    }
  }

  lemma CyclePath(s: State, w: nat, wallets: seq<Wallet>, sources: nat -> Source, turns: seq<Turn>, r: WalletsResult,
                  publish: PublishOutcome, lts: map<string, nat>) returns (path: seq<State>)
    requires PhaseOf(s, w).Idle? && forall x :: x in wallets ==> IsRow(s, x)
    requires AreTurns(s, wallets, sources, turns) && |turns| == |wallets|
    requires PayloadOf(r, wallets, turns) && Chosen(s, r.updatedWallets, lts)
    ensures IsPath(path, ANY) && path[0] == s && CycleEnd(s, Last(path), w, r, publish, lts)
  {
    var missed;
    path, missed := LoopPath(s, w, wallets, sources, turns);
    path := EndPath(path, s, w, wallets, ScannedContracts(turns), missed, r, publish, lts);
  }

  // ----- the LT write -----

  /** The LT that UpdateLT carries for each lower-cased key. */
  function LTsFor(updated: seq<Wallet>): map<string, nat> {
    if updated == [] then map[] else
    var last := updated[|updated| - 1];
    LTsFor(updated[..|updated| - 1])[Lower(last.publicKey) := last.lt]
  }

  lemma {:induction false} LTsForComeFrom(updated: seq<Wallet>, pk: string)
    requires pk in LTsFor(updated)
    ensures exists u :: u in updated && Lower(u.publicKey) == pk && u.lt == LTsFor(updated)[pk]
  {
    var n := |updated| - 1;
    if Lower(updated[n].publicKey) == pk {
      assert updated[n] in updated;
    } else {
      LTsForComeFrom(updated[..n], pk);
    }
  }

  /** With one wallet per key, every advanced wallet's LT is carried. */
  lemma {:induction false} LTsForCarry(updated: seq<Wallet>, i: nat)
    requires i < |updated| && forall k :: i < k < |updated| ==>
      Lower(updated[k].publicKey) != Lower(updated[i].publicKey)
    ensures Lower(updated[i].publicKey) in LTsFor(updated) &&
      LTsFor(updated)[Lower(updated[i].publicKey)] == updated[i].lt
  {
    if i < |updated| - 1 {
      LTsForCarry(updated[..|updated| - 1], i);
    }
  }

  function WrittenLTs(rows: map<string, Row>, updated: seq<Wallet>, written: bool): map<string, nat> {
    map pk | pk in rows && written && pk in LTsFor(updated) :: LTsFor(updated)[pk]
  }

  lemma WrittenLTsAreChosen(s: State, updated: seq<Wallet>, written: bool)
    ensures Chosen(s, updated, WrittenLTs(s.rows, updated, written))
  {
    forall pk | pk in WrittenLTs(s.rows, updated, written)
      ensures exists u :: u in updated && Lower(u.publicKey) == pk && u.lt == WrittenLTs(s.rows, updated, written)[pk]
    {
      LTsForComeFrom(updated, pk);
    }
  }

  /** The rows after UpdateLT. */
  function RowsAfter(rows: map<string, Row>, updated: seq<Wallet>): map<string, Row> {
    map pk | pk in rows :: if pk in LTsFor(updated) then Row(rows[pk].address, LTsFor(updated)[pk]) else rows[pk]
  }

  lemma StoredRows(s: State, updated: seq<Wallet>, written: bool)
    ensures StoreLTs(s, WrittenLTs(s.rows, updated, written)).rows ==
      if written then RowsAfter(s.rows, updated) else s.rows
  {
  }

  /** The agent's side of the system: what scan_wallets reads and writes. */
  class WalletStore {
    var rows: map<string, Row>
    var results: seq<WalletsResult>

    constructor (rows: map<string, Row>)
      ensures this.rows == rows && this.results == []
    {
      this.rows, this.results := rows, [];
    }

    ghost predicate Agrees(s: State, w: nat)
      reads this
    {
      rows == s.rows && results == s.published && PhaseOf(s, w).Idle?
    }

    /**
     One execution of the handler by worker w over the loaded wallets. A load error, a
     cancellation or a failed publish leaves every LT alone; otherwise one result described by
     the scans is appended, and the rows of the advanced wallets take the LTs it carries, unless
     the update fails. It obeys the law of handlers.
     */
    method CollectStorageContracts(load: Result<seq<Wallet>>, cancelled: nat -> bool, sources: nat -> Source,
                                   publish: PublishOutcome, ltsWritten: bool, ghost s: State, ghost w: nat)
      returns (ok: bool, ghost path: seq<State>, ghost turns: seq<Turn>, ghost trace: seq<Call>)
      requires Agrees(s, w)
      requires load.Ok? ==> AllHonest(s, load.value, sources) && forall x :: x in load.value ==> IsRow(s, x)
      modifies this
      ensures IsPath(path, ANY) && path[0] == s && Agrees(Last(path), w)
      ensures load.Ok? ==> AreTurns(s, load.value, sources, turns)
      ensures old(results) <= results && Obeys(trace, ok, publish, |results| - |old(results)|)
      ensures var stopped := load.Err? || exists k :: 0 <= k < |load.value| && cancelled(k);
              && (ok <==> !stopped && publish.Appended?)
              && rows == (if ok && ltsWritten then RowsAfter(old(rows), Advanced(load.value, turns)) else old(rows))
              && (stopped || publish.NotAppended? ==> results == old(results))
              && (!stopped && !publish.NotAppended? ==>
                    && |results| == |old(results)| + 1 && |turns| == |load.value|
                    && PayloadOf(results[|old(results)|], load.value, turns)
                    && ReportsWallets(s, load.value, sources, turns, results[|old(results)|]))
    {
      path, turns, trace := [s], [], [];
      Calls(trace, load.Ok?, publish);
      trace := Then(trace, Fallible, load.Ok?);
      if load.Err? {
        return false, path, turns, trace;
      }
      var wallets := load.value;
      var scans;
      scans, turns, trace := ScanWallets(s, wallets, cancelled, sources, trace, publish);
      if scans.None? {
        return false, path, turns, trace;
      }
      var updated := scans.value.1;
      var result := Payload(wallets, scans.value.0, updated, s, sources, turns);
      PayloadReportsAll(s, wallets, sources, turns, result);
      WrittenLTsAreChosen(s, updated, ltsWritten);
      StoredRows(s, updated, ltsWritten);
      path := CyclePath(s, w, wallets, sources, turns, result, publish, WrittenLTs(s.rows, updated, ltsWritten));
      var appended;
      ok, appended, trace := Handlers.Publish(result, publish, trace);
      results := results + appended;
      if ok && 0 < |updated| {
        EndsWithBestEffort(trace, publish, 1, ltsWritten);
        trace := Then(trace, BestEffort, ltsWritten);
      }
      if ok && ltsWritten {
        rows := RowsAfter(rows, updated);
      }
    }
  }
}
