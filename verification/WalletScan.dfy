/** Scanner.Scan: the storage contracts that paid a provider's wallet, enriched with their data. */
module WalletScan {
  import opened Common
  import opened Chain

  const WITHDRAWAL_OP: nat := 0xa91baf56

  datatype StorageContract = StorageContract(
    address: string, bagID: string, ownerAddr: string, size: nat, chunkSize: nat,
    lastLT: nat, providers: seq<string>)

  /** What a storage contract says about itself. */
  datatype Details = Details(bagID: string, ownerAddr: string, size: nat, chunkSize: nat)

  datatype StorageInfo = StorageInfo(address: string, details: Details)

  /** None: the address does not parse, the call failed, or there is no such contract. */
  type Lookup = string -> Option<Details>

  predicate IsWithdrawal(tx: Tx) {
    tx.op == WITHDRAWAL_OP && 0 < tx.lt
  }

  predicate From(tx: Tx, contract: string) {
    IsWithdrawal(tx) && tx.from == contract
  }

  /** lt is the largest of fromLT and the LTs of all withdrawals. */
  ghost predicate IsWithdrawalMax(txs: seq<Tx>, fromLT: nat, lt: nat) {
    && fromLT <= lt
    && (forall t :: t in txs && IsWithdrawal(t) ==> t.lt <= lt)
    && (lt != fromLT ==> exists t :: t in txs && IsWithdrawal(t) && t.lt == lt)
  }

  ghost predicate IsLatest(txs: seq<Tx>, contract: string, lt: nat) {
    && (forall t :: t in txs && From(t, contract) ==> t.lt <= lt)
    && (exists t :: t in txs && From(t, contract) && t.lt == lt)
  }

  function Addresses(cs: seq<StorageContract>): set<string> {
    set c | c in cs :: c.address
  }

  ghost predicate DistinctAddresses(cs: seq<StorageContract>) {
    forall i, j :: 0 <= i < j < |cs| ==> cs[i].address != cs[j].address
  }

  /** What a scan of fetched transactions returns, apart from which contracts the lookup found. */
  ghost predicate WalletOutcome(txs: seq<Tx>, fromLT: nat, wallet: string, contracts: seq<StorageContract>,
                                lastLT: nat) {
    && IsWithdrawalMax(txs, fromLT, lastLT)
    && DistinctAddresses(contracts)
    && (forall c :: c in contracts ==> c.providers == [wallet] && IsLatest(txs, c.address, c.lastLT))
  }

  /** Exactly the withdrawing contracts the lookup knows, with the data it gave. */
  ghost predicate Enriched(txs: seq<Tx>, lookup: Lookup, contracts: seq<StorageContract>) {
    && (forall c :: c in contracts ==> lookup(c.address) == Some(Details(c.bagID, c.ownerAddr, c.size, c.chunkSize)))
    && (forall t :: t in txs && IsWithdrawal(t) && lookup(t.from).Some? ==> t.from in Addresses(contracts))
  }

  // ----- GetStorageContractsInfo -----

  /** The infos found for the addresses, in their order. */
  function InfosFor(addrs: seq<string>, lookup: Lookup): seq<StorageInfo> {
    if addrs == [] then [] else
    var a := addrs[|addrs| - 1];
    InfosFor(addrs[..|addrs| - 1], lookup) +
    match lookup(a) case None => [] case Some(d) => [StorageInfo(a, d)]
  }

  method GetStorageContractsInfo(addrs: seq<string>, masterchainOk: bool, lookup: Lookup)
    returns (r: Result<seq<StorageInfo>>)
    ensures r == if masterchainOk then Ok(InfosFor(addrs, lookup)) else Err
  {
    if !masterchainOk {
      return Err;
    }
    var contracts: seq<StorageInfo> := [];
    for i := 0 to |addrs|
      invariant contracts == InfosFor(addrs[..i], lookup)
    {
      assert addrs[..i + 1][..i] == addrs[..i];
      var info := lookup(addrs[i]);
      if info.Some? {
        contracts := contracts + [StorageInfo(addrs[i], info.value)];
      }
    }
    assert addrs[..|addrs|] == addrs;
    return Ok(contracts);
  }

  lemma {:induction false} InfosAreFaithful(addrs: seq<string>, lookup: Lookup)
    requires Distinct(addrs)
    ensures var infos := InfosFor(addrs, lookup);
            && (forall i, j :: 0 <= i < j < |infos| ==> infos[i].address != infos[j].address)
            && (forall x :: x in infos ==> x.address in addrs && lookup(x.address) == Some(x.details))
            && (forall a :: a in addrs && lookup(a).Some? ==> StorageInfo(a, lookup(a).value) in infos)
  {
    if addrs != [] {
      var n := |addrs| - 1;
      assert addrs == addrs[..n] + [addrs[n]];
      assert addrs[n] !in addrs[..n];
      InfosAreFaithful(addrs[..n], lookup);
    }
  }

  // ----- Scanner.Scan -----

  /** contractLT after the transactions: the latest withdrawal LT per contract. */
  ghost predicate Latest(txs: seq<Tx>, contractLT: map<string, nat>) {
    && (forall a :: a in contractLT ==> IsLatest(txs, a, contractLT[a]))
    && (forall t :: t in txs && IsWithdrawal(t) ==> t.from in contractLT)
  }

  lemma LatestStep(txs: seq<Tx>, tx: Tx, contractLT: map<string, nat>)
    requires Latest(txs, contractLT)
    ensures !IsWithdrawal(tx) ==> Latest(txs + [tx], contractLT)
    ensures IsWithdrawal(tx) && tx.from in contractLT && tx.lt <= contractLT[tx.from] ==> Latest(txs + [tx], contractLT)
    ensures IsWithdrawal(tx) && (tx.from in contractLT ==> contractLT[tx.from] < tx.lt) ==>
              Latest(txs + [tx], contractLT[tx.from := tx.lt])
  {
    var all := txs + [tx];
    assert tx in all;
    forall a | a in contractLT && !(From(tx, a) && contractLT[a] < tx.lt) ensures IsLatest(all, a, contractLT[a]) {
      var t :| t in txs && From(t, a) && t.lt == contractLT[a];
      assert t in all;
    }
    if IsWithdrawal(tx) && (tx.from in contractLT ==> contractLT[tx.from] < tx.lt) {
      assert From(tx, tx.from);
      assert IsLatest(all, tx.from, tx.lt);
    }
  }

  lemma WithdrawalMaxStep(txs: seq<Tx>, tx: Tx, fromLT: nat, lt: nat)
    requires IsWithdrawalMax(txs, fromLT, lt)
    ensures IsWithdrawalMax(txs + [tx], fromLT, if IsWithdrawal(tx) && lt < tx.lt then tx.lt else lt)
  {
    assert tx in txs + [tx];
    assert forall t :: t in txs ==> t in txs + [tx];
  }

  /** The transaction loop. */
  method LatestWithdrawals(txs: seq<Tx>, fromLT: nat) returns (contractLT: map<string, nat>, lastLT: nat)
    ensures Latest(txs, contractLT) && IsWithdrawalMax(txs, fromLT, lastLT)
  {
    contractLT := map[];
    lastLT := fromLT;
    for i := 0 to |txs|
      invariant Latest(txs[..i], contractLT)
      invariant IsWithdrawalMax(txs[..i], fromLT, lastLT)
    {
      var tx := txs[i];
      assert txs[..i + 1] == txs[..i] + [tx];
      LatestStep(txs[..i], tx, contractLT);
      WithdrawalMaxStep(txs[..i], tx, fromLT, lastLT);
      if tx.op == WITHDRAWAL_OP {
        if lastLT < tx.lt {
          lastLT := tx.lt;
        }
        var seen := if tx.from in contractLT then contractLT[tx.from] else 0;
        if seen < tx.lt {
          contractLT := contractLT[tx.from := tx.lt];
        }
      }
    }
    assert txs[..|txs|] == txs;
  }

  /** The keys of contractLT, in whatever order the map is walked. */
  method AddressList(contractLT: map<string, nat>) returns (addrs: seq<string>)
    ensures Distinct(addrs) && forall a :: a in addrs <==> a in contractLT
  {
    addrs := [];
    var left := contractLT.Keys;
    while left != {}
      invariant left <= contractLT.Keys && Distinct(addrs)
      invariant forall a :: a in addrs <==> a in contractLT && a !in left
      decreases left
    {
      var a :| a in left;
      addrs := addrs + [a];
      left := left - {a};
    }
  }

  function Contract(info: StorageInfo, lt: nat, wallet: string): StorageContract {
    StorageContract(info.address, info.details.bagID, info.details.ownerAddr, info.details.size,
                    info.details.chunkSize, lt, [wallet])
  }

  /** The join of the infos with the LTs. An info for an address that was not asked for is dropped. */
  method Enrich(infos: seq<StorageInfo>, contractLT: map<string, nat>, wallet: string)
    returns (contracts: seq<StorageContract>)
    ensures (forall i :: 0 <= i < |infos| ==> infos[i].address in contractLT) ==>
      && |contracts| == |infos|
      && forall i :: 0 <= i < |infos| ==> contracts[i] == Contract(infos[i], contractLT[infos[i].address], wallet)
  {
    contracts := [];
    for i := 0 to |infos|
      invariant (forall j :: 0 <= j < i ==> infos[j].address in contractLT) ==>
        && |contracts| == i
        && forall j :: 0 <= j < i ==> contracts[j] == Contract(infos[j], contractLT[infos[j].address], wallet)
    {
      if infos[i].address in contractLT {
        contracts := contracts + [Contract(infos[i], contractLT[infos[i].address], wallet)];
      }
    }
  }

  lemma JoinIsOutcome(txs: seq<Tx>, fromLT: nat, wallet: string, lookup: Lookup, contractLT: map<string, nat>,
                      infos: seq<StorageInfo>, contracts: seq<StorageContract>, lastLT: nat)
    requires Latest(txs, contractLT) && IsWithdrawalMax(txs, fromLT, lastLT)
    requires forall i, j :: 0 <= i < j < |infos| ==> infos[i].address != infos[j].address
    requires forall x :: x in infos ==> x.address in contractLT && lookup(x.address) == Some(x.details)
    requires forall a :: a in contractLT && lookup(a).Some? ==> StorageInfo(a, lookup(a).value) in infos
    requires |contracts| == |infos|
    requires forall i :: 0 <= i < |infos| ==>
      infos[i].address in contractLT && contracts[i] == Contract(infos[i], contractLT[infos[i].address], wallet)
    ensures WalletOutcome(txs, fromLT, wallet, contracts, lastLT) && Enriched(txs, lookup, contracts)
  {
    forall c | c in contracts
      ensures c.providers == [wallet] && IsLatest(txs, c.address, c.lastLT)
      ensures lookup(c.address) == Some(Details(c.bagID, c.ownerAddr, c.size, c.chunkSize))
    {
      var i :| 0 <= i < |contracts| && contracts[i] == c;
      assert infos[i] in infos;
    }
    forall t | t in txs && IsWithdrawal(t) && lookup(t.from).Some? ensures t.from in Addresses(contracts) {
      var i :| 0 <= i < |infos| && infos[i] == StorageInfo(t.from, lookup(t.from).value);
      assert contracts[i] in contracts;
    }
  }

  lemma LatestIsEmpty(txs: seq<Tx>, contractLT: map<string, nat>)
    requires Latest(txs, contractLT)
    ensures |contractLT| == 0 <==> !exists t :: t in txs && IsWithdrawal(t)
  {
    if |contractLT| != 0 {
      var a :| a in contractLT;
      assert IsLatest(txs, a, contractLT[a]);
    }
  }

  /** Scanner.Scan, given what GetTransactions returned. */
  method Scan(txs: seq<Tx>, fromLT: nat, wallet: string, masterchainOk: bool, lookup: Lookup)
    returns (r: Result<(seq<StorageContract>, nat)>)
    ensures r.Ok? ==> WalletOutcome(txs, fromLT, wallet, r.value.0, r.value.1) && Enriched(txs, lookup, r.value.0)
    ensures r.Err? <==> !masterchainOk && exists t :: t in txs && IsWithdrawal(t)
  {
    var contractLT, lastLT := LatestWithdrawals(txs, fromLT);
    LatestIsEmpty(txs, contractLT);
    if |contractLT| == 0 {
      return Ok(([], lastLT));
    }
    var addrs := AddressList(contractLT);
    var infos := GetStorageContractsInfo(addrs, masterchainOk, lookup);
    if infos.Err? {
      return Err;
    }
    InfosAreFaithful(addrs, lookup);
    var contracts := Enrich(infos.value, contractLT, wallet);
    JoinIsOutcome(txs, fromLT, wallet, lookup, contractLT, infos.value, contracts, lastLT);
    return Ok((contracts, lastLT));
  }
}
