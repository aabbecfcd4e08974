/** The merge in CollectStorageContracts: one contract per address over all wallet scans, and its relations. */
module WalletMerge {
  import opened Common
  import opened Domain
  import opened WalletScan

  // ----- the merged map -----

  /** What the loop does with one scanned contract. */
  function MergeInto(merged: map<string, StorageContract>, c: StorageContract): map<string, StorageContract> {
    if c.address in merged then
      var e := merged[c.address];
      merged[c.address := e.(providers := e.providers + c.providers,
                             lastLT := if e.lastLT < c.lastLT then c.lastLT else e.lastLT)]
    else
      merged[c.address := c]
  }

  function Merged(all: seq<StorageContract>): map<string, StorageContract> {
    if all == [] then map[] else MergeInto(Merged(all[..|all| - 1]), all[|all| - 1])
  }

  /** The providers listed for an address, in scan order. */
  function ProvidersOf(all: seq<StorageContract>, address: string): seq<string> {
    if all == [] then [] else
    var c := all[|all| - 1];
    ProvidersOf(all[..|all| - 1], address) + if c.address == address then c.providers else []
  }

  ghost predicate IsMaxLT(all: seq<StorageContract>, address: string, lt: nat) {
    && (forall c :: c in all && c.address == address ==> c.lastLT <= lt)
    && (exists c :: c in all && c.address == address && c.lastLT == lt)
  }

  /** Position k holds the first scanned contract with that address. */
  ghost predicate FirstWith(all: seq<StorageContract>, address: string, k: nat) {
    k < |all| && all[k].address == address && forall j :: 0 <= j < k ==> all[j].address != address
  }

  predicate SameData(c: StorageContract, d: StorageContract) {
    c.address == d.address && c.bagID == d.bagID && c.ownerAddr == d.ownerAddr && c.size == d.size &&
        c.chunkSize == d.chunkSize
  }

  /** The merged entry for one address, described without the merge. */
  ghost predicate MergedEntry(all: seq<StorageContract>, c: StorageContract) {
    && c.providers == ProvidersOf(all, c.address)
    && IsMaxLT(all, c.address, c.lastLT)
    && exists k: nat :: FirstWith(all, c.address, k) && SameData(c, all[k])
  }

  lemma NoProvidersWithoutContract(all: seq<StorageContract>, address: string)
    requires forall c :: c in all ==> c.address != address
    ensures ProvidersOf(all, address) == []
  {
    if all != [] {
      assert all[|all| - 1] in all;
      NoProvidersWithoutContract(all[..|all| - 1], address);
    }
  }

  lemma FirstStays(all: seq<StorageContract>, d: StorageContract, c: StorageContract)
    requires exists k: nat :: FirstWith(all, c.address, k) && SameData(c, all[k])
    ensures exists k: nat :: FirstWith(all + [d], c.address, k) && SameData(c, (all + [d])[k])
  {
    var k: nat :| FirstWith(all, c.address, k) && SameData(c, all[k]);
    assert FirstWith(all + [d], c.address, k) && (all + [d])[k] == all[k];
  }

  lemma MaxStep(all: seq<StorageContract>, d: StorageContract, address: string, lt: nat)
    requires IsMaxLT(all, address, lt)
    ensures IsMaxLT(all + [d], address, if d.address == address && lt < d.lastLT then d.lastLT else lt)
  {
    assert d in all + [d];
    var m :| m in all && m.address == address && m.lastLT == lt;
    assert m in all + [d];
  }

  lemma EntryKept(all: seq<StorageContract>, c: StorageContract, d: StorageContract)
    requires MergedEntry(all, c) && d.address != c.address
    ensures MergedEntry(all + [d], c)
  {
    assert (all + [d])[..|all|] == all;
    FirstStays(all, d, c);
    MaxStep(all, d, c.address, c.lastLT);
  }

  lemma EntryMerged(all: seq<StorageContract>, c: StorageContract, d: StorageContract)
    requires MergedEntry(all, c) && d.address == c.address
    ensures MergedEntry(all + [d], c.(providers := c.providers + d.providers,
                                         lastLT := if c.lastLT < d.lastLT then d.lastLT else c.lastLT))
  {
    assert (all + [d])[..|all|] == all;
    FirstStays(all, d, c.(providers := c.providers + d.providers,
                             lastLT := if c.lastLT < d.lastLT then d.lastLT else c.lastLT));
    MaxStep(all, d, c.address, c.lastLT);
  }

  lemma EntryNew(all: seq<StorageContract>, d: StorageContract)
    requires forall c :: c in all ==> c.address != d.address
    ensures MergedEntry(all + [d], d)
  {
    assert (all + [d])[..|all|] == all;
    NoProvidersWithoutContract(all, d.address);
    assert FirstWith(all + [d], d.address, |all|);
    assert d in all + [d];
  }

  ghost predicate EntryOf(all: seq<StorageContract>, merged: map<string, StorageContract>, a: string)
    requires a in merged
  {
    merged[a].address == a && MergedEntry(all, merged[a])
  }

  ghost predicate ExactMerge(all: seq<StorageContract>, merged: map<string, StorageContract>) {
    && merged.Keys == Addresses(all)
    && forall a {:trigger EntryOf(all, merged, a)} :: a in merged ==> EntryOf(all, merged, a)
  }

  lemma MergeStepAt(rest: seq<StorageContract>, d: StorageContract, merged: map<string, StorageContract>, a: string)
    requires a in MergeInto(merged, d)
    requires a in merged ==> EntryOf(rest, merged, a)
    requires a !in merged ==> forall c :: c in rest ==> c.address != a
    ensures EntryOf(rest + [d], MergeInto(merged, d), a)
  {
    if a != d.address {
      EntryKept(rest, merged[a], d);
    } else if a in merged {
      EntryMerged(rest, merged[a], d);
    } else {
      EntryNew(rest, d);
    }
  }

  lemma NotScanned(all: seq<StorageContract>, a: string)
    requires a !in Addresses(all)
    ensures forall c :: c in all ==> c.address != a
  {
    assert forall c :: c in all ==> c.address in Addresses(all);
  }

  lemma MergeStep(rest: seq<StorageContract>, d: StorageContract, merged: map<string, StorageContract>)
    requires ExactMerge(rest, merged)
    ensures ExactMerge(rest + [d], MergeInto(merged, d))
  {
    assert Addresses(rest + [d]) == Addresses(rest) + {d.address};
    forall a | a in MergeInto(merged, d) ensures EntryOf(rest + [d], MergeInto(merged, d), a) {
      if a !in merged { NotScanned(rest, a); }
      MergeStepAt(rest, d, merged, a);
    }
  }

  /** One merged contract per scanned address: maximal LT, providers in wallet order, data of the first scan. */
  lemma {:induction false} MergedIsExact(all: seq<StorageContract>)
    ensures ExactMerge(all, Merged(all))
  {
    if all != [] {
      var n := |all| - 1;
      assert all == all[..n] + [all[n]];
      MergedIsExact(all[..n]);
      MergeStep(all[..n], all[n], Merged(all[..n]));
    }
  }

  // ----- pairs of contract and provider address -----

  /** The pairs one contract contributes, restricted to known provider addresses. */
  function PairsOf(address: string, providers: seq<string>, known: set<string>): multiset<Pair> {
    if providers == [] then multiset{} else
    var p := providers[|providers| - 1];
    PairsOf(address, providers[..|providers| - 1], known) + if p in known then multiset{(address, p)} else multiset{}
  }

  function AllPairs(cs: seq<StorageContract>, known: set<string>): multiset<Pair> {
    if cs == [] then multiset{} else
    AllPairs(cs[..|cs| - 1], known) + PairsOf(cs[|cs| - 1].address, cs[|cs| - 1].providers, known)
  }

  lemma {:induction false} PairsOfCounts(address: string, providers: seq<string>, known: set<string>, a: string,
                                         p: string)
    ensures PairsOf(address, providers, known)[(a, p)] ==
      if a == address && p in known then multiset(providers)[p] else 0
  {
    if providers != [] {
      var n := |providers| - 1;
      assert providers == providers[..n] + [providers[n]];
      PairsOfCounts(address, providers[..n], known, a, p);
    }
  }

  lemma {:induction false} AllPairsCounts(cs: seq<StorageContract>, known: set<string>, a: string, p: string)
    ensures AllPairs(cs, known)[(a, p)] == if p in known then multiset(ProvidersOf(cs, a))[p] else 0
  {
    if cs != [] {
      var n := |cs| - 1;
      AllPairsCounts(cs[..n], known, a, p);
      PairsOfCounts(cs[n].address, cs[n].providers, known, a, p);
    }
  }

  /** Each entry of the map once, in some order. */
  ghost predicate Enumerates(cs: seq<StorageContract>, merged: map<string, StorageContract>) {
    && DistinctAddresses(cs)
    && (forall c :: c in cs ==> c.address in merged && merged[c.address] == c)
    && (forall a :: a in merged ==> exists c :: c in cs && c.address == a)
  }

  lemma {:induction false} ProvidersOfDistinct(cs: seq<StorageContract>, k: nat)
    requires DistinctAddresses(cs) && k < |cs|
    ensures ProvidersOf(cs, cs[k].address) == cs[k].providers
  {
    var n := |cs| - 1;
    var a := cs[k].address;
    if k == n {
      NoProvidersWithoutContract(cs[..n], a);
    } else {
      assert cs[..n][k] == cs[k];
      ProvidersOfDistinct(cs[..n], k);
    }
  }

  /** Merging redistributes the scanned pairs and neither loses nor invents one. */
  lemma {:induction false} MergeConserves(all: seq<StorageContract>, cs: seq<StorageContract>, known: set<string>)
    requires Enumerates(cs, Merged(all))
    ensures AllPairs(cs, known) == AllPairs(all, known)
  {
    MergedIsExact(all);
    forall a: string, p: string ensures AllPairs(cs, known)[(a, p)] == AllPairs(all, known)[(a, p)] {
      AllPairsCounts(cs, known, a, p);
      AllPairsCounts(all, known, a, p);
      if a in Merged(all) {
        var c :| c in cs && c.address == a;
        var k :| 0 <= k < |cs| && cs[k] == c;
        ProvidersOfDistinct(cs, k);
        assert EntryOf(all, Merged(all), a);
      } else {
        NotScanned(all, a);
        NoProvidersWithoutContract(all, a);
        NoProvidersWithoutContract(cs, a);
      }
    }
    assert forall x: Pair :: AllPairs(cs, known)[x] == AllPairs(all, known)[(x.0, x.1)];
  }

  /** When every scan lists one known provider, there is one pair per scanned contract. */
  lemma {:induction false} OnePairPerScan(all: seq<StorageContract>, known: set<string>)
    requires forall c :: c in all ==> |c.providers| == 1 && c.providers[0] in known
    ensures |AllPairs(all, known)| == |all|
  {
    if all != [] {
      var n := |all| - 1;
      var c := all[n];
      assert c in all && c.providers[..0] == [];
      assert PairsOf(c.address, c.providers, known) == multiset{(c.address, c.providers[0])};
      OnePairPerScan(all[..n], known);
    }
  }

  // ----- the output loops -----

  method Contracts(merged: map<string, StorageContract>) returns (cs: seq<StorageContract>)
    requires forall a :: a in merged ==> merged[a].address == a
    ensures Enumerates(cs, merged)
  {
    cs := [];
    var left := merged.Keys;
    while left != {}
      invariant left <= merged.Keys && DistinctAddresses(cs)
      invariant forall c :: c in cs ==> c.address in merged && c.address !in left && merged[c.address] == c
      invariant forall a :: a in merged && a !in left ==> merged[a] in cs
      decreases left
    {
      var a :| a in left;
      cs := cs + [merged[a]];
      left := left - {a};
    }
  }

  /** A relation repeats its contract's data and names the wallet that owns the provider address. */
  ghost predicate RelationFrom(r: Relation, cs: seq<StorageContract>, addrToPubkey: map<string, string>) {
    && r.providerAddress in addrToPubkey
    && r.providerPubkey == addrToPubkey[r.providerAddress]
    && exists c :: c in cs && r.contractAddr == c.address && r.bagID == c.bagID && r.size == c.size &&
        r.providerAddress in c.providers
  }

  lemma RelationsSnoc(rs: seq<Relation>, r: Relation)
    ensures Image(RelationPair, rs + [r]) == Image(RelationPair, rs) + multiset{RelationPair(r)}
  {
    ImageSnoc(RelationPair, rs, r);
  }

  /** The relations of one contract. An address without a wallet row is skipped. */
  method RelationsOf(c: StorageContract, addrToPubkey: map<string, string>) returns (rs: seq<Relation>)
    ensures Image(RelationPair, rs) == PairsOf(c.address, c.providers, addrToPubkey.Keys)
    ensures forall r :: r in rs ==> RelationFrom(r, [c], addrToPubkey)
  {
    rs := [];
    for i := 0 to |c.providers|
      invariant Image(RelationPair, rs) == PairsOf(c.address, c.providers[..i], addrToPubkey.Keys)
      invariant forall r :: r in rs ==> RelationFrom(r, [c], addrToPubkey)
    {
      var p := c.providers[i];
      assert c.providers[..i + 1][..i] == c.providers[..i];
      if p in addrToPubkey {
        var r := Relation(c.address, addrToPubkey[p], p, c.bagID, c.size);
        assert c in [c] && RelationFrom(r, [c], addrToPubkey);
        RelationsSnoc(rs, r);
        rs := rs + [r];
      }
    }
    assert c.providers[..|c.providers|] == c.providers;
  }

  method Relations(cs: seq<StorageContract>, addrToPubkey: map<string, string>) returns (rs: seq<Relation>)
    ensures Image(RelationPair, rs) == AllPairs(cs, addrToPubkey.Keys)
    ensures forall r :: r in rs ==> RelationFrom(r, cs, addrToPubkey)
  {
    rs := [];
    for i := 0 to |cs|
      invariant Image(RelationPair, rs) == AllPairs(cs[..i], addrToPubkey.Keys)
      invariant forall r :: r in rs ==> RelationFrom(r, cs, addrToPubkey)
    {
      assert cs[..i + 1][..i] == cs[..i];
      var more := RelationsOf(cs[i], addrToPubkey);
      forall r | r in more ensures RelationFrom(r, cs, addrToPubkey) {
        assert RelationFrom(r, [cs[i]], addrToPubkey) && cs[i] in cs;
      }
      ImageConcat(RelationPair, rs, more);
      rs := rs + more;
    }
    assert cs[..|cs|] == cs;
  }

  lemma {:induction false} ImageSize(rs: seq<Relation>)
    ensures |Image(RelationPair, rs)| == |rs|
  {
    if rs != [] {
      ImageSize(rs[..|rs| - 1]);
    }
  }

  /**
   Wallet merge conservation for a whole cycle: every scanned (contract, provider) pair yields
   exactly one relation, none is dropped as an unknown provider, and there are as many relations
   as scanned contracts.
   */
  lemma {:induction false} RelationsConserveScans(all: seq<StorageContract>, cs: seq<StorageContract>,
                                                  rs: seq<Relation>, addrToPubkey: map<string, string>)
    requires Enumerates(cs, Merged(all))
    requires Image(RelationPair, rs) == AllPairs(cs, addrToPubkey.Keys)
    requires forall c :: c in all ==> |c.providers| == 1 && c.providers[0] in addrToPubkey
    ensures Image(RelationPair, rs) == AllPairs(all, addrToPubkey.Keys)
    ensures |rs| == |all|
  {
    MergeConserves(all, cs, addrToPubkey.Keys);
    OnePairPerScan(all, addrToPubkey.Keys);
    ImageSize(rs);
  }
}
