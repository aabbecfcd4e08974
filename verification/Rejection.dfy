/**
 UpdateRejectedContracts: the active relations are joined with the on-chain states of their
 contracts. A relation is kept, rejected or, when the state could not be read, skipped.
 */
module Rejection {
  import opened Common
  import opened Domain
  import opened HexText
  import opened LowBalance
  import opened Handlers

  datatype OnChainProvider = OnChainProvider(key: seq<Byte>, lastProof: Int64, rate: Uint64, maxSpan: Uint32)

  datatype ContractState = ContractState(address: string, balance: Uint64, providers: seq<OnChainProvider>,
                                         liteServerError: bool)

  /** The time that the code reads for provider j of state i. */
  type Clock = (nat, nat) -> Int64

  // ----- the specification -----

  /** What one cycle reads. */
  datatype View = View(relations: seq<Relation>, states: seq<ContractState>, clock: Clock)

  /** The size that the last relation of a contract gives. */
  function SizeOf(relations: seq<Relation>, addr: string): nat {
    if relations == [] then 0 else
    var last := relations[|relations| - 1];
    if last.contractAddr == addr then last.size else SizeOf(relations[..|relations| - 1], addr)
  }

  /** Provider j of state i is not taken as removed. */
  ghost predicate Survives(v: View, i: nat, j: nat)
    requires i < |v.states| && j < |v.states[i].providers|
  {
    var s := v.states[i];
    var p := s.providers[j];
    !IsRemovedByLowBalance(SizeOf(v.relations, s.address), p.rate, p.maxSpan, p.lastProof, s.balance, v.clock(i, j))
  }

  /** Some provider of state i has the key and survives. */
  ghost predicate HasSurvivor(v: View, i: nat, pubkey: string)
    requires i < |v.states|
  {
    exists j: nat :: j < |v.states[i].providers| && Hex(v.states[i].providers[j].key) == pubkey && Survives(v, i, j)
  }

  /** State i is the one that counts for the address: the last of that address. */
  ghost predicate Latest(states: seq<ContractState>, addr: string, i: nat) {
    && i < |states| && states[i].address == addr
    && forall k :: i < k < |states| ==> states[k].address != addr
  }

  ghost predicate NoState(states: seq<ContractState>, addr: string) {
    forall k :: 0 <= k < |states| ==> states[k].address != addr
  }

  ghost predicate IsRejected(v: View, rel: Relation) {
    || NoState(v.states, rel.contractAddr)
    || exists i: nat :: Latest(v.states, rel.contractAddr, i) && !v.states[i].liteServerError &&
        !HasSurvivor(v, i, rel.providerPubkey)
  }

  ghost predicate IsActive(v: View, rel: Relation) {
    exists i: nat :: Latest(v.states, rel.contractAddr, i) && !v.states[i].liteServerError &&
        HasSurvivor(v, i, rel.providerPubkey)
  }

  ghost predicate IsSkipped(v: View, rel: Relation) {
    exists i: nat :: Latest(v.states, rel.contractAddr, i) && v.states[i].liteServerError
  }

  /** The rejected ones of some relations, in order. */
  ghost function Rejected(v: View, rels: seq<Relation>): seq<Relation> {
    if rels == [] then [] else
    var n := |rels| - 1;
    Rejected(v, rels[..n]) + if IsRejected(v, rels[n]) then [rels[n]] else []
  }

  ghost function CountActive(v: View, rels: seq<Relation>): nat {
    if rels == [] then 0 else
    var n := |rels| - 1;
    CountActive(v, rels[..n]) + if IsActive(v, rels[n]) then 1 else 0
  }

  ghost function CountSkipped(v: View, rels: seq<Relation>): nat {
    if rels == [] then 0 else
    var n := |rels| - 1;
    CountSkipped(v, rels[..n]) + if IsSkipped(v, rels[n]) then 1 else 0
  }

  /** The addresses of the states that could not be read, in order. */
  function SkippedAddresses(states: seq<ContractState>): seq<string> {
    if states == [] then [] else
    var n := |states| - 1;
    SkippedAddresses(states[..n]) + if states[n].liteServerError then [states[n].address] else []
  }

  lemma {:induction false} SkippedAddressesMember(states: seq<ContractState>, addr: string)
    ensures addr in SkippedAddresses(states) <==>
              exists i :: 0 <= i < |states| && states[i].liteServerError && states[i].address == addr
  {
    if states != [] {
      var n := |states| - 1;
      SkippedAddressesMember(states[..n], addr);
      if states[n].liteServerError && states[n].address == addr {
        assert addr in SkippedAddresses(states);
      }
    }
  }

  // ----- the loops -----

  /** bagSizeByContract and uniqueAddrs. */
  method IndexSizes(relations: seq<Relation>) returns (sizes: map<string, nat>, addrs: set<string>)
    ensures forall a :: SizeOf(relations, a) == if a in sizes then sizes[a] else 0
    ensures addrs == set r | r in relations :: r.contractAddr
  {
    sizes := map[];
    addrs := {};
    for i := 0 to |relations|
      invariant forall a :: SizeOf(relations[..i], a) == if a in sizes then sizes[a] else 0
      invariant addrs == set r | r in relations[..i] :: r.contractAddr
    {
      var rel := relations[i];
      assert relations[..i + 1] == relations[..i] + [rel];
      assert relations[..i + 1][..i] == relations[..i];
      sizes := sizes[rel.contractAddr := rel.size];
      addrs := addrs + {rel.contractAddr};
    }
    assert relations[..|relations|] == relations;
  }

  /** The keys of one state's surviving providers. */
  method Survivors(v: View, i: nat, size: nat) returns (keys: set<string>)
    requires i < |v.states| && size == SizeOf(v.relations, v.states[i].address)
    ensures forall k :: k in keys <==> HasSurvivor(v, i, k)
  {
    var s := v.states[i];
    keys := {};
    for j := 0 to |s.providers|
      invariant forall k :: k in keys <==> exists l: nat :: l < j && Hex(s.providers[l].key) == k && Survives(v, i, l)
    {
      var prov := s.providers[j];
      var pubkey := Hex(prov.key);
      if IsRemovedByLowBalance(size, prov.rate, prov.maxSpan, prov.lastProof, s.balance, v.clock(i, j)) {
        continue;
      }
      assert Survives(v, i, j);
      keys := keys + {pubkey};
    }
  }

  datatype ContractInfo = ContractInfo(providers: set<string>, skip: bool)

  /** The info of an address describes the last of the first n states that has the address. */
  ghost predicate Describes(v: View, n: nat, addr: string, info: Option<ContractInfo>)
    requires n <= |v.states|
  {
    match info
    case None => NoState(v.states[..n], addr)
    case Some(c) => exists i: nat :: Latest(v.states[..n], addr, i) && Summarises(v, i, c)
  }

  ghost predicate Summarises(v: View, i: nat, c: ContractInfo)
    requires i < |v.states|
  {
    c.skip == v.states[i].liteServerError && forall k :: k in c.providers <==> HasSurvivor(v, i, k)
  }

  function Lookup(infos: map<string, ContractInfo>, addr: string): Option<ContractInfo> {
    if addr in infos then Some(infos[addr]) else None
  }

  /** The next state replaces what its address had, and leaves the rest. */
  lemma DescribesStep(v: View, n: nat, infos: map<string, ContractInfo>, c: ContractInfo, addr: string)
    requires n < |v.states| && Summarises(v, n, c) && Describes(v, n, addr, Lookup(infos, addr))
    ensures Describes(v, n + 1, addr, Lookup(infos[v.states[n].address := c], addr))
  {
    var before, after := v.states[..n], v.states[..n + 1];
    assert after == before + [v.states[n]];
    if addr == v.states[n].address {
      assert Latest(after, addr, n);
    } else if addr in infos {
      var i: nat :| Latest(before, addr, i) && Summarises(v, i, infos[addr]);
      assert Latest(after, addr, i);
    }
  }

  /** stateByAddr and skippedAddrs. */
  method IndexStates(v: View, sizes: map<string, nat>) returns (infos: map<string, ContractInfo>, skipped: seq<string>)
    requires forall a :: SizeOf(v.relations, a) == if a in sizes then sizes[a] else 0
    ensures forall a :: Describes(v, |v.states|, a, Lookup(infos, a))
    ensures skipped == SkippedAddresses(v.states)
  {
    infos := map[];
    skipped := [];
    for i := 0 to |v.states|
      invariant forall a :: Describes(v, i, a, Lookup(infos, a))
      invariant skipped == SkippedAddresses(v.states[..i])
    {
      var s := v.states[i];
      var keys := Survivors(v, i, if s.address in sizes then sizes[s.address] else 0);
      var info := ContractInfo(keys, s.liteServerError);
      var infos' := infos[s.address := info];
      forall a ensures Describes(v, i + 1, a, Lookup(infos', a)) {
        DescribesStep(v, i, infos, info, a);
      }
      infos := infos';
      assert v.states[..i + 1][..i] == v.states[..i];
      if s.liteServerError {
        skipped := skipped + [s.address];
      }
    }
    assert v.states[..|v.states|] == v.states;
  }

  lemma LatestIsUnique(states: seq<ContractState>, addr: string, i: nat, k: nat)
    requires Latest(states, addr, i) && Latest(states, addr, k)
    ensures i == k
  {
  }

  /** Judging a relation by the latest state of its contract. */
  lemma JudgedByLatest(v: View, rel: Relation, i: nat)
    requires Latest(v.states, rel.contractAddr, i)
    ensures IsSkipped(v, rel) <==> v.states[i].liteServerError
    ensures IsActive(v, rel) <==> !v.states[i].liteServerError && HasSurvivor(v, i, rel.providerPubkey)
    ensures IsRejected(v, rel) <==> !v.states[i].liteServerError && !HasSurvivor(v, i, rel.providerPubkey)
  {
    assert !NoState(v.states, rel.contractAddr);
    forall k: nat | Latest(v.states, rel.contractAddr, k) ensures k == i {
      LatestIsUnique(v.states, rel.contractAddr, i, k);
    }
  }

  /** The index of states decides every relation as specified. */
  lemma JudgedByInfo(v: View, rel: Relation, info: Option<ContractInfo>)
    requires Describes(v, |v.states|, rel.contractAddr, info)
    ensures IsSkipped(v, rel) <==> info.Some? && info.value.skip
    ensures IsActive(v, rel) <==> info.Some? && !info.value.skip && rel.providerPubkey in info.value.providers
    ensures IsRejected(v, rel) <==> info.None? || (!info.value.skip && rel.providerPubkey !in info.value.providers)
  {
    assert v.states[..|v.states|] == v.states;
    if info.Some? {
      var i: nat :| Latest(v.states, rel.contractAddr, i) && Summarises(v, i, info.value);
      JudgedByLatest(v, rel, i);
    }
  }

  lemma RejectedSnoc(v: View, n: nat)
    requires n < |v.relations|
    ensures Rejected(v, v.relations[..n + 1]) == Rejected(v, v.relations[..n]) +
      if IsRejected(v, v.relations[n]) then [v.relations[n]] else []
  {
    assert v.relations[..n + 1][..n] == v.relations[..n];
  }

  lemma CountActiveSnoc(v: View, n: nat)
    requires n < |v.relations|
    ensures CountActive(v, v.relations[..n + 1]) == CountActive(v, v.relations[..n]) +
      if IsActive(v, v.relations[n]) then 1 else 0
  {
    assert v.relations[..n + 1][..n] == v.relations[..n];
  }

  /** The loop over the relations. */
  method Join(v: View, infos: map<string, ContractInfo>) returns (rejected: seq<Relation>, active: nat)
    requires forall a :: Describes(v, |v.states|, a, Lookup(infos, a))
    ensures rejected == Rejected(v, v.relations)
    ensures active == CountActive(v, v.relations)
  {
    rejected := [];
    active := 0;
    for n := 0 to |v.relations|
      invariant rejected == Rejected(v, v.relations[..n])
      invariant active == CountActive(v, v.relations[..n])
    {
      var rel := v.relations[n];
      JudgedByInfo(v, rel, Lookup(infos, rel.contractAddr));
      RejectedSnoc(v, n);
      CountActiveSnoc(v, n);
      if rel.contractAddr !in infos {
        rejected := rejected + [rel];
        continue;
      }
      var info := infos[rel.contractAddr];
      if info.skip {
        continue;
      }
      if rel.providerPubkey in info.providers {
        active := active + 1;
      } else {
        rejected := rejected + [rel];
      }
    }
    assert v.relations[..|v.relations|] == v.relations;
  }

  datatype Report = Report(rejected: seq<Relation>, skipped: seq<string>)

  /** What the cycle publishes: the rejected relations in order and the addresses that could not be read. */
  ghost function ReportOf(v: View): Report {
    Report(Rejected(v, v.relations), SkippedAddresses(v.states))
  }

  /** The join of the relations with the states. */
  method JoinStates(v: View) returns (report: Report, active: nat)
    ensures report == ReportOf(v)
    ensures active == CountActive(v, v.relations)
  {
    var sizes, addrs := IndexSizes(v.relations);
    var infos, skipped := IndexStates(v, sizes);
    var rejected;
    rejected, active := Join(v, infos);
    report := Report(rejected, skipped);
  }

  /** The keys of uniqueAddrs, in whatever order the map is walked. */
  method AddressList(addrs: set<string>) returns (list: seq<string>)
    ensures Distinct(list) && forall a :: a in list <==> a in addrs
  {
    var remaining := addrs;
    list := [];
    while remaining != {}
      invariant remaining <= addrs && Distinct(list)
      invariant forall a :: a in list <==> a in addrs && a !in remaining
      decreases |remaining|
    {
      var a :| a in remaining;
      list, remaining := list + [a], remaining - {a};
    }
  }

  /** The addresses are those of the relations, each once. */
  ghost predicate AddressesOf(relations: seq<Relation>, addrs: seq<string>) {
    Distinct(addrs) && forall a :: a in addrs <==> exists i :: 0 <= i < |relations| && relations[i].contractAddr == a
  }

  method Addresses(relations: seq<Relation>) returns (list: seq<string>)
    ensures AddressesOf(relations, list)
  {
    var sizes, addrs := IndexSizes(relations);
    list := AddressList(addrs);
    forall a ensures a in list <==> exists i :: 0 <= i < |relations| && relations[i].contractAddr == a {
      if a in addrs {
        var r :| r in relations && r.contractAddr == a;
        var i :| 0 <= i < |relations| && relations[i] == r;
        assert relations[i].contractAddr == a;
      }
    }
  }

  /** What an inspection of some addresses answers: its states, or an error. */
  type Inspector = seq<string> -> Result<seq<ContractState>>

  /**
   UpdateRejectedContracts: the distinct contract addresses of the relations are inspected, and
   what is published is the join with the states that came back.
   */
  method UpdateRejectedContracts(active: Result<seq<Relation>>, inspect: Inspector, clock: Clock,
                                 publish: PublishOutcome)
    returns (ok: bool, appended: seq<Report>, ghost addrs: seq<string>, ghost trace: seq<Call>)
    ensures Obeys(trace, ok, publish, |appended|)
    ensures active.Ok? && active.value != [] ==> AddressesOf(active.value, addrs)
    ensures ok <==> active.Ok? && (active.value == [] || inspect(addrs).Ok?) && publish.Appended?
    ensures forall r :: r in appended && active.Ok? && active.value == [] ==> r == Report([], [])
    ensures forall r :: r in appended && active.Ok? && active.value != [] ==>
      inspect(addrs).Ok? && r == ReportOf(View(active.value, inspect(addrs).value, clock))
  {
    appended, addrs, trace := [], [], [];
    Calls(trace, active.Ok?, publish);
    trace := Then(trace, Fallible, active.Ok?);
    if active.Err? {
      return false, appended, addrs, trace;
    }
    if |active.value| == 0 {
      ok, appended, trace := Handlers.Publish(Report([], []), publish, trace);
      return;
    }
    var list := Addresses(active.value);
    addrs := list;
    var states := inspect(list);
    Calls(trace, states.Ok?, publish);
    trace := Then(trace, Fallible, states.Ok?);
    if states.Err? {
      return false, appended, addrs, trace;
    }
    var report, kept := JoinStates(View(active.value, states.value, clock));
    ok, appended, trace := Handlers.Publish(report, publish, trace);
  }

  // ----- what the join promises -----

  lemma {:induction false} LatestExists(states: seq<ContractState>, addr: string) returns (i: nat)
    requires !NoState(states, addr)
    ensures Latest(states, addr, i)
  {
    var n := |states| - 1;
    if states[n].address == addr {
      i := n;
    } else {
      i := LatestExists(states[..n], addr);
    }
  }

  /** Every relation is exactly one of rejected, active and skipped. */
  lemma ExactlyOne(v: View, rel: Relation)
    ensures IsRejected(v, rel) <==> !IsActive(v, rel) && !IsSkipped(v, rel)
    ensures !(IsActive(v, rel) && IsSkipped(v, rel))
  {
    if !NoState(v.states, rel.contractAddr) {
      var i := LatestExists(v.states, rel.contractAddr);
      JudgedByLatest(v, rel, i);
    }
  }

  /** The three classes partition the input. */
  lemma {:induction false} Partition(v: View, rels: seq<Relation>)
    ensures |Rejected(v, rels)| + CountActive(v, rels) + CountSkipped(v, rels) == |rels|
  {
    if rels != [] {
      Partition(v, rels[..|rels| - 1]);
      ExactlyOne(v, rels[|rels| - 1]);
    }
  }

  /** A relation is listed as often as it is given if it is rejected, and not otherwise. */
  lemma {:induction false} RejectedMember(v: View, rels: seq<Relation>, rel: Relation)
    ensures multiset(Rejected(v, rels))[rel] == if IsRejected(v, rel) then multiset(rels)[rel] else 0
  {
    if rels != [] {
      var n := |rels| - 1;
      RejectedMember(v, rels[..n], rel);
      assert rels == rels[..n] + [rels[n]];
    }
  }

  // ----- the skipped list -----

  /** What the inspection returns: for each state an asked address of its own. */
  ghost predicate Inspected(addrs: seq<string>, states: seq<ContractState>) {
    exists from: seq<nat> :: AnswersFrom(addrs, states, from)
  }

  /** The i-th state answers for the address at position from[i], and no two for the same position. */
  ghost predicate AnswersFrom(addrs: seq<string>, states: seq<ContractState>, from: seq<nat>) {
    && |from| == |states|
    && (forall i :: 0 <= i < |from| ==> from[i] < |addrs| && states[i].address == addrs[from[i]])
    && (forall i, j :: 0 <= i < j < |from| ==> from[i] != from[j])
  }

  ghost predicate DistinctStates(states: seq<ContractState>) {
    forall i, j :: 0 <= i < j < |states| ==> states[i].address != states[j].address
  }

  lemma InspectedAreDistinct(addrs: seq<string>, states: seq<ContractState>)
    requires Distinct(addrs) && Inspected(addrs, states)
    ensures DistinctStates(states)
  {
    var from: seq<nat> :| AnswersFrom(addrs, states, from);
    forall i, j | 0 <= i < j < |states| ensures states[i].address != states[j].address {
      assert from[i] != from[j];
    }
  }

  /**
   With one state per address, a relation is skipped exactly when its address is in the skipped
   list; so no rejected or active relation's address is there.
   */
  lemma SkippedListIsExact(v: View, addrs: seq<string>, rel: Relation)
    requires Distinct(addrs) && Inspected(addrs, v.states)
    ensures rel.contractAddr in SkippedAddresses(v.states) <==> IsSkipped(v, rel)
    ensures IsRejected(v, rel) || IsActive(v, rel) ==> rel.contractAddr !in SkippedAddresses(v.states)
  {
    InspectedAreDistinct(addrs, v.states);
    SkippedAddressesMember(v.states, rel.contractAddr);
    ExactlyOne(v, rel);
    if i: nat :| i < |v.states| && v.states[i].liteServerError && v.states[i].address == rel.contractAddr {
      assert Latest(v.states, rel.contractAddr, i);
    }
  }

  // ----- time and balance -----

  /** The same chain with balances at most those of the other, read no earlier. */
  ghost predicate Poorer(v: View, w: View) {
    && v.relations == w.relations && |v.states| == |w.states|
    && (forall i :: 0 <= i < |v.states| ==>
          && w.states[i].balance <= v.states[i].balance
          && w.states[i] == v.states[i].(balance := w.states[i].balance))
    && (forall i, j :: v.clock(i, j) <= w.clock(i, j))
  }

  lemma SurvivorsShrink(v: View, w: View, i: nat, pubkey: string)
    requires Poorer(v, w) && i < |v.states| && HasSurvivor(w, i, pubkey)
    ensures HasSurvivor(v, i, pubkey)
  {
    var j: nat :| j < |w.states[i].providers| && Hex(w.states[i].providers[j].key) == pubkey && Survives(w, i, j);
    var s, s' := v.states[i], w.states[i];
    var p := s.providers[j];
    assert s' == s.(balance := s'.balance);
    var size := SizeOf(v.relations, s.address);
    if !Survives(v, i, j) {
      RemovalIsMonotone(size, p.rate, p.maxSpan, p.lastProof, s.balance, v.clock(i, j), s'.balance, w.clock(i, j));
    }
    assert Survives(v, i, j);
  }

  /** As time passes rejections only grow, and as balances rise they only shrink. */
  lemma {:induction false} RejectionIsMonotone(v: View, w: View, rel: Relation)
    requires Poorer(v, w) && IsRejected(v, rel)
    ensures IsRejected(w, rel)
  {
    if NoState(v.states, rel.contractAddr) {
      assert NoState(w.states, rel.contractAddr);
    } else {
      var i: nat :| Latest(v.states, rel.contractAddr, i) && !v.states[i].liteServerError &&
          !HasSurvivor(v, i, rel.providerPubkey);
      assert Latest(w.states, rel.contractAddr, i);
      if HasSurvivor(w, i, rel.providerPubkey) {
        SurvivorsShrink(v, w, i, rel.providerPubkey);
      }
    }
  }
}
