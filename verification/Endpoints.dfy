/**
 ResolveEndpoints: every provider with an active relation is skipped when its endpoint is fresh,
 and otherwise resolved over the DHT, with a search of its bags' overlays for a missing storage
 address. The network is an arbitrary oracle; map iteration is in any order.
 */
module Endpoints {
  import opened Common
  import opened Domain
  import opened Strings
  import opened Sampling
  import opened Handlers

  datatype Endpoint = Endpoint(publicKey: seq<bv8>, ip: string, port: int)

  datatype ProviderEndpoint = ProviderEndpoint(pubkey: string, provider: Endpoint, storage: Endpoint, updatedAt: int)

  datatype Payload = Payload(endpoints: seq<ProviderEndpoint>, skipped: nat, failed: nat)

  // ----- the overlay search -----

  datatype Address = Address(ip: string, port: int)

  datatype AddressList = AddressList(publicKey: seq<bv8>, addresses: seq<Address>)

  /** For the i-th lookup, of a bag, the address lists of its overlay nodes, where they are found. */
  type Overlay = (nat, string) -> seq<Option<AddressList>>

  /** A tenth of many bags, a fifth of some, all of a few. */
  function BagsToCheck(n: nat): nat {
    if 100 < n then Max(1, n * 10 / 100) else if 5 < n then Max(1, n * 20 / 100) else n
  }

  lemma BagsToCheckBounds(n: nat)
    ensures BagsToCheck(n) <= n
    ensures 0 < n ==> 0 < BagsToCheck(n)
  {
  }

  /** Division-free: the rounded-down share. */
  lemma BagsToCheckIsShare(n: nat)
    ensures var k := BagsToCheck(n);
            if 100 < n then 10 * k <= n < 10 * k + 10 else if 5 < n then 5 * k <= n < 5 * k + 5 else k == n
  {
  }

  predicate Decodes(bag: string) {
    |bag| % 2 == 0 && IsHex(bag)
  }

  /** Address l of node j is the given one. */
  ghost predicate IsAt(nodes: seq<Option<AddressList>>, ip: string, j: nat, l: nat) {
    && j < |nodes| && nodes[j].Some?
    && l < |nodes[j].value.addresses| && nodes[j].value.addresses[l].ip == ip
  }

  /** Node j of the i-th checked bag has the address at position l. */
  ghost predicate At(bags: seq<string>, overlay: Overlay, ip: string, i: nat, j: nat, l: nat) {
    i < |bags| && Decodes(bags[i]) && IsAt(overlay(i, bags[i]), ip, j, l)
  }

  ghost predicate AnyMatch(checked: seq<string>, overlay: Overlay, ip: string) {
    exists i, j, l :: At(checked, overlay, ip, i, j, l)
  }

  /** The first place with the address in the nodes. */
  ghost predicate IsFirst(nodes: seq<Option<AddressList>>, ip: string, j: nat, l: nat) {
    && IsAt(nodes, ip, j, l)
    && forall k: nat, m: nat :: IsAt(nodes, ip, k, m) ==> j < k || (j == k && l <= m)
  }

  /** What an endpoint found at the first place of all is. */
  ghost predicate FoundAt(bags: seq<string>, overlay: Overlay, ip: string, e: Endpoint, i: nat, j: nat, l: nat) {
    && At(bags, overlay, ip, i, j, l)
    && IsFirst(overlay(i, bags[i]), ip, j, l)
    && (forall k: nat, m: nat, n: nat :: k < i ==> !At(bags, overlay, ip, k, m, n))
    && var list := overlay(i, bags[i])[j].value; e == Endpoint(list.publicKey, ip, list.addresses[l].port)
  }

  method SearchNodes(nodes: seq<Option<AddressList>>, ip: string)
    returns (r: Result<Endpoint>, ghost j: nat, ghost l: nat)
    ensures r.Ok? ==>
      && IsFirst(nodes, ip, j, l)
      && r.value == Endpoint(nodes[j].value.publicKey, ip, nodes[j].value.addresses[l].port)
    ensures r.Err? ==> forall k: nat, m: nat :: !IsAt(nodes, ip, k, m)
  {
    j, l := 0, 0;
    for n := 0 to |nodes|
      invariant forall k: nat, m: nat :: k < n ==> !IsAt(nodes, ip, k, m)
    {
      if nodes[n].None? {
        continue;
      }
      var list := nodes[n].value;
      for m := 0 to |list.addresses|
        invariant forall k :: 0 <= k < m ==> list.addresses[k].ip != ip
      {
        if list.addresses[m].ip == ip {
          j, l := n, m;
          return Ok(Endpoint(list.publicKey, ip, list.addresses[m].port)), j, l;
        }
      }
    }
    return Err, j, l;
  }

  /** The checked bags are a random part of the given ones. */
  ghost predicate IsCheckList(bags: seq<string>, checked: seq<string>) {
    |checked| == BagsToCheck(|bags|) && multiset(checked) <= multiset(bags)
  }

  method SelectBags(bags: seq<string>, rnd: nat -> nat) returns (checked: seq<string>)
    ensures IsCheckList(bags, checked)
  {
    BagsToCheckBounds(|bags|);
    var shuffled := new string[|bags|](i requires 0 <= i < |bags| => bags[i]);
    assert shuffled[..] == bags;
    Shuffle(shuffled, rnd);
    PrefixIsPart(shuffled[..], BagsToCheck(|bags|));
    assert shuffled[..][..BagsToCheck(|bags|)] == shuffled[..BagsToCheck(|bags|)];
    checked := shuffled[..BagsToCheck(|bags|)];
  }

  /** What the search of some check list gives: the first node at the address if there is one, otherwise an error. */
  ghost predicate IsSearchOf(checked: seq<string>, overlay: Overlay, ip: string, r: Result<Endpoint>) {
    if AnyMatch(checked, overlay, ip)
    then r.Ok? && exists i, j, l :: FoundAt(checked, overlay, ip, r.value, i, j, l)
    else r.Err?
  }

  ghost predicate IsSearch(bags: seq<string>, overlay: Overlay, ip: string, r: Result<Endpoint>) {
    exists checked :: IsCheckList(bags, checked) && IsSearchOf(checked, overlay, ip, r)
  }

  /**
   ResolveStorageWithOverlay: an endpoint is found exactly when some checked bag's overlay has a
   node at the provider's own address, and it is the first such node.
   */
  method ResolveStorageWithOverlay(ip: string, bags: seq<string>, rnd: nat -> nat, overlay: Overlay)
    returns (r: Result<Endpoint>)
    ensures IsSearch(bags, overlay, ip, r)
    ensures r.Ok? ==> r.value.ip == ip && bags != []
  {
    if bags == [] {
      assert IsCheckList(bags, []) && IsSearchOf([], overlay, ip, Err);
      return Err;
    }
    var shuffled := SelectBags(bags, rnd);
    for i := 0 to |shuffled|
      invariant forall k: nat, j: nat, l: nat :: k < i ==> !At(shuffled, overlay, ip, k, j, l)
    {
      if !Decodes(shuffled[i]) {
        continue;
      }
      ghost var j, l;
      r, j, l := SearchNodes(overlay(i, shuffled[i]), ip);
      if r.Ok? {
        assert FoundAt(shuffled, overlay, ip, r.value, i, j, l);
        assert IsSearchOf(shuffled, overlay, ip, r);
        return;
      }
    }
    r := Err;
    assert IsSearchOf(shuffled, overlay, ip, r);
  }

  // ----- indexing the relations -----

  predicate FirstOf(relations: seq<Relation>, k: string, i: nat) {
    && i < |relations| && relations[i].providerPubkey == k
    && forall j :: 0 <= j < i ==> relations[j].providerPubkey != k
  }

  function BagsOf(relations: seq<Relation>, k: string): seq<string> {
    if relations == [] then [] else
    var n := |relations| - 1;
    BagsOf(relations[..n], k) + if relations[n].providerPubkey == k then [relations[n].bagID] else []
  }

  function Pubkeys(relations: seq<Relation>): set<string> {
    set r | r in relations :: r.providerPubkey
  }

  ghost predicate IsFirstContract(relations: seq<Relation>, k: string, addr: string) {
    exists i: nat :: FirstOf(relations, k, i) && addr == relations[i].contractAddr
  }

  ghost predicate ContractsIndexed(relations: seq<Relation>, contracts: map<string, string>) {
    contracts.Keys == Pubkeys(relations) && forall k :: k in contracts ==> IsFirstContract(relations, k, contracts[k])
  }

  ghost predicate BagsIndexed(relations: seq<Relation>, bags: map<string, seq<string>>) {
    bags.Keys == Pubkeys(relations) && forall k :: k in bags ==> bags[k] == BagsOf(relations, k)
  }

  /** The contract and the bags of each provider: its first relation's contract, and all its bags in order. */
  ghost predicate Indexed(relations: seq<Relation>, contracts: map<string, string>, bags: map<string, seq<string>>) {
    ContractsIndexed(relations, contracts) && BagsIndexed(relations, bags)
  }

  lemma {:induction false} BagsOfAbsent(relations: seq<Relation>, k: string)
    requires k !in Pubkeys(relations)
    ensures BagsOf(relations, k) == []
  {
    if relations != [] {
      var n := |relations| - 1;
      assert relations[n] in relations;
      assert Pubkeys(relations[..n]) <= Pubkeys(relations);
      BagsOfAbsent(relations[..n], k);
    }
  }

  lemma BagsOfSnoc(relations: seq<Relation>, rel: Relation, k: string)
    ensures BagsOf(relations + [rel], k) == BagsOf(relations, k) + if rel.providerPubkey == k then [rel.bagID] else []
  {
    assert (relations + [rel])[..|relations|] == relations;
  }

  lemma PubkeysSnoc(relations: seq<Relation>, rel: Relation)
    ensures Pubkeys(relations + [rel]) == Pubkeys(relations) + {rel.providerPubkey}
  {
    var all := relations + [rel];
    assert all[|relations|] == rel;
  }

  lemma FirstContractSnoc(relations: seq<Relation>, rel: Relation, k: string, addr: string)
    requires IsFirstContract(relations, k, addr)
    ensures IsFirstContract(relations + [rel], k, addr)
  {
    var i: nat :| FirstOf(relations, k, i) && addr == relations[i].contractAddr;
    assert FirstOf(relations + [rel], k, i);
  }

  lemma NewFirst(relations: seq<Relation>, rel: Relation)
    requires rel.providerPubkey !in Pubkeys(relations)
    ensures IsFirstContract(relations + [rel], rel.providerPubkey, rel.contractAddr)
  {
    assert forall j :: 0 <= j < |relations| ==>
      relations[j] in relations && relations[j].providerPubkey != rel.providerPubkey;
    assert FirstOf(relations + [rel], rel.providerPubkey, |relations|);
  }

  lemma ContractsSnoc(relations: seq<Relation>, contracts: map<string, string>, rel: Relation)
    requires ContractsIndexed(relations, contracts)
    ensures var k := rel.providerPubkey;
            ContractsIndexed(relations + [rel], if k in contracts then contracts else contracts[k := rel.contractAddr])
  {
    PubkeysSnoc(relations, rel);
    if rel.providerPubkey !in contracts {
      NewFirst(relations, rel);
    }
    forall q | q in contracts ensures IsFirstContract(relations + [rel], q, contracts[q]) {
      FirstContractSnoc(relations, rel, q, contracts[q]);
    }
  }

  lemma BagsSnoc(relations: seq<Relation>, bags: map<string, seq<string>>, rel: Relation)
    requires BagsIndexed(relations, bags)
    ensures var k := rel.providerPubkey;
            BagsIndexed(relations + [rel], bags[k := (if k in bags then bags[k] else []) + [rel.bagID]])
  {
    var k := rel.providerPubkey;
    PubkeysSnoc(relations, rel);
    if k !in bags {
      BagsOfAbsent(relations, k);
    }
    forall q: string ensures BagsOf(relations + [rel], q) == BagsOf(relations, q) + if k == q then [rel.bagID] else [] {
      BagsOfSnoc(relations, rel, q);
    }
  }

  /** contractByPubkey and bagsByPubkey. */
  method IndexRelations(relations: seq<Relation>)
    returns (contracts: map<string, string>, bags: map<string, seq<string>>)
    ensures Indexed(relations, contracts, bags)
  {
    contracts := map[];
    bags := map[];
    for n := 0 to |relations|
      invariant Indexed(relations[..n], contracts, bags)
    {
      var r := relations[n];
      ContractsSnoc(relations[..n], contracts, r);
      BagsSnoc(relations[..n], bags, r);
      assert relations[..n + 1] == relations[..n] + [r];
      if r.providerPubkey !in contracts {
        contracts := contracts[r.providerPubkey := r.contractAddr];
      }
      bags := bags[r.providerPubkey := (if r.providerPubkey in bags then bags[r.providerPubkey] else []) + [r.bagID]];
    }
    assert relations[..|relations|] == relations;
  }

  // ----- one provider -----

  datatype Found = Found(provider: Endpoint, storage: Endpoint)

  /** The stored endpoints' ages and what the network answers for each provider. */
  datatype Env = Env(
    existing: map<string, int>,
    now: int,
    ttl: int,
    resolve: (string, string) -> Result<Found>,
    rnd: string -> nat -> nat,
    overlay: string -> Overlay)

  predicate Fresh(env: Env, k: string) {
    k in env.existing && env.now - env.existing[k] < env.ttl
  }

  /** The provider is due, and its own address cannot be had. */
  predicate Failing(env: Env, contracts: map<string, string>, k: string)
    requires k in contracts
  {
    !Fresh(env, k) && (!IsPubkeyHex(k) || env.resolve(k, contracts[k]).Err? ||
                       env.resolve(k, contracts[k]).value.provider.ip == "")
  }

  predicate Resolvable(env: Env, contracts: map<string, string>, k: string)
    requires k in contracts
  {
    !Fresh(env, k) && !Failing(env, contracts, k)
  }

  /** The storage endpoint after a search: what it found, otherwise unchanged. */
  ghost predicate Searched(bags: seq<string>, overlay: Overlay, ip: string, before: Endpoint, after: Endpoint) {
    exists r :: IsSearch(bags, overlay, ip, r) && after == if r.Ok? then r.value else before
  }

  /**
   A resolved entry: the provider's own address, and the storage address as resolved or, if
   missing, as the overlays give it.
   */
  ghost predicate IsEntry(env: Env, contractAddr: string, bags: seq<string>, e: ProviderEndpoint) {
    && env.resolve(e.pubkey, contractAddr).Ok?
    && var found := env.resolve(e.pubkey, contractAddr).value;
    && e.updatedAt == env.now
    && e.provider == found.provider && e.provider.ip != ""
    && if found.storage.ip == ""
       then Searched(bags, env.overlay(e.pubkey), e.provider.ip, found.storage, e.storage)
       else e.storage == found.storage
  }

  /** A storage address that differs from the resolved one is at the provider's own address. */
  lemma OverlayStorageIsAtProvider(env: Env, contractAddr: string, bags: seq<string>, e: ProviderEndpoint)
    requires IsEntry(env, contractAddr, bags, e) && e.storage != env.resolve(e.pubkey, contractAddr).value.storage
    ensures e.storage.ip == e.provider.ip != ""
  {
    var found := env.resolve(e.pubkey, contractAddr).value;
    assert Searched(bags, env.overlay(e.pubkey), e.provider.ip, found.storage, e.storage);
  }

  /** The body of the loop for a provider that is due. Errors of the network are swallowed. */
  method ResolveOne(env: Env, contracts: map<string, string>, bags: map<string, seq<string>>, k: string,
                    ghost before: seq<Call>)
    returns (ep: Option<ProviderEndpoint>, ghost trace: seq<Call>)
    requires k in contracts && k in bags && !Fresh(env, k) && SoFar(before)
    ensures ep.None? <==> Failing(env, contracts, k)
    ensures ep.Some? ==> ep.value.pubkey == k && IsEntry(env, contracts[k], bags[k], ep.value)
    ensures SoFar(trace)
  {
    trace := before;
    if !IsPubkeyHex(k) {
      return None, trace;
    }
    var found := env.resolve(k, contracts[k]);
    Tries(trace, found.Ok?);
    trace := Then(trace, BestEffort, found.Ok?);
    if found.Err? {
      return None, trace;
    }
    if found.value.provider.ip == "" {
      return None, trace;
    }
    var storage := found.value.storage;
    if storage.ip == "" {
      var r := ResolveStorageWithOverlay(found.value.provider.ip, bags[k], env.rnd(k), env.overlay(k));
      Tries(trace, r.Ok?);
      trace := Then(trace, BestEffort, r.Ok?);
      if r.Ok? {
        storage := r.value;
      }
    }
    ep := Some(ProviderEndpoint(k, found.value.provider, storage, env.now));
  }

  // ----- the cycle -----

  ghost function FreshOf(env: Env, keys: set<string>): set<string> {
    set k | k in keys && Fresh(env, k)
  }

  ghost function FailingOf(env: Env, contracts: map<string, string>, keys: set<string>): set<string>
    requires keys <= contracts.Keys
  {
    set k | k in keys && Failing(env, contracts, k)
  }

  ghost function ResolvableOf(env: Env, contracts: map<string, string>, keys: set<string>): set<string>
    requires keys <= contracts.Keys
  {
    set k | k in keys && Resolvable(env, contracts, k)
  }

  ghost function EntryKeys(endpoints: seq<ProviderEndpoint>): set<string> {
    set e | e in endpoints :: e.pubkey
  }

  lemma EntryKeysSnoc(endpoints: seq<ProviderEndpoint>, e: ProviderEndpoint)
    ensures EntryKeys(endpoints + [e]) == EntryKeys(endpoints) + {e.pubkey}
  {
    assert (endpoints + [e])[|endpoints|] == e;
  }

  ghost predicate AllEntries(env: Env, contracts: map<string, string>, bags: map<string, seq<string>>,
                             keys: set<string>, endpoints: seq<ProviderEndpoint>)
    requires keys <= contracts.Keys && keys <= bags.Keys
  {
    forall e :: e in endpoints ==> e.pubkey in keys && IsEntry(env, contracts[e.pubkey], bags[e.pubkey], e)
  }

  /** The counters are the sizes of the classes, and the entries are one for each resolvable provider. */
  ghost predicate CountsMatch(env: Env, contracts: map<string, string>, keys: set<string>, p: Payload)
    requires keys <= contracts.Keys
  {
    && p.skipped == |FreshOf(env, keys)|
    && p.failed == |FailingOf(env, contracts, keys)|
    && EntryKeys(p.endpoints) == ResolvableOf(env, contracts, keys)
    && |p.endpoints| == |ResolvableOf(env, contracts, keys)|
  }

  /** The payload accounts for exactly these providers, each in its one class. */
  ghost predicate Accounts(env: Env, contracts: map<string, string>, bags: map<string, seq<string>>,
                           keys: set<string>, p: Payload) {
    && keys <= contracts.Keys && keys <= bags.Keys
    && CountsMatch(env, contracts, keys, p)
    && AllEntries(env, contracts, bags, keys, p.endpoints)
  }

  /** One more provider joins its one class. */
  lemma ClassesSnoc(env: Env, contracts: map<string, string>, keys: set<string>, k: string)
    requires keys <= contracts.Keys && k in contracts
    ensures FreshOf(env, keys + {k}) == FreshOf(env, keys) + if Fresh(env, k) then {k} else {}
    ensures FailingOf(env, contracts, keys + {k}) == FailingOf(env, contracts, keys) +
      if Failing(env, contracts, k) then {k} else {}
    ensures ResolvableOf(env, contracts, keys + {k}) == ResolvableOf(env, contracts, keys) +
      if Resolvable(env, contracts, k) then {k} else {}
  {
  }

  lemma EntriesGrow(env: Env, contracts: map<string, string>, bags: map<string, seq<string>>, keys: set<string>,
                    k: string, endpoints: seq<ProviderEndpoint>)
    requires keys + {k} <= contracts.Keys && keys + {k} <= bags.Keys &&
      AllEntries(env, contracts, bags, keys, endpoints)
    ensures AllEntries(env, contracts, bags, keys + {k}, endpoints)
  {
  }

  lemma EntriesSnoc(env: Env, contracts: map<string, string>, bags: map<string, seq<string>>, keys: set<string>,
                    endpoints: seq<ProviderEndpoint>, e: ProviderEndpoint)
    requires keys <= contracts.Keys && keys <= bags.Keys && AllEntries(env, contracts, bags, keys, endpoints)
    requires e.pubkey in keys && IsEntry(env, contracts[e.pubkey], bags[e.pubkey], e)
    ensures AllEntries(env, contracts, bags, keys, endpoints + [e])
  {
  }

  lemma CountEntry(env: Env, contracts: map<string, string>, keys: set<string>, p: Payload, e: ProviderEndpoint)
    requires keys <= contracts.Keys && CountsMatch(env, contracts, keys, p)
    requires e.pubkey !in keys && e.pubkey in contracts && Resolvable(env, contracts, e.pubkey)
    ensures CountsMatch(env, contracts, keys + {e.pubkey}, p.(endpoints := p.endpoints + [e]))
  {
    ClassesSnoc(env, contracts, keys, e.pubkey);
    EntryKeysSnoc(p.endpoints, e);
    assert e.pubkey !in ResolvableOf(env, contracts, keys);
  }

  lemma CountFresh(env: Env, contracts: map<string, string>, bags: map<string, seq<string>>, keys: set<string>,
                   p: Payload, k: string)
    requires Accounts(env, contracts, bags, keys, p) && k !in keys && k in contracts && k in bags && Fresh(env, k)
    ensures Accounts(env, contracts, bags, keys + {k}, p.(skipped := p.skipped + 1))
  {
    ClassesSnoc(env, contracts, keys, k);
    EntriesGrow(env, contracts, bags, keys, k, p.endpoints);
  }

  lemma CountFailing(env: Env, contracts: map<string, string>, bags: map<string, seq<string>>, keys: set<string>,
                     p: Payload, k: string)
    requires Accounts(env, contracts, bags, keys, p) && k !in keys && k in contracts && k in bags &&
      Failing(env, contracts, k)
    ensures Accounts(env, contracts, bags, keys + {k}, p.(failed := p.failed + 1))
  {
    ClassesSnoc(env, contracts, keys, k);
    EntriesGrow(env, contracts, bags, keys, k, p.endpoints);
  }

  lemma CountResolved(env: Env, contracts: map<string, string>, bags: map<string, seq<string>>, keys: set<string>,
                      p: Payload, e: ProviderEndpoint)
    requires Accounts(env, contracts, bags, keys, p) && e.pubkey !in keys && e.pubkey in contracts && e.pubkey in bags
    requires Resolvable(env, contracts, e.pubkey) && IsEntry(env, contracts[e.pubkey], bags[e.pubkey], e)
    ensures Accounts(env, contracts, bags, keys + {e.pubkey}, p.(endpoints := p.endpoints + [e]))
  {
    EntriesGrow(env, contracts, bags, keys, e.pubkey, p.endpoints);
    EntriesSnoc(env, contracts, bags, keys + {e.pubkey}, p.endpoints, e);
    CountEntry(env, contracts, keys, p, e);
  }

  /** The loop has accounted for all but the remaining providers, in n iterations. */
  ghost predicate Resolving(env: Env, contracts: map<string, string>, bags: map<string, seq<string>>,
                            remaining: set<string>, n: nat, p: Payload)
  {
    && remaining <= contracts.Keys && n + |remaining| == |contracts.Keys|
    && Accounts(env, contracts, bags, contracts.Keys - remaining, p)
  }

  lemma ResolvingStep(env: Env, contracts: map<string, string>, bags: map<string, seq<string>>,
                      remaining: set<string>, n: nat, p: Payload, k: string, p': Payload)
    requires Resolving(env, contracts, bags, remaining, n, p) && k in remaining
    requires Accounts(env, contracts, bags, contracts.Keys - remaining + {k}, p')
    ensures Resolving(env, contracts, bags, remaining - {k}, n + 1, p')
  {
    assert contracts.Keys - (remaining - {k}) == contracts.Keys - remaining + {k};
  }

  /** One iteration: the provider is counted in its class. */
  method CountOne(env: Env, contracts: map<string, string>, bags: map<string, seq<string>>, ghost seen: set<string>,
                  p: Payload, k: string, ghost before: seq<Call>)
    returns (p': Payload, ghost trace: seq<Call>)
    requires Accounts(env, contracts, bags, seen, p) && k !in seen && k in contracts && k in bags && SoFar(before)
    ensures Accounts(env, contracts, bags, seen + {k}, p') && SoFar(trace)
  {
    if Fresh(env, k) {
      CountFresh(env, contracts, bags, seen, p, k);
      return p.(skipped := p.skipped + 1), before;
    }
    var ep;
    ep, trace := ResolveOne(env, contracts, bags, k, before);
    if ep.None? {
      CountFailing(env, contracts, bags, seen, p, k);
      return p.(failed := p.failed + 1), trace;
    }
    CountResolved(env, contracts, bags, seen, p, ep.value);
    return p.(endpoints := p.endpoints + [ep.value]), trace;
  }

  method ResolveStep(env: Env, contracts: map<string, string>, bags: map<string, seq<string>>,
                     ghost remaining: set<string>, ghost n: nat, p: Payload, k: string, ghost before: seq<Call>)
    returns (p': Payload, ghost trace: seq<Call>)
    requires Resolving(env, contracts, bags, remaining, n, p) && k in remaining && k in bags && SoFar(before)
    ensures Resolving(env, contracts, bags, remaining - {k}, n + 1, p') && SoFar(trace)
  {
    p', trace := CountOne(env, contracts, bags, contracts.Keys - remaining, p, k, before);
    ResolvingStep(env, contracts, bags, remaining, n, p, k, p');
  }

  lemma AllResolved(env: Env, contracts: map<string, string>, bags: map<string, seq<string>>, n: nat, p: Payload)
    requires Resolving(env, contracts, bags, {}, n, p)
    ensures Accounts(env, contracts, bags, contracts.Keys, p)
  {
    assert contracts.Keys - {} == contracts.Keys;
  }

  lemma RemainingBounds(env: Env, contracts: map<string, string>, bags: map<string, seq<string>>,
                        remaining: set<string>, n: nat, p: Payload)
    requires Resolving(env, contracts, bags, remaining, n, p) && remaining != {}
    ensures n < |contracts.Keys| && remaining <= contracts.Keys
  {
  }

  lemma NothingSeen(env: Env, contracts: map<string, string>, bags: map<string, seq<string>>)
    ensures Accounts(env, contracts, bags, {}, Payload([], 0, 0))
  {
    assert FreshOf(env, {}) == {} && FailingOf(env, contracts, {}) == {} && ResolvableOf(env, contracts, {}) == {};
    assert EntryKeys([]) == {};
  }

  lemma NothingResolved(env: Env, contracts: map<string, string>, bags: map<string, seq<string>>)
    ensures Resolving(env, contracts, bags, contracts.Keys, 0, Payload([], 0, 0))
  {
    NothingSeen(env, contracts, bags);
    assert contracts.Keys - contracts.Keys == {};
  }

  /** The loop over the provider map, in any order; `cancelled(n)` is the context check of the n-th iteration. */
  method ResolveAll(env: Env, contracts: map<string, string>, bags: map<string, seq<string>>, cancelled: nat -> bool,
                    ghost before: seq<Call>, ghost publish: PublishOutcome)
    returns (r: Option<Payload>, ghost trace: seq<Call>)
    requires bags.Keys == contracts.Keys && SoFar(before)
    ensures r.Some? ==> Accounts(env, contracts, bags, contracts.Keys, r.value) && SoFar(trace)
    ensures r.None? <==> exists n: nat :: n < |contracts.Keys| && cancelled(n)
    ensures r.None? ==> Obeys(trace, false, publish, 0)
  {
    var remaining, n, p := contracts.Keys, 0, Payload([], 0, 0);
    trace := before;
    NothingResolved(env, contracts, bags);
    while remaining != {}
      invariant Resolving(env, contracts, bags, remaining, n, p) && SoFar(trace)
      invariant forall m: nat :: m < n ==> !cancelled(m)
      decreases |remaining|
    {
      RemainingBounds(env, contracts, bags, remaining, n, p);
      Calls(trace, !cancelled(n), publish);
      trace := Then(trace, Fallible, !cancelled(n));
      if cancelled(n) {
        return None, trace;
      }
      var k :| k in remaining;
      p, trace := ResolveStep(env, contracts, bags, remaining, n, p, k, trace);
      remaining, n := remaining - {k}, n + 1;
    }
    AllResolved(env, contracts, bags, n, p);
    r := Some(p);
  }

  /** The three classes are exclusive and exhaust the providers. */
  lemma ClassesPartition(env: Env, contracts: map<string, string>, keys: set<string>)
    requires keys <= contracts.Keys
    ensures |FreshOf(env, keys)| + |FailingOf(env, contracts, keys)| + |ResolvableOf(env, contracts, keys)| == |keys|
  {
    var a, b, c := FreshOf(env, keys), FailingOf(env, contracts, keys), ResolvableOf(env, contracts, keys);
    assert a !! b && (a + b) !! c;
    assert keys == a + b + c;
  }

  /** The payload accounts for every distinct provider of the relations exactly once. */
  ghost predicate IsReport(env: Env, relations: seq<Relation>, p: Payload) {
    exists contracts, bags ::
      && Indexed(relations, contracts, bags) && Accounts(env, contracts, bags, Pubkeys(relations), p)
      && |p.endpoints| + p.skipped + p.failed == |Pubkeys(relations)|
      && p.skipped == |set k | k in Pubkeys(relations) && k in env.existing && env.now - env.existing[k] < env.ttl|
  }

  lemma AccountsIsReport(env: Env, relations: seq<Relation>, contracts: map<string, string>,
                         bags: map<string, seq<string>>, p: Payload)
    requires Indexed(relations, contracts, bags) && Accounts(env, contracts, bags, Pubkeys(relations), p)
    ensures IsReport(env, relations, p)
  {
    ClassesPartition(env, contracts, Pubkeys(relations));
    assert FreshOf(env, Pubkeys(relations)) ==
      set k | k in Pubkeys(relations) && k in env.existing && env.now - env.existing[k] < env.ttl;
  }

  lemma NoRelations(env: Env)
    ensures IsReport(env, [], Payload([], 0, 0))
  {
    NothingSeen(env, map[], map[]);
    assert Pubkeys([]) == {};
    AccountsIsReport(env, [], map[], map[], Payload([], 0, 0));
  }

  /** Every iteration's context check passed. */
  ghost predicate NotCancelled(relations: seq<Relation>, cancelled: nat -> bool) {
    forall n: nat :: n < |Pubkeys(relations)| ==> !cancelled(n)
  }

  /** ResolveEndpoints: what is published accounts for the relations; a cancelled cycle publishes nothing. */
  method ResolveEndpoints(env: Env, active: Result<seq<Relation>>, existingRead: bool, cancelled: nat -> bool,
                          publish: PublishOutcome)
    returns (ok: bool, appended: seq<Payload>, ghost trace: seq<Call>)
    ensures Obeys(trace, ok, publish, |appended|)
    ensures ok <==>
      && active.Ok? && publish.Appended?
      && (active.value == [] || (existingRead && NotCancelled(active.value, cancelled)))
    ensures forall p :: p in appended ==> active.Ok? && IsReport(env, active.value, p)
  {
    appended, trace := [], [];
    Calls(trace, active.Ok?, publish);
    trace := Then(trace, Fallible, active.Ok?);
    if active.Err? {
      return false, appended, trace;
    }
    var relations := active.value;
    if |relations| == 0 {
      NoRelations(env);
      ok, appended, trace := Handlers.Publish(Payload([], 0, 0), publish, trace);
      return;
    }
    Calls(trace, existingRead, publish);
    trace := Then(trace, Fallible, existingRead);
    if !existingRead {
      return false, appended, trace;
    }
    var contractByPubkey, bagsByPubkey := IndexRelations(relations);
    var r;
    r, trace := ResolveAll(env, contractByPubkey, bagsByPubkey, cancelled, trace, publish);
    if r.None? {
      return false, appended, trace;
    }
    AccountsIsReport(env, relations, contractByPubkey, bagsByPubkey, r.value);
    ok, appended, trace := Handlers.Publish(r.value, publish, trace);
  }
}
