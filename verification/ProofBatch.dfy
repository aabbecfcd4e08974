/**
 CheckStorageProofs: the active relations are grouped by provider, the groups are checked by the
 bounded fan-out, and the results of all groups are published together.
 */
module ProofBatch {
  import opened Common
  import opened Domain
  import opened Sampling
  import opened FanOut
  import opened Handlers
  import Breaker
  import Float32

  /** A provider's relations, in the order of the input. */
  function Of(relations: seq<Relation>, pubkey: string): seq<Relation> {
    if relations == [] then [] else
    var n := |relations| - 1;
    Of(relations[..n], pubkey) + if relations[n].providerPubkey == pubkey then [relations[n]] else []
  }

  predicate HasProvider(relations: seq<Relation>, k: string) {
    exists i :: 0 <= i < |relations| && relations[i].providerPubkey == k
  }

  /** The groups hold the relations, each with its provider. */
  ghost predicate Grouped(relations: seq<Relation>, groups: map<string, seq<Relation>>) {
    && (forall k :: k in groups <==> HasProvider(relations, k))
    && (forall k :: k in groups ==> groups[k] == Of(relations, k))
  }

  /** A provider without relations has an empty group. */
  lemma {:induction false} OfAbsent(relations: seq<Relation>, k: string)
    requires !HasProvider(relations, k)
    ensures Of(relations, k) == []
  {
    if relations != [] {
      assert forall i :: 0 <= i < |relations| ==> relations[i].providerPubkey != k;
      OfAbsent(relations[..|relations| - 1], k);
    }
  }

  lemma HasProviderSnoc(relations: seq<Relation>, rel: Relation, k: string)
    ensures HasProvider(relations + [rel], k) <==> HasProvider(relations, k) || rel.providerPubkey == k
  {
    var all := relations + [rel];
    assert all[|relations|] == rel;
    if HasProvider(relations, k) {
      var i :| 0 <= i < |relations| && relations[i].providerPubkey == k;
      assert all[i].providerPubkey == k;
    }
  }

  lemma OfSnoc(relations: seq<Relation>, rel: Relation, k: string)
    ensures Of(relations + [rel], k) == Of(relations, k) + if rel.providerPubkey == k then [rel] else []
  {
    assert (relations + [rel])[..|relations|] == relations;
  }

  lemma GroupedSnoc(relations: seq<Relation>, groups: map<string, seq<Relation>>, rel: Relation)
    requires Grouped(relations, groups)
    ensures var group := if rel.providerPubkey in groups then groups[rel.providerPubkey] else [];
            Grouped(relations + [rel], groups[rel.providerPubkey := group + [rel]])
  {
    if rel.providerPubkey !in groups {
      OfAbsent(relations, rel.providerPubkey);
    }
    forall k: string
      ensures HasProvider(relations + [rel], k) <==> HasProvider(relations, k) || rel.providerPubkey == k
      ensures Of(relations + [rel], k) == Of(relations, k) + if rel.providerPubkey == k then [rel] else []
    {
      HasProviderSnoc(relations, rel, k);
      OfSnoc(relations, rel, k);
    }
  }

  /** byProvider: one group per provider, with all its relations in order. */
  method GroupByProvider(relations: seq<Relation>) returns (groups: map<string, seq<Relation>>)
    ensures Grouped(relations, groups)
  {
    groups := map[];
    for i := 0 to |relations|
      invariant Grouped(relations[..i], groups)
    {
      var rel := relations[i];
      GroupedSnoc(relations[..i], groups, rel);
      assert relations[..i + 1] == relations[..i] + [rel];
      var group := if rel.providerPubkey in groups then groups[rel.providerPubkey] else [];
      groups := groups[rel.providerPubkey := group + [rel]];
    }
    assert relations[..|relations|] == relations;
  }

  datatype Config = Config(maxConcurrent: nat, maxBags: int, percent: int)

  /** An iteration order of the provider map: each provider once. */
  ghost predicate Order(relations: seq<Relation>, keys: seq<string>) {
    && Distinct(keys)
    && (forall k :: k in keys <==> HasProvider(relations, k))
  }

  /** For each provider what the endpoint store has, and what Verify says for each position of its sample and bag. */
  datatype Network = Network(endpoint: string -> Breaker.Endpoint, verify: string -> Breaker.Prover)

  /** What checkProvider gives for a provider's relations when nothing is cancelled. */
  ghost predicate CheckedFor(cfg: Config, net: Network, relations: seq<Relation>, k: string,
                             results: seq<ProofResult>) {
    Breaker.Checked(net.endpoint(k), cfg.maxBags, cfg.percent, Of(relations, k), net.verify(k), results)
  }

  /** The fan-out of one cycle: an item is a provider, and its goroutine runs checkProvider. */
  ghost function Batch(cfg: Config, net: Network, relations: seq<Relation>, keys: seq<string>)
    : Job<string, ProofResult>
  {
    Job(keys, cfg.maxConcurrent, (k, results) => CheckedFor(cfg, net, relations, k, results))
  }

  // ----- conservation -----

  /** The images of all groups together. */
  function GroupImage(relations: seq<Relation>, keys: seq<string>): multiset<Pair> {
    if keys == [] then multiset{} else
    GroupImage(relations, keys[..|keys| - 1]) + Image(RelationPair, Of(relations, keys[|keys| - 1]))
  }

  /** The pair that the last relation adds to one provider's group. */
  function LastPair(relations: seq<Relation>, pubkey: string): multiset<Pair>
    requires relations != []
  {
    var rel := relations[|relations| - 1];
    if rel.providerPubkey == pubkey then multiset{RelationPair(rel)} else multiset{}
  }

  lemma OfImageSnoc(relations: seq<Relation>, pubkey: string)
    requires relations != []
    ensures Image(RelationPair, Of(relations, pubkey)) ==
      Image(RelationPair, Of(relations[..|relations| - 1], pubkey)) + LastPair(relations, pubkey)
  {
    var n := |relations| - 1;
    var before := Of(relations[..n], pubkey);
    if relations[n].providerPubkey == pubkey {
      assert Of(relations, pubkey) == before + [relations[n]];
      ImageConcat(RelationPair, before, [relations[n]]);
    } else {
      assert Of(relations, pubkey) == before;
    }
  }

  /** The pair that the last relation adds to all the groups. */
  function LastPairOver(relations: seq<Relation>, keys: seq<string>): multiset<Pair>
    requires relations != []
  {
    var rel := relations[|relations| - 1];
    if rel.providerPubkey in keys then multiset{RelationPair(rel)} else multiset{}
  }

  lemma LastPairOnce(relations: seq<Relation>, keys: seq<string>, m: nat)
    requires relations != [] && Distinct(keys) && m + 1 == |keys|
    ensures LastPairOver(relations, keys) == LastPairOver(relations, keys[..m]) + LastPair(relations, keys[m])
  {
    assert keys == keys[..m] + [keys[m]];
  }

  /** One more relation adds its pair to the one group it belongs to. */
  lemma {:induction false} GroupImageSnoc(relations: seq<Relation>, keys: seq<string>)
    requires relations != [] && Distinct(keys)
    ensures GroupImage(relations, keys) == GroupImage(relations[..|relations| - 1], keys) +
      LastPairOver(relations, keys)
  {
    if keys != [] {
      var m := |keys| - 1;
      GroupImageSnoc(relations, keys[..m]);
      LastPairOnce(relations, keys, m);
      OfImageSnoc(relations, keys[m]);
    }
  }

  /** Grouping loses and duplicates nothing. */
  lemma {:induction false} GroupsConserve(relations: seq<Relation>, keys: seq<string>)
    requires Distinct(keys)
    requires forall i :: 0 <= i < |relations| ==> relations[i].providerPubkey in keys
    ensures GroupImage(relations, keys) == Image(RelationPair, relations)
  {
    if relations == [] {
      EmptyGroups(keys);
    } else {
      GroupsConserve(relations[..|relations| - 1], keys);
      GroupImageSnoc(relations, keys);
    }
  }

  lemma {:induction false} EmptyGroups(keys: seq<string>)
    ensures GroupImage([], keys) == multiset{}
  {
    if keys != [] {
      EmptyGroups(keys[..|keys| - 1]);
    }
  }

  /** A full output of a group has at most the group's pairs, and all of them when the group is not sampled. */
  lemma FullImage(cfg: Config, contracts: seq<Relation>, results: seq<ProofResult>)
    requires Breaker.Full(cfg.maxBags, cfg.percent, contracts, results)
    ensures Image(ResultPair, results) <= Image(RelationPair, contracts)
    ensures cfg.maxBags <= 0 || |contracts| <= cfg.maxBags ==>
      Image(ResultPair, results) == Image(RelationPair, contracts)
  {
    if Breaker.SamePairs(results, contracts) {
      ImagePointwise(ResultPair, results, RelationPair, contracts);
    } else {
      var sample :| IsSample(contracts, cfg.maxBags, cfg.percent, sample) && Breaker.SamePairs(results, sample);
      ImagePointwise(ResultPair, results, RelationPair, sample);
      ImageMonotone(RelationPair, sample, contracts);
    }
  }

  ghost predicate AllChecked(cfg: Config, net: Network, relations: seq<Relation>, keys: seq<string>,
                             outs: seq<seq<ProofResult>>) {
    |outs| == |keys| && forall i :: 0 <= i < |keys| ==> CheckedFor(cfg, net, relations, keys[i], outs[i])
  }

  lemma AllCheckedAreFull(cfg: Config, net: Network, relations: seq<Relation>, keys: seq<string>,
                          outs: seq<seq<ProofResult>>)
    requires AllChecked(cfg, net, relations, keys, outs)
    ensures AllFullOutputs(cfg, relations, keys, outs)
  {
    forall i | 0 <= i < |keys| ensures Breaker.Full(cfg.maxBags, cfg.percent, Of(relations, keys[i]), outs[i]) {
      assert CheckedFor(cfg, net, relations, keys[i], outs[i]);
      Breaker.CheckedIsFull(net.endpoint(keys[i]), cfg.maxBags, cfg.percent, Of(relations, keys[i]),
                            net.verify(keys[i]),
                            outs[i]);
    }
  }

  ghost predicate AllFullOutputs(cfg: Config, relations: seq<Relation>, keys: seq<string>,
                                 outs: seq<seq<ProofResult>>) {
    |outs| == |keys| && forall i :: 0 <= i < |keys| ==>
        Breaker.Full(cfg.maxBags, cfg.percent, Of(relations, keys[i]), outs[i])
  }

  /** No provider has more relations than the sampling limit, or sampling is off. */
  ghost predicate Unsampled(cfg: Config, relations: seq<Relation>, keys: seq<string>) {
    cfg.maxBags <= 0 || forall i :: 0 <= i < |keys| ==> |Of(relations, keys[i])| <= cfg.maxBags
  }

  lemma {:induction false} OutsConserve(cfg: Config, relations: seq<Relation>, keys: seq<string>,
                                        outs: seq<seq<ProofResult>>)
    requires AllFullOutputs(cfg, relations, keys, outs)
    ensures OutsImage(ResultPair, outs) <= GroupImage(relations, keys)
    ensures Unsampled(cfg, relations, keys) ==> OutsImage(ResultPair, outs) == GroupImage(relations, keys)
  {
    if keys != [] {
      var n := |keys| - 1;
      OutsConserve(cfg, relations, keys[..n], outs[..n]);
      FullImage(cfg, Of(relations, keys[n]), outs[n]);
    }
  }

  /** At most one result per active relation, and exactly one when no provider is sampled. */
  ghost predicate PairsReported(cfg: Config, relations: seq<Relation>, keys: seq<string>, results: seq<ProofResult>) {
    && Image(ResultPair, results) <= Image(RelationPair, relations)
    && (Unsampled(cfg, relations, keys) ==> Image(ResultPair, results) == Image(RelationPair, relations))
  }

  /** As a multiset of (contract, provider, reason), the results are what checkProvider gives for all the providers. */
  ghost predicate ReasonsReported(cfg: Config, net: Network, relations: seq<Relation>, keys: seq<string>,
                                  results: seq<ProofResult>) {
    exists outs: seq<seq<ProofResult>> ::
      AllChecked(cfg, net, relations, keys, outs) && multiset(results) == Union(outs)
  }

  ghost predicate IsReport(cfg: Config, net: Network, relations: seq<Relation>, keys: seq<string>,
                           results: seq<ProofResult>) {
    PairsReported(cfg, relations, keys, results) && ReasonsReported(cfg, net, relations, keys, results)
  }

  lemma BatchOutputs(cfg: Config, net: Network, relations: seq<Relation>, keys: seq<string>, payload: seq<ProofResult>)
    returns (outs: seq<seq<ProofResult>>)
    requires IsBatch(Batch(cfg, net, relations, keys), payload)
    ensures AllChecked(cfg, net, relations, keys, outs) && multiset(payload) == Union(outs)
  {
    var job := Batch(cfg, net, relations, keys);
    outs :| && |outs| == |job.items| && (forall i :: 0 <= i < |outs| ==> job.full(job.items[i], outs[i]))
            && multiset(payload) == Union(outs);
  }

  lemma BatchIsReport(cfg: Config, net: Network, relations: seq<Relation>, keys: seq<string>, payload: seq<ProofResult>)
    requires Order(relations, keys) && IsBatch(Batch(cfg, net, relations, keys), payload)
    ensures IsReport(cfg, net, relations, keys, payload)
  {
    var outs := BatchOutputs(cfg, net, relations, keys, payload);
    AllCheckedAreFull(cfg, net, relations, keys, outs);
    UnionImage(ResultPair, payload, outs);
    OutsConserve(cfg, relations, keys, outs);
    forall i | 0 <= i < |relations| ensures relations[i].providerPubkey in keys {
      assert HasProvider(relations, relations[i].providerPubkey);
    }
    GroupsConserve(relations, keys);
  }

  /**
   Whatever the schedule and the map order, a published payload has at most one result per active
   relation, exactly one when no provider is sampled, and the reasons that the providers' checks gave.
   */
  lemma PublishedBatch(cfg: Config, net: Network, relations: seq<Relation>, keys: seq<string>,
                       run: seq<State<ProofResult>>, n: nat)
    requires Order(relations, keys)
    requires IsRun(Batch(cfg, net, relations, keys), run) && n < |run| && run[n].main.Published?
    ensures IsReport(cfg, net, relations, keys, run[n].main.payload)
  {
    PayloadIsComplete(Batch(cfg, net, relations, keys), run, n);
    BatchIsReport(cfg, net, relations, keys, run[n].main.payload);
  }

  // ----- what the reasons rest on -----

  /** The result is the breaker's entry for some position of some sample of the provider's relations. */
  ghost predicate IsEntryOf(cfg: Config, net: Network, relations: seq<Relation>, k: string, r: ProofResult) {
    exists sample: seq<Relation>, l: nat ::
      && IsSample(Of(relations, k), cfg.maxBags, cfg.percent, sample) && l < |sample|
      && r == Breaker.Entry(sample, Breaker.OnSample(net.verify(k), sample), Float32.Threshold(|sample|), l)
  }

  /** A result of one provider: a failure to find its address exactly if it cannot be reached, or such an entry. */
  ghost predicate IsResultOf(cfg: Config, net: Network, relations: seq<Relation>, k: string, r: ProofResult) {
    if !Breaker.Reachable(net.endpoint(k))
    then r.reason == IPNotFound && exists rel :: rel in Of(relations, k) && RelationPair(rel) == ResultPair(r)
    else IsEntryOf(cfg, net, relations, k, r)
  }

  lemma CheckedResult(cfg: Config, net: Network, relations: seq<Relation>, k: string, out: seq<ProofResult>, l: nat)
    requires CheckedFor(cfg, net, relations, k, out) && l < |out|
    ensures IsResultOf(cfg, net, relations, k, out[l])
  {
    var contracts := Of(relations, k);
    if Breaker.Reachable(net.endpoint(k)) {
      var sample :| IsSample(contracts, cfg.maxBags, cfg.percent, sample)
                    && Breaker.AreEntries(sample, net.verify(k), out);
      assert out[l] == Breaker.Entry(sample, Breaker.OnSample(net.verify(k), sample), Float32.Threshold(|sample|), l);
    } else {
      assert out[l] in out;
      assert contracts[l] in contracts && RelationPair(contracts[l]) == ResultPair(out[l]);
    }
  }

  /**
   Every published result belongs to a provider of the relations, and its reason is what that
   provider's check gave.
   */
  lemma ReasonsRest(cfg: Config, net: Network, relations: seq<Relation>, keys: seq<string>, results: seq<ProofResult>,
                    r: ProofResult) returns (i: nat)
    requires ReasonsReported(cfg, net, relations, keys, results) && r in results
    ensures i < |keys| && IsResultOf(cfg, net, relations, keys[i], r)
  {
    var outs: seq<seq<ProofResult>> :| AllChecked(cfg, net, relations, keys, outs) && multiset(results) == Union(outs);
    assert r in multiset(results);
    i := InUnion(outs, r);
    var l :| 0 <= l < |outs[i]| && outs[i][l] == r;
    CheckedResult(cfg, net, relations, keys[i], outs[i], l);
  }

  /** Every relation of a provider that cannot be reached is published, as a failure to find its address. */
  lemma UnreachableFailsAll(cfg: Config, net: Network, relations: seq<Relation>, keys: seq<string>,
                            results: seq<ProofResult>, i: nat, rel: Relation)
    requires ReasonsReported(cfg, net, relations, keys, results)
    requires i < |keys| && !Breaker.Reachable(net.endpoint(keys[i])) && rel in Of(relations, keys[i])
    ensures ProofResult(rel.contractAddr, rel.providerAddress, IPNotFound) in results
  {
    var outs: seq<seq<ProofResult>> :| AllChecked(cfg, net, relations, keys, outs) && multiset(results) == Union(outs);
    var contracts := Of(relations, keys[i]);
    var l :| 0 <= l < |contracts| && contracts[l] == rel;
    assert CheckedFor(cfg, net, relations, keys[i], outs[i]);
    var r := outs[i][l];
    assert r in outs[i] && ResultPair(r) == RelationPair(rel);
    OutInUnion(outs, i, r);
    assert r in multiset(results);
  }

  // ----- progress -----

  lemma {:induction false} SomeChecks(cfg: Config, net: Network, relations: seq<Relation>, keys: seq<string>)
    returns (outs: seq<seq<ProofResult>>)
    ensures AllChecked(cfg, net, relations, keys, outs)
  {
    outs := [];
    if keys != [] {
      var n := |keys| - 1;
      var before := SomeChecks(cfg, net, relations, keys[..n]);
      var last := Breaker.SomeCheck(net.endpoint(keys[n]), cfg.maxBags, cfg.percent, Of(relations, keys[n]),
                                    net.verify(keys[n]));
      outs := before + [last];
      forall i | 0 <= i < |keys| ensures CheckedFor(cfg, net, relations, keys[i], outs[i]) {
        assert i < n ==> keys[..n][i] == keys[i];
      }
    }
  }

  /** No schedule deadlocks: until the cycle has ended, something other than a cancellation can happen. */
  lemma BatchProgress(cfg: Config, net: Network, relations: seq<Relation>, keys: seq<string>,
                      run: seq<State<ProofResult>>, n: nat)
    returns (step: Step<ProofResult>)
    requires IsRun(Batch(cfg, net, relations, keys), run) && n < |run|
    requires 0 < cfg.maxConcurrent && !Stopped(run[n].main)
    ensures Enabled(Batch(cfg, net, relations, keys), run[n], step) && !step.Cancel?
  {
    var outputs := SomeChecks(cfg, net, relations, keys);
    step := Progress(Batch(cfg, net, relations, keys), run, n, outputs);
  }

  /** Provider checks in flight never exceed the capacity, and every schedule ends within a bound. */
  lemma BatchIsBounded(cfg: Config, net: Network, relations: seq<Relation>, keys: seq<string>,
                       run: seq<State<ProofResult>>, n: nat)
    requires IsRun(Batch(cfg, net, relations, keys), run) && n < |run|
    ensures Count(run[n].gs, InFlight) <= cfg.maxConcurrent
    ensures n <= 6 * |keys| + 5
  {
    InFlightBounded(Batch(cfg, net, relations, keys), run, n);
    RunsAreBounded(Batch(cfg, net, relations, keys), run, n);
  }

  /** Walking the provider map in some order gives the items of the fan-out and their relations. */
  lemma GroupsAreItems(relations: seq<Relation>, keys: seq<string>, groups: map<string, seq<Relation>>)
    requires Order(relations, keys) && Grouped(relations, groups)
    ensures groups.Keys == set k | k in keys
    ensures forall i :: 0 <= i < |keys| ==> keys[i] in groups && groups[keys[i]] == Of(relations, keys[i])
  {
    forall i | 0 <= i < |keys| ensures keys[i] in groups {
      assert keys[i] in keys;
    }
  }

  // ----- the handler -----

  /** Nothing without relations; otherwise the batch, which is a report on the relations. */
  ghost predicate IsPayload(cfg: Config, net: Network, relations: seq<Relation>, keys: seq<string>,
                            batch: Option<seq<ProofResult>>, payload: seq<ProofResult>) {
    if relations == [] then payload == [] else batch == Some(payload) && IsReport(cfg, net, relations, keys, payload)
  }

  lemma JoinedIsPayload(cfg: Config, net: Network, relations: seq<Relation>, keys: seq<string>,
                        run: seq<State<ProofResult>>, batch: Option<seq<ProofResult>>)
    requires Order(relations, keys) && relations != [] && batch.Some?
    requires Joined(Batch(cfg, net, relations, keys), run, batch)
    ensures IsPayload(cfg, net, relations, keys, batch, batch.value)
  {
    JoinedIsComplete(Batch(cfg, net, relations, keys), run, batch);
    BatchIsReport(cfg, net, relations, keys, batch.value);
  }

  /**
   CheckStorageProofs. `keys` is the order in which the provider map was walked, and `batch` what
   some schedule of the fan-out over it left when it was waited for.
   */
  method CheckStorageProofs(cfg: Config, active: Result<seq<Relation>>, batch: Option<seq<ProofResult>>,
                            publish: PublishOutcome, ghost net: Network, ghost keys: seq<string>,
                            ghost run: seq<State<ProofResult>>)
    returns (ok: bool, appended: seq<seq<ProofResult>>, ghost trace: seq<Call>)
    requires active.Ok? ==> Order(active.value, keys)
    requires active.Ok? && active.value != [] ==> Joined(Batch(cfg, net, active.value, keys), run, batch)
    ensures Obeys(trace, ok, publish, |appended|)
    ensures ok <==> active.Ok? && (active.value == [] || batch.Some?) && publish.Appended?
    ensures forall payload :: payload in appended ==>
      active.Ok? && IsPayload(cfg, net, active.value, keys, batch, payload)
  {
    appended, trace := [], [];
    Calls(trace, active.Ok?, publish);
    trace := Then(trace, Fallible, active.Ok?);
    if active.Err? {
      return false, appended, trace;
    }
    if |active.value| == 0 {
      ok, appended, trace := Handlers.Publish([], publish, trace);
      return;
    }
    var byProvider := GroupByProvider(active.value);
    GroupsAreItems(active.value, keys, byProvider);
    Calls(trace, batch.Some?, publish);
    trace := Then(trace, Fallible, batch.Some?);
    if batch.None? {
      return false, appended, trace;
    }
    JoinedIsPayload(cfg, net, active.value, keys, run, batch);
    ok, appended, trace := Handlers.Publish(batch.value, publish, trace);
  }
}
