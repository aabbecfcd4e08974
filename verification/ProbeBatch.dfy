/**
 UpdateProviderRates: every well-formed listed key is probed once by the bounded fan-out. A
 goroutine appends its status and, when the provider is online, its rates under one lock, so the
 two lists of the payload are the two kinds of record in one shared log.
 */
module ProbeBatch {
  import opened Common
  import opened Strings
  import opened FanOut
  import opened Handlers

  datatype Rates = Rates(ratePerMBDay: int, minBounty: int, minSpan: nat, maxSpan: nat)

  /** What the network answers to a probe: rates, an online flag, and whether the call failed. */
  datatype Outcome = Outcome(rates: Rates, online: bool, failed: bool)

  datatype Probe = Probe(pubkey: string, outcome: Outcome)

  datatype Record =
    | Status(pubkey: string, isOnline: bool)
    | RateUpdate(pubkey: string, rates: Rates)

  /** The keys that hex-decode to 32 bytes, in list order; the loop skips the others. */
  function WellFormed(pubkeys: seq<string>): seq<string> {
    if pubkeys == [] then [] else
    var n := |pubkeys| - 1;
    WellFormed(pubkeys[..n]) + if IsPubkeyHex(pubkeys[n]) then [pubkeys[n]] else []
  }

  lemma {:induction false} WellFormedKeeps(pubkeys: seq<string>, k: string)
    ensures multiset(WellFormed(pubkeys))[k] == if IsPubkeyHex(k) then multiset(pubkeys)[k] else 0
  {
    if pubkeys != [] {
      var n := |pubkeys| - 1;
      assert pubkeys == pubkeys[..n] + [pubkeys[n]];
      WellFormedKeeps(pubkeys[..n], k);
    }
  }

  predicate Online(o: Outcome) {
    o.online && !o.failed
  }

  /** What one goroutine appends. */
  function Output(p: Probe): seq<Record> {
    [Status(p.pubkey, Online(p.outcome))] + if Online(p.outcome) then [RateUpdate(p.pubkey, p.outcome.rates)] else []
  }

  /** The probes of one cycle, with whatever the network will answer to each. */
  ghost predicate ProbesOf(pubkeys: seq<string>, probes: seq<Probe>) {
    |probes| == |WellFormed(pubkeys)| && forall i :: 0 <= i < |probes| ==> probes[i].pubkey == WellFormed(pubkeys)[i]
  }

  ghost function Batch(cap: nat, probes: seq<Probe>): Job<Probe, Record> {
    Job(probes, cap, (p, out) => out == Output(p))
  }

  // ----- counting records -----

  function IsStatusOf(k: string): Record -> bool {
    (r: Record) => r.Status? && r.pubkey == k
  }

  function IsOnlineStatusOf(k: string): Record -> bool {
    (r: Record) => r == Status(k, true)
  }

  function IsRateOf(k: string): Record -> bool {
    (r: Record) => r.RateUpdate? && r.pubkey == k
  }

  /** How many records satisfy p. */
  function Tally(p: Record -> bool, records: seq<Record>): nat {
    Image(p, records)[true]
  }

  lemma TallyOne(p: Record -> bool, r: Record)
    ensures Tally(p, [r]) == if p(r) then 1 else 0
  {
    var s := [r];
    assert s[..0] == [];
    assert Image(p, s) == Image(p, s[..0]) + multiset{p(r)};
  }

  lemma TallyTwo(p: Record -> bool, r: Record, q: Record)
    ensures Tally(p, [r] + [q]) == (if p(r) then 1 else 0) + if p(q) then 1 else 0
  {
    ImageConcat(p, [r], [q]);
    TallyOne(p, r);
    TallyOne(p, q);
  }

  lemma OutputTallyOf(p: Record -> bool, probe: Probe)
    ensures var status := Status(probe.pubkey, Online(probe.outcome));
            var rate := RateUpdate(probe.pubkey, probe.outcome.rates);
            Tally(p, Output(probe)) == (if p(status) then 1 else 0) + if Online(probe.outcome) && p(rate) then 1 else 0
  {
    var status, rate := Status(probe.pubkey, Online(probe.outcome)), RateUpdate(probe.pubkey, probe.outcome.rates);
    if Online(probe.outcome) {
      TallyTwo(p, status, rate);
    } else {
      assert Output(probe) == [status];
      TallyOne(p, status);
    }
  }

  lemma OutputTally(probe: Probe, k: string)
    ensures Tally(IsStatusOf(k), Output(probe)) == if probe.pubkey == k then 1 else 0
    ensures Tally(IsRateOf(k), Output(probe)) == Tally(IsOnlineStatusOf(k), Output(probe))
  {
    OutputTallyOf(IsStatusOf(k), probe);
    OutputTallyOf(IsRateOf(k), probe);
    OutputTallyOf(IsOnlineStatusOf(k), probe);
  }

  ghost predicate AllOutputs(probes: seq<Probe>, outs: seq<seq<Record>>) {
    |outs| == |probes| && forall i :: 0 <= i < |outs| ==> outs[i] == Output(probes[i])
  }

  function Key(p: Probe): string {
    p.pubkey
  }

  /** How many records of all the outputs satisfy p. */
  function TallyAll(p: Record -> bool, outs: seq<seq<Record>>): nat {
    OutsImage(p, outs)[true]
  }

  /** The last goroutine's share of a tally. */
  lemma TallyAllSnoc(p: Record -> bool, outs: seq<seq<Record>>, n: nat)
    requires n + 1 == |outs|
    ensures TallyAll(p, outs) == TallyAll(p, outs[..n]) + Tally(p, outs[n])
  {
  }

  lemma KeyCountSnoc(probes: seq<Probe>, k: string, n: nat)
    requires n + 1 == |probes|
    ensures Image(Key, probes)[k] == Image(Key, probes[..n])[k] + if probes[n].pubkey == k then 1 else 0
  {
  }

  lemma {:induction false} StatusTally(probes: seq<Probe>, outs: seq<seq<Record>>, k: string)
    requires AllOutputs(probes, outs)
    ensures TallyAll(IsStatusOf(k), outs) == Image(Key, probes)[k]
  {
    if probes != [] {
      var n := |probes| - 1;
      assert AllOutputs(probes[..n], outs[..n]);
      StatusTally(probes[..n], outs[..n], k);
      OutputTally(probes[n], k);
      TallyAllSnoc(IsStatusOf(k), outs, n);
      KeyCountSnoc(probes, k, n);
    }
  }

  lemma {:induction false} RateTally(probes: seq<Probe>, outs: seq<seq<Record>>, k: string)
    requires AllOutputs(probes, outs)
    ensures TallyAll(IsRateOf(k), outs) == TallyAll(IsOnlineStatusOf(k), outs)
  {
    if probes != [] {
      var n := |probes| - 1;
      assert AllOutputs(probes[..n], outs[..n]);
      RateTally(probes[..n], outs[..n], k);
      OutputTally(probes[n], k);
      TallyAllSnoc(IsRateOf(k), outs, n);
      TallyAllSnoc(IsOnlineStatusOf(k), outs, n);
    }
  }

  lemma {:induction false} KeyImage(keys: seq<string>, probes: seq<Probe>)
    requires |probes| == |keys| && forall i :: 0 <= i < |probes| ==> probes[i].pubkey == keys[i]
    ensures Image(Key, probes) == multiset(keys)
  {
    if keys != [] {
      var n := |keys| - 1;
      KeyImage(keys[..n], probes[..n]);
      assert keys == keys[..n] + [keys[n]];
    }
  }

  // ----- what the records say -----

  /** The probe's answer calls for the record: its status, or its rates if it was online without an error. */
  predicate CallsFor(p: Probe, r: Record) {
    match r
    case Status(k, isOnline) => p.pubkey == k && (isOnline <==> p.outcome.online && !p.outcome.failed)
    case RateUpdate(k, rates) => p.pubkey == k && p.outcome.online && !p.outcome.failed && p.outcome.rates == rates
  }

  /** How many probes call for the record. */
  function CalledFor(probes: seq<Probe>, r: Record): nat {
    if probes == [] then 0 else
    CalledFor(probes[..|probes| - 1], r) + if CallsFor(probes[|probes| - 1], r) then 1 else 0
  }

  lemma OutputRecords(probe: Probe, r: Record)
    ensures multiset(Output(probe))[r] == if CallsFor(probe, r) then 1 else 0
  {
  }

  lemma {:induction false} UnionRecords(probes: seq<Probe>, outs: seq<seq<Record>>, r: Record)
    requires AllOutputs(probes, outs)
    ensures Union(outs)[r] == CalledFor(probes, r)
  {
    if probes != [] {
      var n := |probes| - 1;
      assert AllOutputs(probes[..n], outs[..n]);
      UnionRecords(probes[..n], outs[..n], r);
      OutputRecords(probes[n], r);
    }
  }

  /**
   One status per listed well-formed key, none for another, as many rate updates for a key as
   online statuses, and each record exactly as often as the probes' answers call for it.
   */
  ghost predicate IsReport(pubkeys: seq<string>, probes: seq<Probe>, records: seq<Record>) {
    && KeysReported(pubkeys, records)
    && forall r :: multiset(records)[r] == CalledFor(probes, r)
  }

  ghost predicate KeysReported(pubkeys: seq<string>, records: seq<Record>) {
    forall k: string ::
      && Tally(IsStatusOf(k), records) == (if IsPubkeyHex(k) then multiset(pubkeys)[k] else 0)
      && Tally(IsRateOf(k), records) == Tally(IsOnlineStatusOf(k), records)
  }

  lemma BatchOutputs(cap: nat, probes: seq<Probe>, payload: seq<Record>) returns (outs: seq<seq<Record>>)
    requires IsBatch(Batch(cap, probes), payload)
    ensures AllOutputs(probes, outs) && multiset(payload) == Union(outs)
  {
    var job := Batch(cap, probes);
    outs :| && |outs| == |job.items| && (forall i :: 0 <= i < |outs| ==> job.full(job.items[i], outs[i]))
            && multiset(payload) == Union(outs);
  }

  lemma BatchTally(cap: nat, pubkeys: seq<string>, probes: seq<Probe>, payload: seq<Record>, k: string)
    requires ProbesOf(pubkeys, probes) && IsBatch(Batch(cap, probes), payload)
    ensures Tally(IsStatusOf(k), payload) == if IsPubkeyHex(k) then multiset(pubkeys)[k] else 0
    ensures Tally(IsRateOf(k), payload) == Tally(IsOnlineStatusOf(k), payload)
  {
    var outs := BatchOutputs(cap, probes, payload);
    UnionImage(IsStatusOf(k), payload, outs);
    UnionImage(IsRateOf(k), payload, outs);
    UnionImage(IsOnlineStatusOf(k), payload, outs);
    StatusTally(probes, outs, k);
    RateTally(probes, outs, k);
    KeyImage(WellFormed(pubkeys), probes);
    WellFormedKeeps(pubkeys, k);
  }

  lemma BatchIsReport(cap: nat, pubkeys: seq<string>, probes: seq<Probe>, payload: seq<Record>)
    requires ProbesOf(pubkeys, probes) && IsBatch(Batch(cap, probes), payload)
    ensures IsReport(pubkeys, probes, payload)
  {
    var outs := BatchOutputs(cap, probes, payload);
    forall r ensures multiset(payload)[r] == CalledFor(probes, r) {
      UnionRecords(probes, outs, r);
    }
    forall k: string
      ensures Tally(IsStatusOf(k), payload) == (if IsPubkeyHex(k) then multiset(pubkeys)[k] else 0)
      ensures Tally(IsRateOf(k), payload) == Tally(IsOnlineStatusOf(k), payload)
    {
      BatchTally(cap, pubkeys, probes, payload, k);
    }
  }

  /** Whatever the schedule, a published payload reports exactly the listed well-formed keys. */
  lemma PublishedProbes(cap: nat, pubkeys: seq<string>, probes: seq<Probe>, run: seq<State<Record>>, n: nat)
    requires ProbesOf(pubkeys, probes)
    requires IsRun(Batch(cap, probes), run) && n < |run| && run[n].main.Published?
    ensures IsReport(pubkeys, probes, run[n].main.payload)
  {
    PayloadIsComplete(Batch(cap, probes), run, n);
    BatchIsReport(cap, pubkeys, probes, run[n].main.payload);
  }

  lemma OutputRates(probe: Probe, r: Record)
    requires r in Output(probe) && r.RateUpdate?
    ensures Online(probe.outcome) && r == RateUpdate(probe.pubkey, probe.outcome.rates)
  {
  }

  lemma UnionRates(probes: seq<Probe>, outs: seq<seq<Record>>, payload: seq<Record>, r: Record) returns (i: nat)
    requires AllOutputs(probes, outs) && multiset(payload) == Union(outs) && r in payload && r.RateUpdate?
    ensures i < |probes| && Online(probes[i].outcome) && r == RateUpdate(probes[i].pubkey, probes[i].outcome.rates)
  {
    assert r in multiset(payload);
    i := InUnion(outs, r);
    OutputRates(probes[i], r);
  }

  /** A published rate update carries the rates that an online provider with that key answered. */
  lemma PublishedRates(cap: nat, probes: seq<Probe>, run: seq<State<Record>>, n: nat, r: Record) returns (i: nat)
    requires IsRun(Batch(cap, probes), run) && n < |run| && run[n].main.Published?
    requires r in run[n].main.payload && r.RateUpdate?
    ensures i < |probes| && Online(probes[i].outcome) && r == RateUpdate(probes[i].pubkey, probes[i].outcome.rates)
  {
    PayloadIsComplete(Batch(cap, probes), run, n);
    var outs := BatchOutputs(cap, probes, run[n].main.payload);
    i := UnionRates(probes, outs, run[n].main.payload, r);
  }

  /** Probes in flight never exceed the capacity, and every schedule ends within a bound. */
  lemma BatchIsBounded(cap: nat, probes: seq<Probe>, run: seq<State<Record>>, n: nat)
    requires IsRun(Batch(cap, probes), run) && n < |run|
    ensures Count(run[n].gs, InFlight) <= cap
    ensures n <= 6 * |probes| + 5
  {
    InFlightBounded(Batch(cap, probes), run, n);
    RunsAreBounded(Batch(cap, probes), run, n);
  }

  // ----- the handler -----

  /** Nothing without keys; otherwise the batch, which is a report on the probes. */
  ghost predicate IsPayload(pubkeys: seq<string>, probes: seq<Probe>, batch: Option<seq<Record>>,
                            payload: seq<Record>) {
    if pubkeys == [] then payload == [] else batch == Some(payload) && IsReport(pubkeys, probes, payload)
  }

  lemma JoinedIsPayload(cap: nat, pubkeys: seq<string>, probes: seq<Probe>, run: seq<State<Record>>,
                        batch: Option<seq<Record>>)
    requires ProbesOf(pubkeys, probes) && pubkeys != [] && batch.Some? && Joined(Batch(cap, probes), run, batch)
    ensures IsPayload(pubkeys, probes, batch, batch.value)
  {
    JoinedIsComplete(Batch(cap, probes), run, batch);
    BatchIsReport(cap, pubkeys, probes, batch.value);
  }

  /**
   UpdateProviderRates. `batch` is what some schedule of the fan-out left when it was waited for.
   What is published reports exactly the listed well-formed keys; a cancelled batch is not.
   */
  method UpdateProviderRates(listed: Result<seq<string>>, batch: Option<seq<Record>>, publish: PublishOutcome,
                             ghost cap: nat, ghost probes: seq<Probe>, ghost run: seq<State<Record>>)
    returns (ok: bool, appended: seq<seq<Record>>, ghost trace: seq<Call>)
    requires listed.Ok? && listed.value != [] ==>
      ProbesOf(listed.value, probes) && Joined(Batch(cap, probes), run, batch)
    ensures Obeys(trace, ok, publish, |appended|)
    ensures ok <==> listed.Ok? && (listed.value == [] || batch.Some?) && publish.Appended?
    ensures forall payload :: payload in appended ==>
      listed.Ok? && IsPayload(listed.value, probes, batch, payload)
  {
    appended, trace := [], [];
    Calls(trace, listed.Ok?, publish);
    trace := Then(trace, Fallible, listed.Ok?);
    if listed.Err? {
      return false, appended, trace;
    }
    if |listed.value| == 0 {
      ok, appended, trace := Handlers.Publish([], publish, trace);
      return;
    }
    Calls(trace, batch.Some?, publish);
    trace := Then(trace, Fallible, batch.Some?);
    if batch.None? {
      return false, appended, trace;
    }
    JoinedIsPayload(cap, listed.value, probes, run, batch);
    ok, appended, trace := Handlers.Publish(batch.value, publish, trace);
  }
}
