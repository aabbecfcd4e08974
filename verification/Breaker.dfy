/**
 checkProvider: the proofs of one provider's sampled bags, with a breaker that stops asking after
 too many failures in a row. Verify is an arbitrary oracle per position of the sample and bag.
 */
module Breaker {
  import opened Common
  import opened Domain
  import opened Float32
  import opened Sampling

  /** Verify, for a position of the sample and its bag. */
  type Prover = (nat, string) -> Reason

  type Verifier = nat -> Reason

  /** What Verify says at each position of a sample. */
  ghost function OnSample(prover: Prover, sample: seq<Relation>): Verifier {
    (i: nat) => if i < |sample| then prover(i, sample[i].bagID) else ValidStorageProof
  }

  /** Every proof in [lo, hi) failed. */
  ghost predicate AllFail(verify: Verifier, lo: nat, hi: nat) {
    forall l: nat :: lo <= l < hi ==> verify(l) != ValidStorageProof
  }

  /** The T + 1 proofs before position j all failed. */
  ghost predicate FailWindow(verify: Verifier, T: nat, j: nat) {
    T < j && AllFail(verify, j - T - 1, j)
  }

  /** The breaker is open before position i: some T + 1 consecutive proofs below i all failed. */
  ghost predicate Open(verify: Verifier, T: nat, i: nat) {
    0 < T && exists j: nat :: j <= i && FailWindow(verify, T, j)
  }

  /** The result at position i, described by the oracle and the sample alone. */
  ghost function Entry(sample: seq<Relation>, verify: Verifier, T: nat, i: nat): ProofResult
    requires i < |sample|
  {
    ProofResult(sample[i].contractAddr, sample[i].providerAddress,
                if Open(verify, T, i) then UnavailableProvider else verify(i))
  }

  lemma OpenStays(verify: Verifier, T: nat, i: nat, k: nat)
    requires Open(verify, T, i) && i <= k
    ensures Open(verify, T, k)
  {
    var j: nat :| j <= i && FailWindow(verify, T, j);
    assert j <= k && FailWindow(verify, T, j);
  }

  /** While the breaker is closed, `fails` is the length of the failing streak that ends at i. */
  ghost predicate Streak(verify: Verifier, i: nat, fails: nat) {
    && fails <= i
    && AllFail(verify, i - fails, i)
    && (fails < i ==> verify(i - fails - 1) == ValidStorageProof)
  }

  ghost predicate Counting(verify: Verifier, T: nat, i: nat, fails: nat) {
    if 0 < T && T < fails then Open(verify, T, i) else !Open(verify, T, i) && Streak(verify, i, fails)
  }

  lemma StreakStep(verify: Verifier, i: nat, fails: nat)
    requires Streak(verify, i, fails)
    ensures Streak(verify, i + 1, if verify(i) == ValidStorageProof then 0 else fails + 1)
  {
  }

  /** A valid proof T or fewer positions back is inside the window, so the window did not all fail. */
  lemma NoWindowOverValid(verify: Verifier, T: nat, i: nat, fails: nat)
    requires Streak(verify, i, fails) && fails <= T
    ensures !FailWindow(verify, T, i)
  {
    if T < i {
      var l: nat := i - fails - 1;
      assert i - T - 1 <= l < i && verify(l) == ValidStorageProof;
    }
  }

  /** A closed breaker opens exactly when the streak exceeds the threshold. */
  lemma OpensWithStreak(verify: Verifier, T: nat, i: nat, fails: nat)
    requires 0 < T && !Open(verify, T, i) && Streak(verify, i + 1, fails)
    ensures Open(verify, T, i + 1) <==> T < fails
  {
    if T < fails {
      assert FailWindow(verify, T, i + 1);
    } else {
      NoWindowOverValid(verify, T, i + 1, fails);
    }
  }

  lemma CountingStep(verify: Verifier, T: nat, i: nat, fails: nat)
    requires Counting(verify, T, i, fails) && !(0 < T && T < fails)
    ensures Counting(verify, T, i + 1, if verify(i) == ValidStorageProof then 0 else fails + 1)
  {
    StreakStep(verify, i, fails);
    if 0 < T {
      OpensWithStreak(verify, T, i, if verify(i) == ValidStorageProof then 0 else fails + 1);
    }
  }

  /**
   The loop over the sample. `cancelled(i)` is the context check before position i, and
   `cutShort(i)` says the context ended during the pause after it. Without cancellation there is
   one result per sampled bag, in sample order; with it, a prefix of those.
   */
  method CheckSample(sample: seq<Relation>, maxFailures: nat, prover: Prover, cancelled: nat -> bool,
                     cutShort: nat -> bool)
    returns (results: seq<ProofResult>, calls: nat)
    ensures |results| <= |sample| && forall i :: 0 <= i < |results| ==>
      results[i] == Entry(sample, OnSample(prover, sample), maxFailures, i)
    ensures |results| < |sample| ==> cancelled(|results|) || (0 < |results| && cutShort(|results| - 1))
    ensures calls <= |results| && forall i: nat :: i < |results| ==>
      (i < calls <==> !Open(OnSample(prover, sample), maxFailures, i))
  {
    ghost var verify := OnSample(prover, sample);
    results := [];
    calls := 0;
    var failsInARow := 0;
    for i := 0 to |sample|
      invariant |results| == i && forall k :: 0 <= k < i ==> results[k] == Entry(sample, verify, maxFailures, k)
      invariant Counting(verify, maxFailures, i, failsInARow)
      invariant calls <= i && (calls < i ==> Open(verify, maxFailures, i))
      invariant forall k: nat :: k < i ==> (k < calls <==> !Open(verify, maxFailures, k))
    {
      if cancelled(i) {
        return;
      }
      var sc := sample[i];
      if 0 < maxFailures && maxFailures < failsInARow {
        OpenStays(verify, maxFailures, i, i + 1);
        results := results + [ProofResult(sc.contractAddr, sc.providerAddress, UnavailableProvider)];
      } else {
        CountingStep(verify, maxFailures, i, failsInARow);
        var reason := prover(i, sc.bagID);
        calls := calls + 1;
        results := results + [ProofResult(sc.contractAddr, sc.providerAddress, reason)];
        if reason == ValidStorageProof {
          failsInARow := 0;
        } else {
          failsInARow := failsInARow + 1;
        }
        if cutShort(i) {
          return;
        }
      }
    }
  }

  /**
   Since Verify never reports an unavailable provider, that code marks exactly the open positions,
   and they are a suffix.
   */
  lemma UnavailableIsSuffix(sample: seq<Relation>, verify: Verifier, T: nat, i: nat, k: nat)
    requires i <= k < |sample| && forall l :: verify(l) != UnavailableProvider
    ensures Entry(sample, verify, T, i).reason == UnavailableProvider <==> Open(verify, T, i)
    ensures Entry(sample, verify, T, i).reason == UnavailableProvider ==>
      Entry(sample, verify, T, k).reason == UnavailableProvider
  {
    if Open(verify, T, i) {
      OpenStays(verify, T, i, k);
    }
  }

  /** At most T + 1 Verify calls follow the last valid proof: a call at i means fewer failures since than that. */
  lemma CallsAfterLastValid(verify: Verifier, T: nat, last: nat, i: nat)
    requires 0 < T && last < i && AllFail(verify, last + 1, i) && !Open(verify, T, i)
    ensures i - last <= T + 1
  {
    if T + 1 < i - last {
      assert FailWindow(verify, T, i);
    }
  }

  /** The same with no valid proof at all. */
  lemma CallsWithoutValid(verify: Verifier, T: nat, i: nat)
    requires 0 < T && AllFail(verify, 0, i) && !Open(verify, T, i)
    ensures i <= T
  {
    if T < i {
      assert FailWindow(verify, T, i);
    }
  }

  /** With T zero, that is for fewer than five bags, the breaker never opens and every bag is verified. */
  lemma NoBreakerForSmallSamples(verify: Verifier, n: nat, i: nat)
    requires n < MANTISSA
    ensures n < 5 <==> Threshold(n) == 0
    ensures n < 5 ==> !Open(verify, Threshold(n), i)
  {
    ThresholdIsAFifth(n);
  }

  // ----- checkProvider -----

  /** What LoadFresh found: an error, nothing, or an endpoint with its storage IP. */
  type Endpoint = Result<Option<string>>

  predicate Reachable(ep: Endpoint) {
    ep.Ok? && ep.value.Some? && ep.value.value != ""
  }

  /** fillReason: the same reason for every contract. */
  method FillReason(contracts: seq<Relation>, reason: Reason) returns (out: seq<ProofResult>)
    ensures |out| == |contracts|
    ensures forall i :: 0 <= i < |out| ==>
      out[i] == ProofResult(contracts[i].contractAddr, contracts[i].providerAddress, reason)
  {
    var buffer := new ProofResult[|contracts|];
    for i := 0 to |contracts|
      invariant forall k :: 0 <= k < i ==>
        buffer[k] == ProofResult(contracts[k].contractAddr, contracts[k].providerAddress, reason)
    {
      buffer[i] := ProofResult(contracts[i].contractAddr, contracts[i].providerAddress, reason);
    }
    out := buffer[..];
  }

  /** The results name the same contracts and providers as the relations, in the same order. */
  ghost predicate SamePairs(results: seq<ProofResult>, relations: seq<Relation>) {
    |results| == |relations| && forall i :: 0 <= i < |results| ==> ResultPair(results[i]) == RelationPair(relations[i])
  }

  /** What checkProvider gives when nothing is cancelled: a result for every contract, or for every sampled one. */
  ghost predicate Full(maxBags: int, percent: int, contracts: seq<Relation>, results: seq<ProofResult>) {
    || SamePairs(results, contracts)
    || exists sample :: IsSample(contracts, maxBags, percent, sample) && SamePairs(results, sample)
  }

  /**
   What checkProvider gives when nothing is cancelled: the same failure for every contract of a
   provider that cannot be reached, and otherwise the breaker's entries for some sample.
   */
  ghost predicate Checked(ep: Endpoint, maxBags: int, percent: int, contracts: seq<Relation>, prover: Prover,
                          results: seq<ProofResult>)
  {
    if !Reachable(ep)
    then SamePairs(results, contracts) && forall r :: r in results ==> r.reason == IPNotFound
    else exists sample :: IsSample(contracts, maxBags, percent, sample) && AreEntries(sample, prover, results)
  }

  /** The results are the breaker's entries for the whole sample, in order. */
  ghost predicate AreEntries(sample: seq<Relation>, prover: Prover, results: seq<ProofResult>) {
    && |results| == |sample|
    && forall i :: 0 <= i < |results| ==> results[i] == Entry(sample, OnSample(prover, sample), Threshold(|sample|), i)
  }

  lemma CheckedIsFull(ep: Endpoint, maxBags: int, percent: int, contracts: seq<Relation>, prover: Prover,
                      results: seq<ProofResult>)
    requires Checked(ep, maxBags, percent, contracts, prover, results)
    ensures Full(maxBags, percent, contracts, results)
  {
    if Reachable(ep) {
      var sample :| IsSample(contracts, maxBags, percent, sample) && AreEntries(sample, prover, results);
      assert SamePairs(results, sample);
    }
  }

  lemma FirstOnesAreSample(contracts: seq<Relation>, maxBags: int, percent: int)
    ensures IsSample(contracts, maxBags, percent, contracts[..SampleSize(|contracts|, maxBags, percent)])
  {
    PrefixIsPart(contracts, SampleSize(|contracts|, maxBags, percent));
  }

  /** There is always something that checkProvider can give. */
  lemma SomeCheck(ep: Endpoint, maxBags: int, percent: int, contracts: seq<Relation>, prover: Prover)
    returns (results: seq<ProofResult>)
    ensures Checked(ep, maxBags, percent, contracts, prover, results)
  {
    if Reachable(ep) {
      var sample := contracts[..SampleSize(|contracts|, maxBags, percent)];
      FirstOnesAreSample(contracts, maxBags, percent);
      results := seq(|sample|, i requires 0 <= i < |sample| =>
                     Entry(sample, OnSample(prover, sample), Threshold(|sample|), i));
      assert AreEntries(sample, prover, results);
    } else {
      results := seq(|contracts|, i requires 0 <= i < |contracts| =>
                     ProofResult(contracts[i].contractAddr, contracts[i].providerAddress, IPNotFound));
    }
  }

  /**
   checkProvider. An unreachable provider fails all its contracts, sampled or not; otherwise a
   sample is verified, and the threshold is a fifth of the sample.
   */
  method CheckProvider(ep: Endpoint, contracts: seq<Relation>, maxBags: int, percent: int, rnd: nat -> nat,
                       prover: Prover, cancelled: nat -> bool, cutShort: nat -> bool)
    returns (results: seq<ProofResult>, ghost sample: seq<Relation>)
    ensures !Reachable(ep) ==> SamePairs(results, contracts) && forall r :: r in results ==> r.reason == IPNotFound
    ensures Reachable(ep) ==>
      && IsSample(contracts, maxBags, percent, sample)
      && |results| <= |sample| && SamePairs(results, sample[..|results|])
      && forall i :: 0 <= i < |results| ==>
          results[i] == Entry(sample, OnSample(prover, sample), Threshold(|sample|), i)
    ensures (forall i :: !cancelled(i) && !cutShort(i)) ==> Checked(ep, maxBags, percent, contracts, prover, results)
  {
    if ep.Err? || ep.value.None? || ep.value.value == "" {
      sample := [];
      results := FillReason(contracts, IPNotFound);
      return;
    }
    var chosen := SampleContracts(contracts, maxBags, percent, rnd);
    sample := chosen;
    var calls;
    results, calls := CheckSample(chosen, Threshold(|chosen|), prover, cancelled, cutShort);
    assert |results| == |chosen| ==> AreEntries(chosen, prover, results);
  }
}
