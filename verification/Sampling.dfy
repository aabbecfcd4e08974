/** sampleContracts: a random choice of a provider's contracts, by an in-place shuffle of a copy. */
module Sampling {
  import opened Domain

  /** The number of contracts that are kept. */
  function SampleSize(n: nat, maxBags: int, percent: int): (r: nat)
    ensures r <= n
  {
    if maxBags <= 0 || n <= maxBags then n else
    var share := if 0 < percent < 100 then n * percent / 100 else 0;
    if 0 < share < maxBags then share else maxBags
  }

  lemma SampleSizeBounds(n: nat, maxBags: int, percent: int)
    requires 0 < maxBags < n
    ensures 0 < SampleSize(n, maxBags, percent) <= maxBags
  {
  }

  /**
   Division-free: the percentage share, rounded down, if that is positive and below the limit,
   otherwise the limit.
   */
  lemma SampleSizeIsShare(n: nat, maxBags: int, percent: int)
    requires 0 < maxBags < n
    ensures var k := SampleSize(n, maxBags, percent);
            if 0 < percent < 100 && 100 <= n * percent < 100 * maxBags
            then 100 * k <= n * percent < 100 * k + 100 else k == maxBags
  {
  }

  method Swap<T>(a: array<T>, i: nat, j: nat)
    requires i < a.Length && j < a.Length
    modifies a
    ensures a[..] == old(a[..])[i := old(a[j])][j := old(a[i])]
    ensures multiset(a[..]) == multiset(old(a[..]))
  {
    a[i], a[j] := a[j], a[i];
  }

  /** rand.Shuffle: from the last position down, swap with a random one not above it. */
  method Shuffle<T>(a: array<T>, rnd: nat -> nat)
    modifies a
    ensures multiset(a[..]) == multiset(old(a[..]))
  {
    var i := a.Length - 1;
    while 0 < i
      invariant i < a.Length
      invariant multiset(a[..]) == multiset(old(a[..]))
    {
      Swap(a, i, rnd(i) % (i + 1));
      i := i - 1;
    }
  }

  lemma PrefixIsPart<T>(s: seq<T>, k: nat)
    requires k <= |s|
    ensures multiset(s[..k]) <= multiset(s)
  {
    assert s == s[..k] + s[k..];
  }

  /** Everything when sampling is off, otherwise that many of the contracts, each at most as often as given. */
  ghost predicate IsSample(contracts: seq<Relation>, maxBags: int, percent: int, sample: seq<Relation>) {
    && |sample| == SampleSize(|contracts|, maxBags, percent)
    && multiset(sample) <= multiset(contracts)
    && (maxBags <= 0 || |contracts| <= maxBags ==> sample == contracts)
  }

  method SampleContracts(contracts: seq<Relation>, maxBags: int, percent: int, rnd: nat -> nat)
    returns (sample: seq<Relation>)
    ensures IsSample(contracts, maxBags, percent, sample)
  {
    if maxBags <= 0 || |contracts| <= maxBags {
      return contracts;
    }
    var limit := maxBags;
    if 0 < percent && percent < 100 {
      var share := |contracts| * percent / 100;
      if 0 < share && share < limit {
        limit := share;
      }
    }
    var shuffled := new Relation[|contracts|](i requires 0 <= i < |contracts| => contracts[i]);
    assert shuffled[..] == contracts;
    Shuffle(shuffled, rnd);
    PrefixIsPart(shuffled[..], limit);
    assert shuffled[..][..limit] == shuffled[..limit];
    sample := shuffled[..limit];
  }
}
