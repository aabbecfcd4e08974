/**
 isRemovedByLowBalance: a contract that cannot pay a provider's next proof, and has not been
 proved within the provider's span and an hour, is taken as removed.
 */
module LowBalance {

  type Uint64 = x: int | 0 <= x < 0x1_0000_0000_0000_0000
  type Uint32 = x: int | 0 <= x < 0x1_0000_0000
  type Int64 = x: int | -0x8000_0000_0000_0000 <= x < 0x8000_0000_0000_0000

  /** The fee of a storage proof, 0.05 TON in nano. */
  const FEE := 50_000_000

  /** Seconds of a day times bytes of a mebibyte. */
  const DAY_MB := 24 * 60 * 60 * 1024 * 1024

  const GRACE := 3600

  /** Addition of 64-bit signed integers wraps around. */
  function Wrap64(x: int): Int64 {
    (x + 0x8000_0000_0000_0000) % 0x1_0000_0000_0000_0000 - 0x8000_0000_0000_0000
  }

  function Deadline(lastProof: Int64, span: Uint32): Int64 {
    Wrap64(Wrap64(lastProof + span) + GRACE)
  }

  /** What the contract owes for one span: the rounded-down rate, and the fee. */
  function Bounty(rate: Uint64, size: nat, span: Uint32): int {
    rate * size * span / DAY_MB + FEE
  }

  lemma ProductIsNat(rate: nat, size: nat, span: nat)
    ensures 0 <= rate * size * span
  {
    assert 0 <= rate * size;
  }

  /** An unrounded form of comparing with a rounded quotient. */
  lemma QuotientAtLeast(n: nat, k: int)
    ensures k <= n / DAY_MB <==> k * DAY_MB <= n
  {
    assert n == n / DAY_MB * DAY_MB + n % DAY_MB;
  }

  /** The source's decision, with the current time as a parameter. */
  function IsRemovedByLowBalance(size: nat, rate: Uint64, span: Uint32, lastProof: Int64, balance: Uint64,
                                 now: Int64): (removed: bool)
    ensures removed <==>
      && (balance - 50_000_000 + 1) * 90_596_966_400 <= rate * size * span
      && 0 < lastProof && Deadline(lastProof, span) < now
  {
    ProductIsNat(rate, size, span);
    QuotientAtLeast(rate * size * span, balance - FEE + 1);
    if Bounty(rate, size, span) <= balance then false
    else if lastProof <= 0 then false
    else Deadline(lastProof, span) < now
  }

  /** Away from the end of the 64-bit range the deadline is the plain sum. */
  lemma DeadlineIsExact(lastProof: Int64, span: Uint32)
    ensures Deadline(lastProof, span) == lastProof + span + 3600 <==> lastProof + span + 3600 < 0x8000_0000_0000_0000
  {
    var end := 0x8000_0000_0000_0000;
    if lastProof + span < end {
      assert Wrap64(lastProof + span) == lastProof + span;
    } else {
      assert Wrap64(lastProof + span) == lastProof + span - 2 * end;
    }
  }

  /** Once removed, always removed; and a lower balance never saves a contract. */
  lemma RemovalIsMonotone(size: nat, rate: Uint64, span: Uint32, lastProof: Int64, balance: Uint64, now: Int64,
                          balance': Uint64, now': Int64)
    requires balance' <= balance && now <= now'
    requires IsRemovedByLowBalance(size, rate, span, lastProof, balance, now)
    ensures IsRemovedByLowBalance(size, rate, span, lastProof, balance', now')
  {
    assert (balance' - FEE + 1) * DAY_MB <= (balance - FEE + 1) * DAY_MB;
  }

  /** A dearer, larger or longer obligation never saves a contract that was short of balance. */
  lemma ShortageIsMonotone(size: nat, rate: Uint64, span: Uint32, size': nat, rate': Uint64, span': Uint32)
    requires size <= size' && rate <= rate' && span <= span'
    ensures Bounty(rate, size, span) <= Bounty(rate', size', span')
  {
    ProductGrows(rate, rate', size, size');
    ProductGrows(rate * size, rate' * size', span, span');
    QuotientAtLeast(rate' * size' * span', rate * size * span / DAY_MB);
    QuotientAtLeast(rate * size * span, rate * size * span / DAY_MB);
  }

  lemma ProductGrows(a: nat, a': nat, b: nat, b': nat)
    requires a <= a' && b <= b'
    ensures 0 <= a * b <= a' * b'
  {
    assert a * b <= a' * b;
    assert a' * b <= a' * b';
  }
}
