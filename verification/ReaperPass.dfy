/**
 claimPending: one pass of the reaper over the pending list. XAUTOCLAIM examines pending entries
 in id order from a cursor, up to ten times its count of them, claims those idle long enough,
 and returns the id to go on from, or 0-0 at the end (here: entries are numbered from 1, and 0
 stands for 0-0). Every claim call succeeds and no other consumer acts.
 */
module ReaperPass {
  import opened ConsumerGroup

  ghost predicate Ascending(ids: seq<nat>) {
    forall i, j :: 0 <= i < j < |ids| ==> ids[i] < ids[j]
  }

  lemma AscendingSnoc(ids: seq<nat>, id: nat)
    requires Ascending(ids) && forall k :: k in ids ==> k < id
    ensures Ascending(ids + [id])
  {
    assert forall i :: 0 <= i < |ids| ==> ids[i] in ids;
  }

  lemma AscendingConcat(a: seq<nat>, b: seq<nat>)
    requires Ascending(a) && Ascending(b) && forall k, l :: k in a && l in b ==> k < l
    ensures Ascending(a + b)
  {
    assert forall i :: 0 <= i < |a| ==> a[i] in a;
    assert forall i :: 0 <= i < |b| ==> b[i] in b;
  }

  predicate IdleFor(pel: map<nat, nat>, now: nat, minIdle: nat, id: nat)
    requires id in pel
  {
    pel[id] + minIdle <= now
  }

  /** The id lies in the part of the list examined from the cursor up to `next`. */
  predicate Examined(cursor: nat, next: nat, id: nat) {
    cursor <= id && (next == 0 || id < next)
  }

  /** What examining [cursor, next) did: exactly the idle entries were claimed, the rest is untouched. */
  ghost predicate Claims(before: map<nat, nat>, after: map<nat, nat>, now: nat, minIdle: nat,
                         cursor: nat, next: nat, claimed: seq<nat>)
  {
    && after.Keys == before.Keys
    && Ascending(claimed)
    && (forall id :: id in claimed ==> id in after && after[id] == now && Examined(cursor, next, id))
    && (forall id :: id in after && id !in claimed ==> after[id] == before[id])
    && (forall id :: id in before && Examined(cursor, next, id) ==>
        (id in claimed <==> IdleFor(before, now, minIdle, id)))
  }

  /** Entry `id` is examined next, and `next` is the following one. */
  ghost predicate Follows(after: map<nat, nat>, cursor: nat, id: nat, next: nat) {
    && id in after && 0 < id && cursor <= id && (next == 0 || id < next)
    && forall k :: k in after && id < k ==> next != 0 && next <= k
  }

  /** Of the entries in the list, only `id` is examined in addition. */
  lemma ExaminesOne(after: map<nat, nat>, cursor: nat, id: nat, next: nat, k: nat)
    requires Follows(after, cursor, id, next) && k in after
    ensures Examined(cursor, next, k) <==> Examined(cursor, id, k) || k == id
  {
  }

  lemma InSnoc(ids: seq<nat>, id: nat, k: nat)
    ensures k in ids + [id] <==> k in ids || k == id
  {
  }

  lemma ExamineIdle(before: map<nat, nat>, after: map<nat, nat>, now: nat, minIdle: nat,
                    cursor: nat, id: nat, next: nat, claimed: seq<nat>)
    requires Claims(before, after, now, minIdle, cursor, id, claimed) && Follows(after, cursor, id, next)
    requires IdleFor(after, now, minIdle, id)
    ensures Claims(before, after[id := now], now, minIdle, cursor, next, claimed + [id])
  {
    var more, pel := claimed + [id], after[id := now];
    assert id !in claimed;
    AscendingSnoc(claimed, id);
    forall k | k in more ensures k in pel && pel[k] == now && Examined(cursor, next, k) {
      InSnoc(claimed, id, k);
      ExaminesOne(after, cursor, id, next, k);
    }
    forall k | k in pel && k !in more ensures pel[k] == before[k] {
      InSnoc(claimed, id, k);
    }
    forall k | k in before && Examined(cursor, next, k) ensures k in more <==> IdleFor(before, now, minIdle, k) {
      InSnoc(claimed, id, k);
      ExaminesOne(after, cursor, id, next, k);
    }
  }

  lemma ExamineBusy(before: map<nat, nat>, after: map<nat, nat>, now: nat, minIdle: nat,
                    cursor: nat, id: nat, next: nat, claimed: seq<nat>)
    requires Claims(before, after, now, minIdle, cursor, id, claimed) && Follows(after, cursor, id, next)
    requires !IdleFor(after, now, minIdle, id)
    ensures Claims(before, after, now, minIdle, cursor, next, claimed)
  {
    forall k | k in after ensures Examined(cursor, next, k) <==> Examined(cursor, id, k) || k == id {
      ExaminesOne(after, cursor, id, next, k);
    }
  }

  /** Examining one more entry. */
  lemma ExamineOne(before: map<nat, nat>, after: map<nat, nat>, now: nat, minIdle: nat,
                   cursor: nat, id: nat, next: nat, claimed: seq<nat>)
    requires Claims(before, after, now, minIdle, cursor, id, claimed) && Follows(after, cursor, id, next)
    ensures IdleFor(after, now, minIdle, id) ==>
      Claims(before, after[id := now], now, minIdle, cursor, next, claimed + [id])
    ensures !IdleFor(after, now, minIdle, id) ==> Claims(before, after, now, minIdle, cursor, next, claimed)
  {
    if IdleFor(after, now, minIdle, id) {
      ExamineIdle(before, after, now, minIdle, cursor, id, next, claimed);
    } else {
      ExamineBusy(before, after, now, minIdle, cursor, id, next, claimed);
    }
  }

  /** The pending entries a pass that has reached the cursor still has ahead. */
  ghost function Ahead(pending: set<nat>, cursor: nat): set<nat> {
    set id | id in pending && cursor <= id
  }

  lemma AheadShrinks(all: set<nat>, pending: set<nat>, cursor: nat, next: nat)
    requires pending <= all && exists id :: id in pending && cursor <= id < next
    ensures Ahead(all, next) < Ahead(all, cursor)
  {
    var id :| id in pending && cursor <= id < next;
    assert id in Ahead(all, cursor) && id !in Ahead(all, next);
  }

  /** Exactly the entries of the batch whose ack succeeds are gone. */
  ghost predicate Acknowledges(before: map<nat, nat>, after: map<nat, nat>, batch: seq<nat>, acks: nat -> bool) {
    && (forall id :: id in after <==> id in before && !(id in batch && acks(id)))
    && (forall id :: id in after ==> after[id] == before[id])
  }

  // ----- the times of the claims -----

  /** What the handlers of the first n claims took. */
  function Spent(claims: seq<nat>, elapsed: nat -> nat, n: nat): nat
    requires n <= |claims|
  {
    if n == 0 then 0 else Spent(claims, elapsed, n - 1) + elapsed(claims[n - 1])
  }

  lemma {:induction false} SpentMonotone(claims: seq<nat>, elapsed: nat -> nat, m: nat, n: nat)
    requires m <= n <= |claims|
    ensures Spent(claims, elapsed, m) <= Spent(claims, elapsed, n)
  {
    if m < n {
      SpentMonotone(claims, elapsed, m, n - 1);
    }
  }

  lemma {:induction false} SpentPrefix(claims: seq<nat>, batch: seq<nat>, elapsed: nat -> nat, n: nat)
    requires n <= |claims|
    ensures Spent(claims + batch, elapsed, n) == Spent(claims, elapsed, n)
  {
    if n != 0 {
      SpentPrefix(claims, batch, elapsed, n - 1);
    }
  }

  lemma {:induction false} SpentConcat(claims: seq<nat>, batch: seq<nat>, elapsed: nat -> nat, n: nat)
    requires n <= |batch|
    ensures Spent(claims + batch, elapsed, |claims| + n) == Spent(claims, elapsed, |claims|) + Spent(batch, elapsed, n)
  {
    if n == 0 {
      SpentPrefix(claims, batch, elapsed, |claims|);
    } else {
      SpentConcat(claims, batch, elapsed, n - 1);
      assert (claims + batch)[|claims| + n - 1] == batch[n - 1];
    }
  }

  lemma {:induction false} SpentNothing(claims: seq<nat>, elapsed: nat -> nat, n: nat)
    requires n <= |claims| && forall id :: elapsed(id) == 0
    ensures Spent(claims, elapsed, n) == 0
  {
    if n != 0 {
      SpentNothing(claims, elapsed, n - 1);
    }
  }

  /**
   The i-th entry was claimed at a time when it had been idle for MinIdle: not before the pass
   began, and not after the entries claimed before it had been executed.
   */
  ghost predicate ClaimedAt(all: map<nat, nat>, began: nat, minIdle: nat, elapsed: nat -> nat,
                            claims: seq<nat>, at: seq<nat>, i: nat)
    requires i < |claims| && i < |at|
  {
    && claims[i] in all && IdleFor(all, at[i], minIdle, claims[i])
    && began <= at[i] <= began + Spent(claims, elapsed, i)
  }

  ghost predicate Times(all: map<nat, nat>, began: nat, minIdle: nat, elapsed: nat -> nat,
                        claims: seq<nat>, at: seq<nat>)
  {
    && |at| == |claims|
    && (forall i :: 0 <= i < |claims| ==> ClaimedAt(all, began, minIdle, elapsed, claims, at, i))
    && (forall i, j :: 0 <= i < j < |at| ==> at[i] <= at[j])
  }

  /** A claimed entry that is still pending has been so since its claim. */
  ghost predicate PendingSinceClaim(pel: map<nat, nat>, claims: seq<nat>, at: seq<nat>)
    requires |at| == |claims|
  {
    forall i :: 0 <= i < |claims| && claims[i] in pel ==> pel[claims[i]] == at[i]
  }

  /** The times of a further batch, all claimed at once after the earlier entries were executed. */
  ghost function MoreTimes(at: seq<nat>, t: nat, n: nat): (more: seq<nat>)
    ensures |more| == |at| + n && (forall i :: 0 <= i < |at| ==> more[i] == at[i])
    ensures forall i :: |at| <= i < |more| ==> more[i] == t
  {
    at + seq(n, _ => t)
  }

  lemma TimesOn(all: map<nat, nat>, began: nat, minIdle: nat, elapsed: nat -> nat, claims: seq<nat>, at: seq<nat>,
                batch: seq<nat>, t: nat)
    requires Times(all, began, minIdle, elapsed, claims, at) && t == began + Spent(claims, elapsed, |claims|)
    requires forall id :: id in batch ==> id in all && IdleFor(all, t, minIdle, id)
    ensures Times(all, began, minIdle, elapsed, claims + batch, MoreTimes(at, t, |batch|))
  {
    var more, times := claims + batch, MoreTimes(at, t, |batch|);
    forall i | 0 <= i < |more| ensures ClaimedAt(all, began, minIdle, elapsed, more, times, i) {
      if i < |claims| {
        assert ClaimedAt(all, began, minIdle, elapsed, claims, at, i);
        SpentPrefix(claims, batch, elapsed, i);
      } else {
        assert more[i] == batch[i - |claims|] && batch[i - |claims|] in batch;
        SpentConcat(claims, batch, elapsed, i - |claims|);
      }
    }
    forall i | 0 <= i < |claims| ensures at[i] <= t {
      assert ClaimedAt(all, began, minIdle, elapsed, claims, at, i);
      SpentMonotone(claims, elapsed, i, |claims|);
    }
  }

  lemma SinceClaimOn(before: map<nat, nat>, after: map<nat, nat>, pel: map<nat, nat>, claims: seq<nat>, at: seq<nat>,
                     batch: seq<nat>, t: nat, acks: nat -> bool)
    requires |at| == |claims| && PendingSinceClaim(before, claims, at) && Acknowledges(after, pel, batch, acks)
    requires forall id :: id in claims ==> id !in batch
    requires forall id :: id in batch ==> id in after && after[id] == t
    requires forall id :: id in after && id !in batch ==> id in before && after[id] == before[id]
    ensures PendingSinceClaim(pel, claims + batch, MoreTimes(at, t, |batch|))
  {
    var more, times := claims + batch, MoreTimes(at, t, |batch|);
    forall i | 0 <= i < |more| && more[i] in pel ensures pel[more[i]] == times[i] {
      if i < |claims| {
        assert claims[i] in claims;
      } else {
        assert more[i] == batch[i - |claims|] && batch[i - |claims|] in batch;
      }
    }
  }

  /** When handlers take no time, a pass claims exactly the entries that were idle when it began. */
  lemma InstantClaims(all: map<nat, nat>, began: nat, minIdle: nat, elapsed: nat -> nat, claims: seq<nat>, at: seq<nat>,
                      id: nat)
    requires Times(all, began, minIdle, elapsed, claims, at) && (forall k :: elapsed(k) == 0) && id in claims
    ensures id in all && IdleFor(all, began, minIdle, id)
  {
    var i :| 0 <= i < |claims| && claims[i] == id;
    assert ClaimedAt(all, began, minIdle, elapsed, claims, at, i);
    SpentNothing(claims, elapsed, i);
  }

  class PendingList {
    var now: nat
    var pel: map<nat, nat>

    constructor ()
      ensures pel == map[]
    {
      now, pel := 0, map[];
    }

    /** The first pending entry at or after an id, 0 if there is none. */
    method NextPending(from: nat) returns (id: nat)
      requires 0 !in pel
      ensures id == 0 ==> forall k :: k in pel ==> k < from
      ensures id != 0 ==> id in pel && from <= id && forall k :: k in pel && from <= k ==> id <= k
    {
      id := 0;
      var left := pel.Keys;
      while left != {}
        invariant left <= pel.Keys
        invariant id == 0 ==> forall k :: k in pel && k !in left ==> k < from
        invariant id != 0 ==> id in pel && from <= id && forall k :: k in pel && k !in left && from <= k ==> id <= k
        decreases left
      {
        var k :| k in left;
        if from <= k && (id == 0 || k < id) {
          id := k;
        }
        left := left - {k};
      }
    }

    /** XAUTOCLAIM from a cursor. */
    method AutoClaim(cursor: nat, minIdle: nat) returns (claimed: seq<nat>, next: nat)
      requires 0 !in pel
      modifies this`pel
      ensures Claims(old(pel), pel, now, minIdle, cursor, next, claimed) && |claimed| <= CLAIM_COUNT
      ensures next != 0 ==> next in pel && exists id :: id in pel && cursor <= id < next
    {
      claimed := [];
      var attempts := CLAIM_COUNT * 10;
      next := NextPending(cursor);
      ghost var first := next;
      while next != 0 && 0 < attempts && |claimed| < CLAIM_COUNT
        invariant Claims(old(pel), pel, now, minIdle, cursor, next, claimed) && |claimed| <= CLAIM_COUNT
        invariant next != 0 ==> next in pel && cursor <= next && first in pel && cursor <= first
        invariant attempts == CLAIM_COUNT * 10 ==> claimed == [] && next == first
        invariant attempts < CLAIM_COUNT * 10 && next != 0 ==> first < next
        decreases attempts
      {
        var id := next;
        ghost var before := pel;
        ghost var taken := claimed;
        next := NextPending(id + 1);
        ExamineOne(old(pel), before, now, minIdle, cursor, id, next, taken);
        if pel[id] + minIdle <= now {
          pel := pel[id := now];
          claimed := claimed + [id];
        }
        attempts := attempts - 1;
      }
    }

    /** process: the handler runs for some time, then the entry is acknowledged, or the XACK fails. */
    method Process(id: nat, elapsed: nat, acked: bool)
      modifies this
      ensures now == old(now) + elapsed
      ensures pel == if acked then old(pel) - {id} else old(pel)
    {
      now := now + elapsed;
      if acked {
        pel := pel - {id};
      }
    }

    /** Processes a claimed batch one after another. */
    method ProcessAll(batch: seq<nat>, elapsed: nat -> nat, acks: nat -> bool)
      modifies this
      ensures now == old(now) + Spent(batch, elapsed, |batch|)
      ensures Acknowledges(old(pel), pel, batch, acks)
    {
      for i := 0 to |batch|
        invariant now == old(now) + Spent(batch, elapsed, i)
        invariant Acknowledges(old(pel), pel, batch[..i], acks)
      {
        Process(batch[i], elapsed(batch[i]), acks(batch[i]));
      }
      assert batch[..|batch|] == batch;
    }

    /**
     One pass. It ends, because the pending entries at or above the cursor only get fewer; it
     claims every entry that was idle long enough when it began, each entry at most once and in
     order, and none that is not idle long enough when it is claimed; what it did not claim it left
     as it was, and what it claimed is gone exactly if its XACK succeeded.
     */
    method ClaimPending(minIdle: nat, elapsed: nat -> nat, acks: nat -> bool)
      returns (claims: seq<nat>, ghost at: seq<nat>)
      requires 0 !in pel
      modifies this
      ensures Ascending(claims) && forall id :: id in claims ==> id in old(pel)
      ensures forall id :: id in old(pel) && IdleFor(old(pel), old(now), minIdle, id) ==> id in claims
      ensures Times(old(pel), old(now), minIdle, elapsed, claims, at)
      ensures (forall k :: elapsed(k) == 0) ==>
        forall id :: id in old(pel) ==> (id in claims <==> IdleFor(old(pel), old(now), minIdle, id))
      ensures forall id :: id in old(pel) && id !in claims ==> id in pel && pel[id] == old(pel)[id]
      ensures forall id :: id in pel <==> id in old(pel) && !(id in claims && acks(id))
      ensures PendingSinceClaim(pel, claims, at)
      ensures now == old(now) + Spent(claims, elapsed, |claims|)
    {
      claims, at := [], [];
      var cursor := 0;
      ghost var all := pel;
      ghost var began := now;
      while true
        invariant 0 !in pel && now == began + Spent(claims, elapsed, |claims|) && Ascending(claims)
        invariant Passed(all, pel, began, minIdle, cursor, claims, acks)
        invariant Times(all, began, minIdle, elapsed, claims, at) && PendingSinceClaim(pel, claims, at)
        decreases Ahead(all.Keys, cursor)
      {
        ghost var before := pel;
        ghost var claimedSoFar := claims;
        var batch, next := AutoClaim(cursor, minIdle);
        ghost var after := pel;
        ghost var t := now;
        ProcessAll(batch, elapsed, acks);
        claims := claims + batch;
        PassOn(all, before, after, pel, began, t, minIdle, cursor, next, claimedSoFar, batch, acks);
        at := TimesPass(all, before, after, pel, began, t, minIdle, cursor, next, elapsed, claimedSoFar, at, batch,
                        acks);
        if next == 0 {
          break;
        }
        AheadShrinks(all.Keys, before.Keys, cursor, next);
        cursor := next;
      }
      if forall k :: elapsed(k) == 0 {
        forall id | id in claims ensures IdleFor(all, began, minIdle, id) {
          InstantClaims(all, began, minIdle, elapsed, claims, at, id);
        }
      }
    }
  }

  /** What a claim call takes was not claimed before, has been pending since before the pass, and is idle by now. */
  lemma BatchIsIdle(all: map<nat, nat>, before: map<nat, nat>, after: map<nat, nat>, began: nat, t: nat, minIdle: nat,
                    cursor: nat, next: nat, claims: seq<nat>, batch: seq<nat>, acks: nat -> bool)
    requires Passed(all, before, began, minIdle, cursor, claims, acks)
    requires Claims(before, after, t, minIdle, cursor, next, batch)
    ensures forall id :: id in batch ==> id in all && IdleFor(all, t, minIdle, id)
    ensures forall id :: id in claims ==> id !in batch
    ensures forall id :: id in batch ==> id in after && after[id] == t
    ensures forall id :: id in after && id !in batch ==> id in before && after[id] == before[id]
  {
    forall id | id in batch ensures id in all && IdleFor(all, t, minIdle, id) && id !in claims {
      assert Examined(cursor, next, id);
    }
  }

  /** The times after a further batch. */
  lemma TimesPass(all: map<nat, nat>, before: map<nat, nat>, after: map<nat, nat>, pel: map<nat, nat>, began: nat,
                  t: nat, minIdle: nat, cursor: nat, next: nat, elapsed: nat -> nat, claims: seq<nat>, at: seq<nat>,
                  batch: seq<nat>, acks: nat -> bool) returns (times: seq<nat>)
    requires Passed(all, before, began, minIdle, cursor, claims, acks)
    requires Claims(before, after, t, minIdle, cursor, next, batch) && Acknowledges(after, pel, batch, acks)
    requires Times(all, began, minIdle, elapsed, claims, at) && PendingSinceClaim(before, claims, at)
    requires t == began + Spent(claims, elapsed, |claims|)
    ensures Times(all, began, minIdle, elapsed, claims + batch, times)
    ensures PendingSinceClaim(pel, claims + batch, times)
    ensures t + Spent(batch, elapsed, |batch|) == began + Spent(claims + batch, elapsed, |claims + batch|)
  {
    times := MoreTimes(at, t, |batch|);
    BatchIsIdle(all, before, after, began, t, minIdle, cursor, next, claims, batch, acks);
    TimesOn(all, began, minIdle, elapsed, claims, at, batch, t);
    SinceClaimOn(before, after, pel, claims, at, batch, t, acks);
    SpentConcat(claims, batch, elapsed, |batch|);
  }

  /** What a pass that has reached the cursor has done to the list it began with. */
  ghost predicate Passed(all: map<nat, nat>, pel: map<nat, nat>, began: nat, minIdle: nat,
                         cursor: nat, claims: seq<nat>, acks: nat -> bool)
  {
    && (forall id :: id in claims ==> id in all && id < cursor)
    && (forall id :: id in pel <==> id in all && !(id in claims && acks(id)))
    && (forall id :: id in all && id !in claims ==> pel[id] == all[id])
    && (forall id :: id in all && id < cursor && IdleFor(all, began, minIdle, id) ==> id in claims)
  }

  lemma PassOn(all: map<nat, nat>, before: map<nat, nat>, after: map<nat, nat>, pel: map<nat, nat>, began: nat, at: nat,
               minIdle: nat, cursor: nat, next: nat, claims: seq<nat>, batch: seq<nat>, acks: nat -> bool)
    requires Passed(all, before, began, minIdle, cursor, claims, acks) && Ascending(claims) && began <= at
    requires Claims(before, after, at, minIdle, cursor, next, batch)
    requires Acknowledges(after, pel, batch, acks) && (next != 0 ==> cursor < next)
    ensures Ascending(claims + batch)
    ensures next != 0 ==> Passed(all, pel, began, minIdle, next, claims + batch, acks)
    ensures next == 0 ==> forall id :: id in all && IdleFor(all, began, minIdle, id) ==> id in claims + batch
    ensures forall id :: id in claims + batch ==> id in all
    ensures forall id :: id in all && id !in claims + batch ==> id in pel && pel[id] == all[id]
    ensures forall id :: id in pel <==> id in all && !(id in claims + batch && acks(id))
  {
    AscendingConcat(claims, batch);
  }
}
