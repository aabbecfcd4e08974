/**
 The account history the agent scans. A liteserver hands out raw transactions, oldest first,
 each pointing back to its predecessor by logical time (LT); only those whose inbound message
 is internal survive parsing.
 */
module Chain {
  import opened Common

  /** The decoded inbound internal message. */
  datatype Message = Message(from: string, op: nat, comment: string, createdAt: int)

  /** `body` is None when the inbound message is not an internal one. */
  datatype RawTx = RawTx(lt: nat, prevLT: nat, body: Option<Message>)

  datatype Tx = Tx(lt: nat, op: nat, from: string, message: string, createdAt: int)

  function ParseTx(t: RawTx): Option<Tx> {
    match t.body
    case None => None
    case Some(m) => Some(Tx(t.lt, m.op, m.from, m.comment, m.createdAt))
  }

  function ParseAll(ts: seq<RawTx>): seq<Tx> {
    if ts == [] then [] else
    ParseAll(ts[..|ts| - 1]) + match ParseTx(ts[|ts| - 1]) case None => [] case Some(t) => [t]
  }

  ghost predicate LinkedAt(h: seq<RawTx>, i: nat)
    requires i < |h|
  {
    h[i].prevLT == Before(h, i)
  }

  /** LTs are positive and strictly increase; every transaction links to its predecessor. */
  ghost predicate History(h: seq<RawTx>) {
    && (forall i, j :: 0 <= i < j < |h| ==> h[i].lt < h[j].lt)
    && (forall i :: 0 <= i < |h| ==> 0 < h[i].lt)
    && (forall i :: 0 <= i < |h| ==> LinkedAt(h, i))
  }

  /** The LT of the transaction just below position i, 0 at the start of history. */
  function Before(h: seq<RawTx>, i: nat): nat
    requires i <= |h|
  {
    if i == 0 then 0 else h[i - 1].lt
  }

  /** The LT of the newest transaction: what the account state reports. */
  function Tip(h: seq<RawTx>): nat {
    Before(h, |h|)
  }

  /** The number of transactions at or below an LT. */
  function AtOrBelow(h: seq<RawTx>, lt: nat): nat {
    NotAbove(h, lt, |h|)
  }

  /** Walks down from position n while the transaction there is above the LT. */
  function NotAbove(h: seq<RawTx>, lt: nat, n: nat): (c: nat)
    requires n <= |h|
    ensures c <= n
  {
    if n == 0 || h[n - 1].lt <= lt then n else NotAbove(h, lt, n - 1)
  }

  lemma {:induction false} NotAboveSplits(h: seq<RawTx>, lt: nat, n: nat)
    requires History(h) && n <= |h|
    requires forall i :: n <= i < |h| ==> lt < h[i].lt
    ensures var c := NotAbove(h, lt, n);
            && (forall i :: 0 <= i < c ==> h[i].lt <= lt)
            && (forall i :: c <= i < |h| ==> lt < h[i].lt)
  {
    if n != 0 && lt < h[n - 1].lt {
      NotAboveSplits(h, lt, n - 1);
    }
  }

  lemma HistoryPrefix(h: seq<RawTx>, n: nat)
    requires History(h) && n <= |h|
    ensures History(h[..n])
  {
    forall i | 0 <= i < n ensures LinkedAt(h[..n], i) {
      assert LinkedAt(h, i);
    }
  }

  lemma TipGrows(h: seq<RawTx>, t: RawTx)
    requires History(h + [t])
    ensures History(h) && Tip(h) < Tip(h + [t]) == t.lt
  {
    HistoryPrefix(h + [t], |h|);
    assert (h + [t])[..|h|] == h;
    assert h != [] ==> (h + [t])[|h| - 1] == h[|h| - 1];
  }

  lemma {:induction false} ParseAllConcat(a: seq<RawTx>, b: seq<RawTx>)
    ensures ParseAll(a + b) == ParseAll(a) + ParseAll(b)
  {
    if b == [] {
      assert a + b == a;
    } else {
      assert (a + b)[..|a + b| - 1] == a + b[..|b| - 1];
      ParseAllConcat(a, b[..|b| - 1]);
    }
  }

  /** Parsing keeps exactly the parseable transactions. */
  lemma {:induction false} ParseAllMembers(ts: seq<RawTx>)
    ensures forall i :: 0 <= i < |ts| && ParseTx(ts[i]).Some? ==> ParseTx(ts[i]).value in ParseAll(ts)
    ensures forall t :: t in ParseAll(ts) ==> exists i :: 0 <= i < |ts| && ParseTx(ts[i]) == Some(t)
  {
    if ts != [] {
      var n := |ts| - 1;
      var rest := ts[..n];
      ParseAllMembers(rest);
      forall i | 0 <= i < |ts| && ParseTx(ts[i]).Some? ensures ParseTx(ts[i]).value in ParseAll(ts) {
        if i < n {
          assert rest[i] == ts[i];
        }
      }
      forall t | t in ParseAll(ts) ensures exists i :: 0 <= i < |ts| && ParseTx(ts[i]) == Some(t) {
        if t in ParseAll(rest) {
          var i :| 0 <= i < |rest| && ParseTx(rest[i]) == Some(t);
          assert ParseTx(ts[i]) == Some(t);
        } else {
          assert ParseTx(ts[n]) == Some(t);
        }
      }
    }
  }

  /** Parsing does not depend on the order in which pages arrived. */
  lemma {:induction false} ParseAllPermutes(a: seq<RawTx>, b: seq<RawTx>)
    requires multiset(a) == multiset(b)
    ensures multiset(ParseAll(a)) == multiset(ParseAll(b))
    decreases |a|
  {
    if a == [] {
      assert |b| == |multiset(b)| == 0;
    } else {
      var n := |a| - 1;
      assert a == a[..n] + [a[n]];
      assert a[n] in multiset(b);
      var k :| 0 <= k < |b| && b[k] == a[n];
      RemoveAt(b, k);
      var rest := b[..k] + b[k + 1..];
      assert multiset(a[..n]) + multiset{a[n]} == multiset(a);
      assert multiset(a[..n]) == multiset(a) - multiset{a[n]};
      ParseAllPermutes(a[..n], rest);
      ParseAllConcat(b[..k], b[k + 1..]);
      ParseAllConcat(b[..k] + [b[k]], b[k + 1..]);
      ParseAllConcat(b[..k], [b[k]]);
      ParseAllConcat(a[..n], [a[n]]);
    }
  }
}
