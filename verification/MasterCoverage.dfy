/** What one fetch-and-scan of the master wallet accounts for, in terms of the whole history. */
module MasterCoverage {
  import opened Common
  import opened Strings
  import opened Chain
  import opened Paging
  import opened MasterScan

  function KeyOf(t: RawTx): Option<string> {
    match ParseTx(t) case None => None case Some(tx) => Registration(tx)
  }

  /** The keys registered in a history at or below an LT. */
  ghost function KeysUpTo(h: seq<RawTx>, lt: nat): set<string> {
    set j | 0 <= j < |h| && h[j].lt <= lt && KeyOf(h[j]).Some? :: KeyOf(h[j]).value
  }

  /** The keys registered above fromLT that a fetch of n transactions did not reach. */
  ghost function Gap(h: seq<RawTx>, fromLT: nat, n: nat): set<string>
    requires n <= |h|
  {
    set j | 0 <= j < |h| - n && fromLT < h[j].lt && KeyOf(h[j]).Some? :: KeyOf(h[j]).value
  }

  /** A fetch of the history followed by a scan of what it parsed. */
  ghost predicate FetchAndScan(h: seq<RawTx>, fromLT: nat, collected: seq<RawTx>, stop: Stop,
                               providers: seq<Provider>, lastLT: nat)
  {
    && Segment(h, fromLT, collected, stop)
    && ScanOutcome(ParseAll(collected), fromLT, providers, lastLT)
  }

  lemma KeysUpToAppend(h: seq<RawTx>, t: RawTx, lt: nat)
    requires History(h + [t]) && lt <= Tip(h)
    ensures KeysUpTo(h + [t], lt) == KeysUpTo(h, lt)
  {
    var g := h + [t];
    assert forall j :: 0 <= j < |h| ==> g[j] == h[j];
    assert g[|h|] == t && lt < t.lt;
    forall k | k in KeysUpTo(h, lt) ensures k in KeysUpTo(g, lt) {
      var j :| 0 <= j < |h| && h[j].lt <= lt && KeyOf(h[j]).Some? && KeyOf(h[j]).value == k;
      assert g[j] == h[j];
    }
  }

  lemma KeysUpToMonotone(h: seq<RawTx>, a: nat, b: nat)
    requires a <= b
    ensures KeysUpTo(h, a) <= KeysUpTo(h, b)
  {
  }

  lemma CompleteFetchHasNoGap(h: seq<RawTx>, fromLT: nat, collected: seq<RawTx>, stop: Stop)
    requires History(h) && Segment(h, fromLT, collected, stop) && Complete(h, collected, stop)
    ensures Gap(h, fromLT, |collected|) == {}
  {
    var n := |h| - |collected|;
    assert forall j :: 0 <= j < n ==> h[j].lt <= h[n].lt;
  }

  /** A registration above fromLT in the fetched segment is among the scanned providers. */
  lemma SegmentKeyIsScanned(h: seq<RawTx>, fromLT: nat, collected: seq<RawTx>, stop: Stop,
                            providers: seq<Provider>, lastLT: nat, j: nat)
    requires FetchAndScan(h, fromLT, collected, stop, providers, lastLT)
    requires |h| - |collected| <= j < |h| && fromLT < h[j].lt && KeyOf(h[j]).Some?
    ensures KeyOf(h[j]).value in Keys(providers)
  {
    InSegment(h, collected, |h| - |collected|, h[j]);
    ParseAllMembers(collected);
    var i :| 0 <= i < |collected| && collected[i] == h[j];
    var t := ParseTx(h[j]).value;
    assert t in ParseAll(collected) && Registers(t, fromLT, KeyOf(h[j]).value);
  }

  lemma ParsedFromHistory(h: seq<RawTx>, collected: seq<RawTx>, n: nat, t: Tx)
    requires n <= |h| && multiset(collected) == multiset(h[n..]) && t in ParseAll(collected)
    ensures exists j :: n <= j < |h| && ParseTx(h[j]) == Some(t)
  {
    ParseAllMembers(collected);
    var i :| 0 <= i < |collected| && ParseTx(collected[i]) == Some(t);
    InSegment(h, collected, n, collected[i]);
  }

  /** What a fetch from fromLT that reached lastLT leaves behind: its gap, if the LT moved. */
  ghost function Left(h: seq<RawTx>, fromLT: nat, n: nat, lastLT: nat): set<string>
    requires n <= |h|
  {
    if fromLT < lastLT then Gap(h, fromLT, n) else {}
  }

  /** A scanned key is registered above the old LT and not above the new one. */
  lemma ScannedKeyIsPassed(h: seq<RawTx>, fromLT: nat, collected: seq<RawTx>, stop: Stop,
                           providers: seq<Provider>, lastLT: nat, k: string) returns (j: nat)
    requires FetchAndScan(h, fromLT, collected, stop, providers, lastLT) && k in Keys(providers)
    ensures j < |h| && fromLT < h[j].lt <= lastLT && KeyOf(h[j]) == Some(k)
  {
    var txs := ParseAll(collected);
    ScanFindsExactly(txs, fromLT, providers, lastLT, k);
    var t :| t in txs && Registers(t, fromLT, k);
    ParsedFromHistory(h, collected, |h| - |collected|, t);
    j :| |h| - |collected| <= j < |h| && ParseTx(h[j]) == Some(t);
  }

  /** When the LT moved, everything below the segment is below the new LT. */
  lemma GapIsPassed(h: seq<RawTx>, fromLT: nat, collected: seq<RawTx>, stop: Stop,
                    providers: seq<Provider>, lastLT: nat, j: nat)
    requires History(h) && FetchAndScan(h, fromLT, collected, stop, providers, lastLT) && fromLT < lastLT
    requires j < |h| - |collected|
    ensures h[j].lt <= lastLT
  {
    var t :| t in ParseAll(collected) && t.lt == lastLT;
    ParsedFromHistory(h, collected, |h| - |collected|, t);
  }

  lemma ScanReaches(h: seq<RawTx>, fromLT: nat, collected: seq<RawTx>, stop: Stop,
                    providers: seq<Provider>, lastLT: nat)
    requires FetchAndScan(h, fromLT, collected, stop, providers, lastLT)
    ensures KeysUpTo(h, lastLT) <= KeysUpTo(h, fromLT) + Keys(providers) + Left(h, fromLT, |collected|, lastLT)
  {
    forall k | k in KeysUpTo(h, lastLT)
      ensures k in KeysUpTo(h, fromLT) + Keys(providers) + Left(h, fromLT, |collected|, lastLT)
    {
      var j :| 0 <= j < |h| && h[j].lt <= lastLT && KeyOf(h[j]).Some? && KeyOf(h[j]).value == k;
      if fromLT < h[j].lt && |h| - |collected| <= j {
        SegmentKeyIsScanned(h, fromLT, collected, stop, providers, lastLT, j);
      }
    }
  }

  /** The keys up to the new LT are those up to the old one, the scanned ones and, if the LT moved, the gap. */
  lemma ScanAccounts(h: seq<RawTx>, fromLT: nat, collected: seq<RawTx>, stop: Stop,
                     providers: seq<Provider>, lastLT: nat)
    requires History(h) && FetchAndScan(h, fromLT, collected, stop, providers, lastLT)
    ensures KeysUpTo(h, lastLT) == KeysUpTo(h, fromLT) + Keys(providers) + Left(h, fromLT, |collected|, lastLT)
  {
    ScanReaches(h, fromLT, collected, stop, providers, lastLT);
    KeysUpToMonotone(h, fromLT, lastLT);
    forall k | k in Keys(providers) ensures k in KeysUpTo(h, lastLT) {
      var j := ScannedKeyIsPassed(h, fromLT, collected, stop, providers, lastLT, k);
      assert KeyOf(h[j]).value == k;
    }
    forall k | k in Left(h, fromLT, |collected|, lastLT) ensures k in KeysUpTo(h, lastLT) {
      var j :| 0 <= j < |h| - |collected| && fromLT < h[j].lt && KeyOf(h[j]).Some? && KeyOf(h[j]).value == k;
      GapIsPassed(h, fromLT, collected, stop, providers, lastLT, j);
    }
  }

  /** Storing the new LT is safe exactly when it did not move or every key in the gap is reported anyway. */
  lemma ScanLosesExactly(h: seq<RawTx>, fromLT: nat, collected: seq<RawTx>, stop: Stop,
                         providers: seq<Provider>, lastLT: nat, reported: set<string>)
    requires History(h) && FetchAndScan(h, fromLT, collected, stop, providers, lastLT)
    requires KeysUpTo(h, fromLT) <= reported && Keys(providers) <= reported
    ensures KeysUpTo(h, lastLT) <= reported <==> lastLT == fromLT || Gap(h, fromLT, |collected|) <= reported
  {
    ScanAccounts(h, fromLT, collected, stop, providers, lastLT);
  }

  // ----- the next time -----

  ghost function KeysAbove(h: seq<RawTx>, lt: nat): set<string> {
    set j | 0 <= j < |h| && lt < h[j].lt && KeyOf(h[j]).Some? :: KeyOf(h[j]).value
  }

  /** A complete fetch and scan finds exactly the keys registered above its LT. */
  lemma CompleteScanFinds(h: seq<RawTx>, fromLT: nat, collected: seq<RawTx>, stop: Stop,
                          providers: seq<Provider>, lastLT: nat)
    requires History(h) && FetchAndScan(h, fromLT, collected, stop, providers, lastLT) && Complete(h, collected, stop)
    ensures Keys(providers) == KeysAbove(h, fromLT)
  {
    CompleteFetchHasNoGap(h, fromLT, collected, stop);
    var gap := Gap(h, fromLT, |collected|);
    forall k | k in KeysAbove(h, fromLT) ensures k in Keys(providers) {
      var j :| 0 <= j < |h| && fromLT < h[j].lt && KeyOf(h[j]).Some? && KeyOf(h[j]).value == k;
      assert j < |h| - |collected| ==> k in gap;
      SegmentKeyIsScanned(h, fromLT, collected, stop, providers, lastLT, j);
    }
    forall k | k in Keys(providers) ensures k in KeysAbove(h, fromLT) {
      var j := ScannedKeyIsPassed(h, fromLT, collected, stop, providers, lastLT, k);
      assert KeyOf(h[j]).value == k;
    }
  }

  /** The LT is the largest of fromLT and the LTs of the transactions that parse. */
  ghost predicate IsNewestParsed(h: seq<RawTx>, fromLT: nat, lt: nat) {
    && fromLT <= lt
    && (forall j :: 0 <= j < |h| && ParseTx(h[j]).Some? && fromLT < h[j].lt ==> h[j].lt <= lt)
    && (lt != fromLT ==> exists j :: 0 <= j < |h| && ParseTx(h[j]).Some? && h[j].lt == lt)
  }

  /** A complete fetch and scan reaches the newest transaction that parses. */
  lemma CompleteScanReaches(h: seq<RawTx>, fromLT: nat, collected: seq<RawTx>, stop: Stop,
                            providers: seq<Provider>, lastLT: nat)
    requires History(h) && FetchAndScan(h, fromLT, collected, stop, providers, lastLT) && Complete(h, collected, stop)
    ensures IsNewestParsed(h, fromLT, lastLT)
  {
    var n := |h| - |collected|;
    var txs := ParseAll(collected);
    forall j | 0 <= j < |h| && ParseTx(h[j]).Some? && fromLT < h[j].lt ensures h[j].lt <= lastLT {
      assert n <= j;
      InSegment(h, collected, n, h[j]);
      var i :| 0 <= i < |collected| && collected[i] == h[j];
      ParseAllMembers(collected);
      assert ParseTx(h[j]).value in txs;
    }
    if fromLT < lastLT {
      var t :| t in txs && t.lt == lastLT;
      ParsedFromHistory(h, collected, n, t);
    }
  }

  /** The provider is as some registration of its key above the LT says, which comes from a user-friendly address. */
  ghost predicate RegisteredOnChain(h: seq<RawTx>, fromLT: nat, p: Provider) {
    exists j :: 0 <= j < |h| && fromLT < h[j].lt && KeyOf(h[j]) == Some(p.publicKey)
                && p.address == h[j].body.value.from && p.registeredAt == h[j].body.value.createdAt
                && IsUserFriendly(p.address)
  }

  lemma ScannedIsOnChain(h: seq<RawTx>, fromLT: nat, collected: seq<RawTx>, stop: Stop,
                         providers: seq<Provider>, lastLT: nat, p: Provider)
    requires FetchAndScan(h, fromLT, collected, stop, providers, lastLT) && p in providers
    ensures RegisteredOnChain(h, fromLT, p)
  {
    var txs := ParseAll(collected);
    assert RegisteredFrom(txs, fromLT, p);
    var i: nat :| FirstToRegister(txs, fromLT, p.publicKey, i)
                  && p.address == txs[i].from && p.registeredAt == txs[i].createdAt;
    ParsedFromHistory(h, collected, |h| - |collected|, txs[i]);
    var j :| |h| - |collected| <= j < |h| && ParseTx(h[j]) == Some(txs[i]);
    RegistersFromFriendly(txs[i], fromLT, p.publicKey);
  }

  /**
   "We collect more next time": the rest that a cut fetch from fromLT left is collected by the
   next complete cycle, which starts at the checkpoint the first one left, exactly when every key
   of the rest has a registration above that checkpoint. That is so in particular when the
   checkpoint has not moved past fromLT.
   */
  lemma CollectedNextTime(h: seq<RawTx>, fromLT: nat, n: nat, later: seq<RawTx>, checkpoint: nat,
                          collected: seq<RawTx>, stop: Stop, providers: seq<Provider>, lastLT: nat)
    requires n <= |h| && h <= later && History(later)
    requires FetchAndScan(later, checkpoint, collected, stop, providers, lastLT) && Complete(later, collected, stop)
    ensures Gap(h, fromLT, n) <= Keys(providers) <==> Gap(h, fromLT, n) <= KeysAbove(later, checkpoint)
    ensures checkpoint <= fromLT ==> Gap(h, fromLT, n) <= Keys(providers)
  {
    CompleteScanFinds(later, checkpoint, collected, stop, providers, lastLT);
    if checkpoint <= fromLT {
      forall k | k in Gap(h, fromLT, n) ensures k in KeysAbove(later, checkpoint) {
        var j :| 0 <= j < |h| - n && fromLT < h[j].lt && KeyOf(h[j]).Some? && KeyOf(h[j]).value == k;
        assert later[j] == h[j];
      }
    }
  }

  lemma KeysAboveGrow(h: seq<RawTx>, t: RawTx, lt: nat)
    ensures KeysAbove(h, lt) <= KeysAbove(h + [t], lt)
  {
    forall k | k in KeysAbove(h, lt) ensures k in KeysAbove(h + [t], lt) {
      var j :| 0 <= j < |h| && lt < h[j].lt && KeyOf(h[j]).Some? && KeyOf(h[j]).value == k;
      assert (h + [t])[j] == h[j];
    }
  }

  /** Every registration is at or below an LT or above it. */
  lemma KeysSplit(h: seq<RawTx>, lt: nat)
    requires History(h)
    ensures KeysUpTo(h, Tip(h)) == KeysUpTo(h, lt) * KeysUpTo(h, Tip(h)) + KeysAbove(h, lt)
  {
    assert forall j :: 0 <= j < |h| ==> h[j].lt <= Tip(h);
  }

  /** A scan only reports keys that are registered on chain, and an LT the chain has reached. */
  lemma ScanIsSound(h: seq<RawTx>, fromLT: nat, collected: seq<RawTx>, stop: Stop,
                    providers: seq<Provider>, lastLT: nat)
    requires History(h) && fromLT <= Tip(h)
    requires FetchAndScan(h, fromLT, collected, stop, providers, lastLT)
    ensures fromLT <= lastLT <= Tip(h)
    ensures Keys(providers) <= KeysUpTo(h, Tip(h))
  {
    var n := |h| - |collected|;
    var txs := ParseAll(collected);
    if fromLT < lastLT {
      var t :| t in txs && t.lt == lastLT;
      ParsedFromHistory(h, collected, n, t);
    }
    forall k | k in Keys(providers) ensures k in KeysUpTo(h, Tip(h)) {
      ScanFindsExactly(txs, fromLT, providers, lastLT, k);
      var t :| t in txs && Registers(t, fromLT, k);
      ParsedFromHistory(h, collected, n, t);
      var j :| n <= j < |h| && ParseTx(h[j]) == Some(t);
      assert KeyOf(h[j]) == Some(k) && h[j].lt <= Tip(h);
    }
  }
}
