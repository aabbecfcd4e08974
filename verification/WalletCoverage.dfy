/** What one fetch-and-scan of a provider wallet accounts for, in terms of the wallet's history. */
module WalletCoverage {
  import opened Common
  import opened Chain
  import opened Paging
  import opened WalletScan

  /** Why a payment was passed without its contract being listed. */
  datatype Why = Omitted | LeftInGap

  /** A scan of the wallet from fromLT to upto passed payments of this contract. */
  datatype Missed = Missed(wallet: string, contract: string, fromLT: nat, upto: nat, why: Why)

  /** The storage contract whose reward withdrawal a transaction is, if any. */
  function PaidBy(t: RawTx): Option<string> {
    match ParseTx(t) case None => None case Some(tx) => if IsWithdrawal(tx) then Some(tx.from) else None
  }

  /** A payment is an internal message with the withdrawal operation, of the contract that sent it. */
  lemma PaidByIff(t: RawTx, contract: string)
    ensures PaidBy(t) == Some(contract) <==>
              t.body.Some? && t.body.value.op == 0xa91baf56 && t.body.value.from == contract && 0 < t.lt
  {
  }

  /** The payments at or below an LT: contract and LT. */
  ghost function Payments(h: seq<RawTx>, lt: nat): set<(string, nat)> {
    set j | 0 <= j < |h| && h[j].lt <= lt && PaidBy(h[j]).Some? :: (PaidBy(h[j]).value, h[j].lt)
  }

  /** Pairs of wallet and contract that a list of contracts reports. */
  ghost function ListedIn(cs: seq<StorageContract>): set<(string, string)> {
    set c, p | c in cs && p in c.providers :: (p, c.address)
  }

  ghost predicate Excused(missed: set<Missed>, wallet: string, contract: string, lt: nat) {
    exists m :: m in missed && m.wallet == wallet && m.contract == contract && m.fromLT < lt <= m.upto
  }

  /** Every payment at or below the LT is listed or excused by a scan that passed it. */
  ghost predicate Covers(h: seq<RawTx>, wallet: string, lt: nat, listed: set<(string, string)>, missed: set<Missed>) {
    && lt <= Tip(h)
    && forall x :: x in Payments(h, lt) ==> (wallet, x.0) in listed || Excused(missed, wallet, x.0, x.1)
  }

  /** The contracts a scan met whose data the lookup did not return. */
  ghost function OmittedBy(h: seq<RawTx>, wallet: string, fromLT: nat, n: nat, lookup: Lookup, lastLT: nat): set<Missed>
    requires n <= |h|
  {
    set j | |h| - n <= j < |h| && PaidBy(h[j]).Some? && lookup(PaidBy(h[j]).value).None? ::
      Missed(wallet, PaidBy(h[j]).value, fromLT, lastLT, Omitted)
  }

  /** The contracts whose payments lie above fromLT but below what a cut fetch reached. */
  ghost function GapBy(h: seq<RawTx>, wallet: string, fromLT: nat, n: nat, lastLT: nat): set<Missed>
    requires n <= |h|
  {
    set j | 0 <= j < |h| - n && fromLT < h[j].lt && PaidBy(h[j]).Some? ::
      Missed(wallet, PaidBy(h[j]).value, fromLT, lastLT, LeftInGap)
  }

  ghost predicate FetchAndScan(h: seq<RawTx>, fromLT: nat, wallet: string, collected: seq<RawTx>, stop: Stop,
                               lookup: Lookup, contracts: seq<StorageContract>, lastLT: nat)
  {
    && Segment(h, fromLT, collected, stop)
    && WalletOutcome(ParseAll(collected), fromLT, wallet, contracts, lastLT)
    && Enriched(ParseAll(collected), lookup, contracts)
  }

  /** The lookup has data for every contract that paid in the newest n transactions. */
  ghost predicate AnswersAll(h: seq<RawTx>, n: nat, lookup: Lookup)
    requires n <= |h|
  {
    forall j :: |h| - n <= j < |h| && PaidBy(h[j]).Some? ==> lookup(PaidBy(h[j]).value).Some?
  }

  ghost function MissedBy(h: seq<RawTx>, wallet: string, fromLT: nat, n: nat, lookup: Lookup, lastLT: nat): set<Missed>
    requires n <= |h|
  {
    OmittedBy(h, wallet, fromLT, n, lookup, lastLT) + GapBy(h, wallet, fromLT, n, lastLT)
  }

  lemma PaymentsAppend(h: seq<RawTx>, t: RawTx, lt: nat)
    requires History(h + [t]) && lt <= Tip(h)
    ensures Payments(h + [t], lt) == Payments(h, lt)
  {
    var g := h + [t];
    assert forall j :: 0 <= j < |h| ==> g[j] == h[j];
    assert g[|h|] == t && lt < t.lt;
    forall x | x in Payments(h, lt) ensures x in Payments(g, lt) {
      var j :| 0 <= j < |h| && h[j].lt <= lt && PaidBy(h[j]).Some? && (PaidBy(h[j]).value, h[j].lt) == x;
      assert g[j] == h[j];
    }
  }

  lemma CoversAppend(h: seq<RawTx>, t: RawTx, wallet: string, lt: nat, listed: set<(string, string)>,
                     missed: set<Missed>)
    requires History(h + [t]) && Covers(h, wallet, lt, listed, missed)
    ensures Covers(h + [t], wallet, lt, listed, missed)
  {
    TipGrows(h, t);
    PaymentsAppend(h, t, lt);
  }

  lemma CoversMore(h: seq<RawTx>, wallet: string, lt: nat, listed: set<(string, string)>, missed: set<Missed>,
                   listed': set<(string, string)>, missed': set<Missed>)
    requires Covers(h, wallet, lt, listed, missed) && listed <= listed' && missed <= missed'
    ensures Covers(h, wallet, lt, listed', missed')
  {
    forall x | x in Payments(h, lt) ensures (wallet, x.0) in listed' || Excused(missed', wallet, x.0, x.1) {
      if (wallet, x.0) !in listed {
        var m :| m in missed && m.wallet == wallet && m.contract == x.0 && m.fromLT < x.1 <= m.upto;
        assert m in missed';
      }
    }
  }

  lemma CoversNothing(h: seq<RawTx>, wallet: string, listed: set<(string, string)>, missed: set<Missed>)
    requires History(h)
    ensures Covers(h, wallet, 0, listed, missed)
  {
    assert forall j :: 0 <= j < |h| ==> 0 < h[j].lt;
  }

  lemma CompleteFetchHasNoGap(h: seq<RawTx>, wallet: string, fromLT: nat, collected: seq<RawTx>, stop: Stop,
                              lastLT: nat)
    requires History(h) && Segment(h, fromLT, collected, stop) && Complete(h, collected, stop)
    ensures GapBy(h, wallet, fromLT, |collected|, lastLT) == {}
  {
    var n := |h| - |collected|;
    assert forall j :: 0 <= j < n ==> h[j].lt <= h[n].lt;
  }

  /** A payment in the fetched segment is parsed as a withdrawal. */
  lemma SegmentPaymentIsParsed(h: seq<RawTx>, collected: seq<RawTx>, j: nat)
    requires |collected| <= |h| && multiset(collected) == multiset(h[|h| - |collected|..])
    requires |h| - |collected| <= j < |h| && PaidBy(h[j]).Some?
    ensures ParseTx(h[j]).Some? && IsWithdrawal(ParseTx(h[j]).value) && ParseTx(h[j]).value in ParseAll(collected)
  {
    InSegment(h, collected, |h| - |collected|, h[j]);
    var i :| 0 <= i < |collected| && collected[i] == h[j];
    ParseAllMembers(collected);
  }

  lemma PaymentAccounted(h: seq<RawTx>, fromLT: nat, wallet: string, collected: seq<RawTx>, stop: Stop,
                         lookup: Lookup, contracts: seq<StorageContract>, lastLT: nat, j: nat)
    requires FetchAndScan(h, fromLT, wallet, collected, stop, lookup, contracts, lastLT)
    requires j < |h| && fromLT < h[j].lt <= lastLT && PaidBy(h[j]).Some?
    ensures var c := PaidBy(h[j]).value;
            || (wallet, c) in ListedIn(contracts)
            || Excused(MissedBy(h, wallet, fromLT, |collected|, lookup, lastLT), wallet, c, h[j].lt)
  {
    var c := PaidBy(h[j]).value;
    if j < |h| - |collected| {
      assert Missed(wallet, c, fromLT, lastLT, LeftInGap) in GapBy(h, wallet, fromLT, |collected|, lastLT);
    } else if lookup(c).None? {
      assert Missed(wallet, c, fromLT, lastLT, Omitted) in OmittedBy(h, wallet, fromLT, |collected|, lookup, lastLT);
    } else {
      SegmentPaymentIsParsed(h, collected, j);
      assert c in Addresses(contracts);
      var k :| k in contracts && k.address == c;
      assert wallet in k.providers;
    }
  }

  /** A scan from a covered LT covers the LT it returns. */
  lemma ScanCovers(h: seq<RawTx>, fromLT: nat, wallet: string, collected: seq<RawTx>, stop: Stop, lookup: Lookup,
                   contracts: seq<StorageContract>, lastLT: nat, listed: set<(string, string)>, missed: set<Missed>)
    requires History(h) && Covers(h, wallet, fromLT, listed, missed)
    requires FetchAndScan(h, fromLT, wallet, collected, stop, lookup, contracts, lastLT)
    ensures Covers(h, wallet, lastLT, listed + ListedIn(contracts),
                   missed + MissedBy(h, wallet, fromLT, |collected|, lookup, lastLT))
  {
    var more := MissedBy(h, wallet, fromLT, |collected|, lookup, lastLT);
    CoversMore(h, wallet, fromLT, listed, missed, listed + ListedIn(contracts), missed + more);
    LastLTReached(h, fromLT, wallet, collected, stop, contracts, lastLT);
    forall x | x in Payments(h, lastLT)
      ensures (wallet, x.0) in listed + ListedIn(contracts) || Excused(missed + more, wallet, x.0, x.1)
    {
      var j :| 0 <= j < |h| && h[j].lt <= lastLT && PaidBy(h[j]).Some? && (PaidBy(h[j]).value, h[j].lt) == x;
      if h[j].lt <= fromLT {
        assert x in Payments(h, fromLT);
      } else {
        PaymentAccounted(h, fromLT, wallet, collected, stop, lookup, contracts, lastLT, j);
        if (wallet, x.0) !in ListedIn(contracts) {
          var m :| m in more && m.wallet == wallet && m.contract == x.0 && m.fromLT < x.1 <= m.upto;
          assert m in missed + more;
        }
      }
    }
  }

  lemma LastLTReached(h: seq<RawTx>, fromLT: nat, wallet: string, collected: seq<RawTx>, stop: Stop,
                      contracts: seq<StorageContract>, lastLT: nat)
    requires History(h) && fromLT <= Tip(h) && Segment(h, fromLT, collected, stop)
    requires WalletOutcome(ParseAll(collected), fromLT, wallet, contracts, lastLT)
    ensures lastLT <= Tip(h)
  {
    if fromLT < lastLT {
      var t :| t in ParseAll(collected) && IsWithdrawal(t) && t.lt == lastLT;
      ParseAllMembers(collected);
      var i :| 0 <= i < |collected| && ParseTx(collected[i]) == Some(t);
      InSegment(h, collected, |h| - |collected|, collected[i]);
    }
  }

  // ----- what a scan lists, and what it lists again -----

  lemma ListedIsPaid(h: seq<RawTx>, fromLT: nat, wallet: string, collected: seq<RawTx>, stop: Stop,
                     lookup: Lookup, contracts: seq<StorageContract>, lastLT: nat, a: string) returns (j: nat)
    requires FetchAndScan(h, fromLT, wallet, collected, stop, lookup, contracts, lastLT) && a in Addresses(contracts)
    ensures lookup(a).Some? && |h| - |collected| <= j < |h| && PaidBy(h[j]) == Some(a)
  {
    var c :| c in contracts && c.address == a;
    assert IsLatest(ParseAll(collected), a, c.lastLT);
    var t :| t in ParseAll(collected) && From(t, a) && t.lt == c.lastLT;
    ParseAllMembers(collected);
    var i :| 0 <= i < |collected| && ParseTx(collected[i]) == Some(t);
    InSegment(h, collected, |h| - |collected|, collected[i]);
    j :| |h| - |collected| <= j < |h| && h[j] == collected[i];
  }

  /** A scan lists exactly the contracts that paid in what it fetched and that the lookup knows. */
  lemma ScanLists(h: seq<RawTx>, fromLT: nat, wallet: string, collected: seq<RawTx>, stop: Stop,
                  lookup: Lookup, contracts: seq<StorageContract>, lastLT: nat, a: string)
    requires FetchAndScan(h, fromLT, wallet, collected, stop, lookup, contracts, lastLT)
    ensures a in Addresses(contracts) <==>
              lookup(a).Some? && exists j :: |h| - |collected| <= j < |h| && PaidBy(h[j]) == Some(a)
  {
    if a in Addresses(contracts) {
      var j := ListedIsPaid(h, fromLT, wallet, collected, stop, lookup, contracts, lastLT, a);
    }
    if lookup(a).Some? && exists j :: |h| - |collected| <= j < |h| && PaidBy(h[j]) == Some(a) {
      var j :| |h| - |collected| <= j < |h| && PaidBy(h[j]) == Some(a);
      SegmentPaymentIsParsed(h, collected, j);
    }
  }

  /** Where a complete fetch from an LT begins: at the newest transaction not above it. */
  function First(h: seq<RawTx>, fromLT: nat): nat {
    if AtOrBelow(h, fromLT) == 0 then 0 else AtOrBelow(h, fromLT) - 1
  }

  lemma CompleteFetchBegins(h: seq<RawTx>, fromLT: nat, collected: seq<RawTx>, stop: Stop)
    requires History(h) && Segment(h, fromLT, collected, stop) && Complete(h, collected, stop)
    ensures |h| - |collected| == First(h, fromLT)
  {
    NotAboveSplits(h, fromLT, |h|);
    var n := |h| - |collected|;
    if n < |h| && h[n].lt <= fromLT {
      assert n < AtOrBelow(h, fromLT);
      var next := if n + 1 < |h| then n + 1 else n;
      assert next == n || fromLT < h[next].lt;
    }
  }

  /**
   A complete scan lists exactly the contracts that the lookup knows and that paid above its LT or
   in the newest transaction not above it. So a contract that one scan's lookup omitted is listed
   by a later complete scan exactly if it has such a payment and that scan's lookup knows it.
   */
  lemma CompleteScanLists(h: seq<RawTx>, fromLT: nat, wallet: string, collected: seq<RawTx>, stop: Stop,
                          lookup: Lookup, contracts: seq<StorageContract>, lastLT: nat, a: string)
    requires History(h) && FetchAndScan(h, fromLT, wallet, collected, stop, lookup, contracts, lastLT)
    requires Complete(h, collected, stop)
    ensures a in Addresses(contracts) <==>
              lookup(a).Some? && exists j :: First(h, fromLT) <= j < |h| && PaidBy(h[j]) == Some(a)
  {
    CompleteFetchBegins(h, fromLT, collected, stop);
    ScanLists(h, fromLT, wallet, collected, stop, lookup, contracts, lastLT, a);
  }

  /** The payment at a stored LT is looked up again by every complete scan from there. */
  lemma NewestIsListedAgain(h: seq<RawTx>, j: nat, wallet: string, collected: seq<RawTx>, stop: Stop,
                            lookup: Lookup, contracts: seq<StorageContract>, lastLT: nat)
    requires History(h) && j < |h| && PaidBy(h[j]).Some?
    requires FetchAndScan(h, h[j].lt, wallet, collected, stop, lookup, contracts, lastLT) &&
      Complete(h, collected, stop)
    ensures PaidBy(h[j]).value in Addresses(contracts) <==> lookup(PaidBy(h[j]).value).Some?
  {
    NotAboveSplits(h, h[j].lt, |h|);
    assert j < AtOrBelow(h, h[j].lt);
    assert j + 1 < |h| ==> h[j].lt < h[j + 1].lt;
    CompleteScanLists(h, h[j].lt, wallet, collected, stop, lookup, contracts, lastLT, PaidBy(h[j]).value);
  }

  /** The LT is the largest of fromLT and the LTs of the withdrawals. */
  ghost predicate IsNewestPayment(h: seq<RawTx>, fromLT: nat, lt: nat) {
    && fromLT <= lt
    && (forall j :: 0 <= j < |h| && PaidBy(h[j]).Some? && fromLT < h[j].lt ==> h[j].lt <= lt)
    && (lt != fromLT ==> exists j :: 0 <= j < |h| && PaidBy(h[j]).Some? && h[j].lt == lt)
  }

  /** A complete scan reaches the newest withdrawal. */
  lemma CompleteScanReaches(h: seq<RawTx>, fromLT: nat, wallet: string, collected: seq<RawTx>, stop: Stop,
                            contracts: seq<StorageContract>, lastLT: nat)
    requires History(h) && Segment(h, fromLT, collected, stop) && Complete(h, collected, stop)
    requires WalletOutcome(ParseAll(collected), fromLT, wallet, contracts, lastLT)
    ensures IsNewestPayment(h, fromLT, lastLT)
  {
    var n := |h| - |collected|;
    forall j | 0 <= j < |h| && PaidBy(h[j]).Some? && fromLT < h[j].lt ensures h[j].lt <= lastLT {
      assert n <= j;
      SegmentPaymentIsParsed(h, collected, j);
    }
    if fromLT < lastLT {
      var t :| t in ParseAll(collected) && IsWithdrawal(t) && t.lt == lastLT;
      ParseAllMembers(collected);
      var i :| 0 <= i < |collected| && ParseTx(collected[i]) == Some(t);
      InSegment(h, collected, n, collected[i]);
    }
  }

  /** A listed contract's LT is that of its newest payment in the fetch, and its data what the lookup says. */
  ghost predicate IsListing(h: seq<RawTx>, first: nat, wallet: string, lookup: Lookup, c: StorageContract) {
    && c.providers == [wallet]
    && lookup(c.address) == Some(Details(c.bagID, c.ownerAddr, c.size, c.chunkSize))
    && (exists j :: first <= j < |h| && PaidBy(h[j]) == Some(c.address) && h[j].lt == c.lastLT)
    && (forall j :: first <= j < |h| && PaidBy(h[j]) == Some(c.address) ==> h[j].lt <= c.lastLT)
  }

  lemma ListingIsExact(h: seq<RawTx>, fromLT: nat, wallet: string, collected: seq<RawTx>, stop: Stop,
                       lookup: Lookup, contracts: seq<StorageContract>, lastLT: nat, c: StorageContract)
    requires FetchAndScan(h, fromLT, wallet, collected, stop, lookup, contracts, lastLT) && c in contracts
    ensures IsListing(h, |h| - |collected|, wallet, lookup, c)
  {
    var n, txs := |h| - |collected|, ParseAll(collected);
    assert IsLatest(txs, c.address, c.lastLT);
    var t :| t in txs && From(t, c.address) && t.lt == c.lastLT;
    ParseAllMembers(collected);
    var i :| 0 <= i < |collected| && ParseTx(collected[i]) == Some(t);
    InSegment(h, collected, n, collected[i]);
    var k :| n <= k < |h| && h[k] == collected[i];
    assert PaidBy(h[k]) == Some(c.address) && h[k].lt == c.lastLT;
    forall j | n <= j < |h| && PaidBy(h[j]) == Some(c.address) ensures h[j].lt <= c.lastLT {
      SegmentPaymentIsParsed(h, collected, j);
      assert From(ParseTx(h[j]).value, c.address);
    }
  }
}
