/** UpdateIPInfo: the providers' addresses are looked up one after another, with a pause between them. */
module IpInfo {
  import opened Common
  import opened Handlers

  datatype Info = Info(country: string, countryISO: string, city: string, timeZone: string, ip: string)

  datatype Target = Target(pubkey: string, ip: string)

  datatype Item = Item(pubkey: string, ip: string, info: Info)

  /** The item of the i-th target: none without an address or when its lookup failed. */
  function ItemOf(target: Target, answer: Option<Info>): Option<Item> {
    if target.ip == "" || answer.None? then None else Some(Item(target.pubkey, target.ip, answer.value))
  }

  /** The items of the first n targets, in order. */
  function Items(targets: seq<Target>, lookup: (nat, string) -> Option<Info>, n: nat): seq<Item>
    requires n <= |targets|
  {
    if n == 0 then [] else
    var item := ItemOf(targets[n - 1], lookup(n - 1, targets[n - 1].ip));
    Items(targets, lookup, n - 1) + if item.Some? then [item.value] else []
  }

  /** The k-th target has an address, was answered, and the item carries the answer. */
  ghost predicate IsItemOf(targets: seq<Target>, lookup: (nat, string) -> Option<Info>, k: nat, item: Item)
    requires k < |targets|
  {
    var target := targets[k];
    && target.ip != "" && lookup(k, target.ip).Some?
    && item == Item(target.pubkey, target.ip, lookup(k, target.ip).value)
  }

  /** There is an item for exactly the targets that have an address and were answered. */
  lemma {:induction false} ItemsAreExact(targets: seq<Target>, lookup: (nat, string) -> Option<Info>, n: nat,
                                         item: Item)
    requires n <= |targets|
    ensures item in Items(targets, lookup, n) <==> exists k: nat :: k < n && IsItemOf(targets, lookup, k, item)
  {
    if n != 0 {
      ItemsAreExact(targets, lookup, n - 1, item);
      assert IsItemOf(targets, lookup, n - 1, item) <==>
        ItemOf(targets[n - 1], lookup(n - 1, targets[n - 1].ip)) == Some(item);
    }
  }

  /** Whether the context ends the loop at target i: before it, or in the pause that precedes its lookup. */
  predicate Stops(targets: seq<Target>, pauses: bool, cancelled: nat -> bool, cutShort: nat -> bool, i: nat)
    requires i < |targets|
  {
    cancelled(i) || (targets[i].ip != "" && 0 < i && pauses && cutShort(i))
  }

  /** The lookup loop. None: the context ended. */
  method LookupAll(targets: seq<Target>, pauses: bool, cancelled: nat -> bool, cutShort: nat -> bool,
                   lookup: (nat, string) -> Option<Info>, ghost before: seq<Call>, ghost publish: PublishOutcome)
    returns (r: Option<seq<Item>>, ghost trace: seq<Call>)
    requires SoFar(before)
    ensures r.None? <==> exists i :: 0 <= i < |targets| && Stops(targets, pauses, cancelled, cutShort, i)
    ensures r.None? ==> Obeys(trace, false, publish, 0)
    ensures r.Some? ==> SoFar(trace) && r.value == Items(targets, lookup, |targets|)
  {
    var items: seq<Item> := [];
    trace := before;
    for i := 0 to |targets|
      invariant forall j :: 0 <= j < i ==> !Stops(targets, pauses, cancelled, cutShort, j)
      invariant SoFar(trace) && items == Items(targets, lookup, i)
    {
      assert Items(targets, lookup, i) + [] == Items(targets, lookup, i);
      Calls(trace, !cancelled(i), publish);
      trace := Then(trace, Fallible, !cancelled(i));
      if cancelled(i) {
        assert Stops(targets, pauses, cancelled, cutShort, i);
        return None, trace;
      }
      if targets[i].ip == "" {
        continue;
      }
      if 0 < i && pauses {
        Calls(trace, !cutShort(i), publish);
        trace := Then(trace, Fallible, !cutShort(i));
        if cutShort(i) {
          assert Stops(targets, pauses, cancelled, cutShort, i);
          return None, trace;
        }
      }
      var answer := lookup(i, targets[i].ip);
      Tries(trace, answer.Some?);
      trace := Then(trace, BestEffort, answer.Some?);
      if answer.Some? {
        items := items + [Item(targets[i].pubkey, targets[i].ip, answer.value)];
      }
    }
    r := Some(items);
  }

  /** UpdateIPInfo: what is published has the answered targets in order; a cancelled cycle publishes nothing. */
  method UpdateIPInfo(stale: Result<seq<Target>>, pauses: bool, cancelled: nat -> bool, cutShort: nat -> bool,
                      lookup: (nat, string) -> Option<Info>, publish: PublishOutcome)
    returns (ok: bool, appended: seq<seq<Item>>, ghost trace: seq<Call>)
    ensures Obeys(trace, ok, publish, |appended|)
    ensures ok <==>
      && stale.Ok? && publish.Appended?
      && forall i :: 0 <= i < |stale.value| ==> !Stops(stale.value, pauses, cancelled, cutShort, i)
    ensures forall items :: items in appended ==> stale.Ok? && items == Items(stale.value, lookup, |stale.value|)
  {
    appended, trace := [], [];
    Calls(trace, stale.Ok?, publish);
    trace := Then(trace, Fallible, stale.Ok?);
    if stale.Err? {
      return false, appended, trace;
    }
    if |stale.value| == 0 {
      ok, appended, trace := Handlers.Publish([], publish, trace);
      return;
    }
    var items;
    items, trace := LookupAll(stale.value, pauses, cancelled, cutShort, lookup, trace, publish);
    if items.None? {
      return false, appended, trace;
    }
    ok, appended, trace := Handlers.Publish(items.value, publish, trace);
  }
}
