/** MasterScanner.Scan: provider registrations among the transactions of the master wallet. */
module MasterScan {
  import opened Common
  import opened Strings
  import opened Chain

  const PREFIX := "tsp-"
  const PUBKEY_HEX_LEN := 64

  datatype Provider = Provider(publicKey: string, address: string, registeredAt: int)

  /** The lower-cased public key that a comment registers, if any. */
  function RegistrationKey(message: string): Option<string> {
    var pos := IndexFrom(message, PREFIX, 0);
    if pos < 0 || |message| <= pos + |PREFIX| then None else
    var pubkey := Lower(message[pos + |PREFIX|..]);
    if |pubkey| != PUBKEY_HEX_LEN || !IsHex(pubkey) then None else Some(pubkey)
  }

  /** The key a transaction registers: its source must be a user-friendly address. */
  function Registration(tx: Tx): Option<string> {
    if IsUserFriendly(tx.from) then RegistrationKey(tx.message) else None
  }

  ghost predicate Registers(tx: Tx, fromLT: nat, key: string) {
    fromLT < tx.lt && Registration(tx) == Some(key)
  }

  /** Position j holds the first transaction above fromLT that registers the key. */
  ghost predicate FirstToRegister(txs: seq<Tx>, fromLT: nat, key: string, j: nat) {
    && j < |txs|
    && Registers(txs[j], fromLT, key)
    && forall l :: 0 <= l < j ==> !Registers(txs[l], fromLT, key)
  }

  /** lt is the largest of fromLT and the LTs of the transactions. */
  ghost predicate IsRunningMax(txs: seq<Tx>, fromLT: nat, lt: nat) {
    && fromLT <= lt
    && (forall t :: t in txs ==> t.lt <= lt)
    && (lt != fromLT ==> exists t :: t in txs && t.lt == lt)
  }

  function Keys(providers: seq<Provider>): set<string> {
    set p | p in providers :: p.publicKey
  }

  ghost predicate RegisteredFrom(txs: seq<Tx>, fromLT: nat, p: Provider) {
    exists j: nat :: FirstToRegister(txs, fromLT, p.publicKey, j)
                && p.address == txs[j].from && p.registeredAt == txs[j].createdAt
  }

  /** What a scan of fetched transactions returns, whatever order its map is walked in. */
  ghost predicate ScanOutcome(txs: seq<Tx>, fromLT: nat, providers: seq<Provider>, lastLT: nat) {
    && IsRunningMax(txs, fromLT, lastLT)
    && (forall i, j :: 0 <= i < j < |providers| ==> providers[i].publicKey != providers[j].publicKey)
    && (forall p :: p in providers ==> RegisteredFrom(txs, fromLT, p))
    && (forall t, key :: t in txs && Registers(t, fromLT, key) ==> key in Keys(providers))
  }

  /** The registrations collected after the first i transactions. */
  ghost predicate Collected(txs: seq<Tx>, fromLT: nat, i: nat, unique: map<string, Provider>)
    requires i <= |txs|
  {
    && (forall key :: key in unique ==> unique[key].publicKey == key && RegisteredFrom(txs, fromLT, unique[key]))
    && (forall l, key :: 0 <= l < i && Registers(txs[l], fromLT, key) ==> key in unique)
    && (forall key :: key in unique ==> exists l :: 0 <= l < i && Registers(txs[l], fromLT, key))
  }

  lemma CollectOne(txs: seq<Tx>, fromLT: nat, i: nat, unique: map<string, Provider>, key: string)
    requires i < |txs| && Collected(txs, fromLT, i, unique)
    requires Registers(txs[i], fromLT, key) && key !in unique
    ensures Collected(txs, fromLT, i + 1, unique[key := Provider(key, txs[i].from, txs[i].createdAt)])
  {
    var p := Provider(key, txs[i].from, txs[i].createdAt);
    assert FirstToRegister(txs, fromLT, key, i);
    assert RegisteredFrom(txs, fromLT, p);
  }

  lemma CollectNone(txs: seq<Tx>, fromLT: nat, i: nat, unique: map<string, Provider>)
    requires i < |txs| && Collected(txs, fromLT, i, unique)
    requires forall key :: Registers(txs[i], fromLT, key) ==> key in unique
    ensures Collected(txs, fromLT, i + 1, unique)
  {
    forall l, key | 0 <= l < i + 1 && Registers(txs[l], fromLT, key) ensures key in unique {
    }
  }

  lemma RunningMaxStep(txs: seq<Tx>, fromLT: nat, i: nat, lt: nat)
    requires i < |txs| && IsRunningMax(txs[..i], fromLT, lt)
    ensures IsRunningMax(txs[..i + 1], fromLT, if lt < txs[i].lt then txs[i].lt else lt)
  {
    assert txs[..i + 1] == txs[..i] + [txs[i]];
    assert txs[i] in txs[..i + 1];
  }

  /** Each entry of the map once, in some order. */
  ghost predicate Enumerates(providers: seq<Provider>, unique: map<string, Provider>) {
    && (forall i, j :: 0 <= i < j < |providers| ==> providers[i].publicKey != providers[j].publicKey)
    && (forall p :: p in providers ==> p.publicKey in unique && p == unique[p.publicKey])
    && Keys(providers) == unique.Keys
  }

  lemma EnumerationIsOutcome(txs: seq<Tx>, fromLT: nat, unique: map<string, Provider>, providers: seq<Provider>,
                             lastLT: nat)
    requires IsRunningMax(txs, fromLT, lastLT)
    requires Collected(txs, fromLT, |txs|, unique) && Enumerates(providers, unique)
    ensures ScanOutcome(txs, fromLT, providers, lastLT)
  {
    forall t, key | t in txs && Registers(t, fromLT, key) ensures key in Keys(providers) {
      var l :| 0 <= l < |txs| && txs[l] == t;
    }
  }

  method Scan(txs: seq<Tx>, fromLT: nat) returns (providers: seq<Provider>, lastLT: nat)
    ensures ScanOutcome(txs, fromLT, providers, lastLT)
  {
    var unique: map<string, Provider> := map[];
    lastLT := fromLT;
    for i := 0 to |txs|
      invariant IsRunningMax(txs[..i], fromLT, lastLT)
      invariant Collected(txs, fromLT, i, unique)
    {
      var tx := txs[i];
      RunningMaxStep(txs, fromLT, i, lastLT);
      if fromLT < tx.lt {
        if lastLT < tx.lt {
          lastLT := tx.lt;
        }
        var key := Registration(tx);
        if key.Some? && key.value !in unique {
          CollectOne(txs, fromLT, i, unique, key.value);
          unique := unique[key.value := Provider(key.value, tx.from, tx.createdAt)];
        } else {
          CollectNone(txs, fromLT, i, unique);
        }
      } else {
        CollectNone(txs, fromLT, i, unique);
      }
    }
    assert txs[..|txs|] == txs;
    providers := Values(unique);
    EnumerationIsOutcome(txs, fromLT, unique, providers, lastLT);
  }

  /** The providers of the map, in whatever order it is walked. */
  method Values(unique: map<string, Provider>) returns (providers: seq<Provider>)
    requires forall key :: key in unique ==> unique[key].publicKey == key
    ensures Enumerates(providers, unique)
  {
    providers := [];
    var left := unique.Keys;
    while left != {}
      invariant left <= unique.Keys
      invariant forall i, j :: 0 <= i < j < |providers| ==> providers[i].publicKey != providers[j].publicKey
      invariant forall p :: p in providers ==> p.publicKey in unique && p == unique[p.publicKey]
      invariant Keys(providers) == unique.Keys - left
      decreases left
    {
      var key :| key in left;
      assert forall p :: p in providers ==> p.publicKey in Keys(providers);
      assert Keys(providers + [unique[key]]) == Keys(providers) + {key};
      providers := providers + [unique[key]];
      left := left - {key};
    }
  }

  /** A registered key is 64 lower-case hex digits. */
  /** The first "tsp-" of a message is at the position. */
  ghost predicate FirstPrefixAt(message: string, pos: nat) {
    StartsAt(message, "tsp-", pos) && forall j: nat :: j < pos ==> !StartsAt(message, "tsp-", j)
  }

  lemma FirstPrefixIsFound(message: string, pos: nat)
    ensures FirstPrefixAt(message, pos) <==> IndexFrom(message, PREFIX, 0) == pos
  {
    IndexFromIsFirst(message, PREFIX, 0);
  }

  /** A message registers a key exactly if its first "tsp-" is followed by the 64 digits of the key and nothing else. */
  lemma RegistrationKeyIff(message: string, key: string)
    ensures RegistrationKey(message) == Some(key) <==>
              exists pos: nat :: && FirstPrefixAt(message, pos) && |message| == pos + 68
                                 && IsHex(message[pos + 4..]) && key == Lower(message[pos + 4..])
  {
    var found := IndexFrom(message, PREFIX, 0);
    IndexFromIsFirst(message, PREFIX, 0);
    if 0 <= found {
      FirstPrefixIsFound(message, found);
      if |message| == found + 68 {
        LowerIsHex(message[found + 4..]);
      }
    }
    forall pos: nat | FirstPrefixAt(message, pos) ensures pos == found {
      FirstPrefixIsFound(message, pos);
    }
  }

  lemma LowerIsHex(s: string)
    ensures IsHex(Lower(s)) <==> IsHex(s)
  {
    assert forall i :: 0 <= i < |s| ==> Lower(s)[i] == LowerChar(s[i]);
    assert forall c: char :: IsHexDigit(LowerChar(c)) <==> IsHexDigit(c);
  }

  /** Only a message from a user-friendly address registers a key. */
  lemma RegistersFromFriendly(tx: Tx, fromLT: nat, key: string)
    requires Registers(tx, fromLT, key)
    ensures IsUserFriendly(tx.from) && RegistrationKey(tx.message) == Some(key)
  {
  }

  lemma RegistrationKeyIsCanonical(message: string)
    ensures var r := RegistrationKey(message); r.Some? ==> IsPubkeyHex(r.value) && Lower(r.value) == r.value
  {
    var pos := IndexFrom(message, PREFIX, 0);
    if 0 <= pos && pos + |PREFIX| < |message| {
      LowerIdempotent(message[pos + |PREFIX|..]);
    }
  }

  /** Round trip: a comment of the prefix and a key, in any letter case, registers that key in lower case. */
  lemma RegistrationRoundTrip(key: string)
    requires IsPubkeyHex(key)
    ensures RegistrationKey(PREFIX + key) == Some(Lower(key)) && PREFIX == "tsp-"
  {
    var message := PREFIX + key;
    assert StartsAt(message, PREFIX, 0);
    assert message[|PREFIX|..] == key;
    assert forall i :: 0 <= i < |key| ==> IsHexDigit(key[i]) && IsHexDigit(LowerChar(key[i]));
  }

  /** A scan finds exactly the keys registered above fromLT. */
  lemma ScanFindsExactly(txs: seq<Tx>, fromLT: nat, providers: seq<Provider>, lastLT: nat, key: string)
    requires ScanOutcome(txs, fromLT, providers, lastLT)
    ensures key in Keys(providers) <==> exists t :: t in txs && Registers(t, fromLT, key)
  {
    if key in Keys(providers) {
      var p :| p in providers && p.publicKey == key;
      assert RegisteredFrom(txs, fromLT, p);
      var j: nat :| FirstToRegister(txs, fromLT, p.publicKey, j);
      assert txs[j] in txs;
    }
  }
}
