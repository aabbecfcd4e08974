/** The string operations the agent relies on, over ASCII text. */
module Strings {

  function LowerChar(c: char): char {
    if 'A' <= c <= 'Z' then (c as int + 32) as char else c
  }

  /** strings.ToLower. */
  function Lower(s: string): string {
    seq(|s|, i requires 0 <= i < |s| => LowerChar(s[i]))
  }

  function LowerAll(ss: set<string>): set<string> {
    set s | s in ss :: Lower(s)
  }

  lemma LowerIdempotent(s: string)
    ensures Lower(Lower(s)) == Lower(s)
  {
    assert forall i :: 0 <= i < |s| ==> LowerChar(LowerChar(s[i])) == LowerChar(s[i]);
  }

  predicate StartsAt(s: string, sub: string, i: nat) {
    i + |sub| <= |s| && s[i..i + |sub|] == sub
  }

  /** strings.Index from position i: the first occurrence, or -1. */
  function IndexFrom(s: string, sub: string, i: nat): int
    decreases |s| - i
  {
    if |s| < i + |sub| then -1
    else if StartsAt(s, sub, i) then i
    else IndexFrom(s, sub, i + 1)
  }

  lemma {:induction false} IndexFromIsFirst(s: string, sub: string, i: nat)
    ensures var r := IndexFrom(s, sub, i);
            && (r == -1 ==> forall j: nat :: i <= j ==> !StartsAt(s, sub, j))
            && (r != -1 ==> i <= r && StartsAt(s, sub, r) && forall j: nat :: i <= j < r ==> !StartsAt(s, sub, j))
    decreases |s| - i
  {
    if i + |sub| <= |s| && !StartsAt(s, sub, i) {
      IndexFromIsFirst(s, sub, i + 1);
    }
  }

  predicate IsHexDigit(c: char) {
    '0' <= c <= '9' || 'a' <= c <= 'f' || 'A' <= c <= 'F'
  }

  predicate IsHex(s: string) {
    forall i :: 0 <= i < |s| ==> IsHexDigit(s[i])
  }

  /** hex.DecodeString succeeds and yields 32 bytes. */
  predicate IsPubkeyHex(s: string) {
    |s| == 64 && IsHex(s)
  }

  predicate IsAddressChar(c: char) {
    'A' <= c <= 'Z' || 'a' <= c <= 'z' || '0' <= c <= '9' || c == '_' || c == '-'
  }

  /** ^[EUk0][Qq][A-Za-z0-9_-]{46}$ */
  predicate IsUserFriendly(s: string) {
    && |s| == 48
    && s[0] in "EUk0"
    && s[1] in "Qq"
    && forall i :: 2 <= i < 48 ==> IsAddressChar(s[i])
  }
}
