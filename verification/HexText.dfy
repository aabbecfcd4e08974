/** A provider's key and its text: two lower-case hexadecimal digits a byte. */
module HexText {
  import opened Strings

  type Byte = x: int | 0 <= x < 256

  function HexDigit(d: int): char
    requires 0 <= d < 16
  {
    if d < 10 then '0' + d as char else 'a' + (d - 10) as char
  }

  /** The lower-case hexadecimal form. */
  function Hex(key: seq<Byte>): string {
    if key == [] then "" else Hex(key[..|key| - 1]) + [HexDigit(key[|key| - 1] / 16), HexDigit(key[|key| - 1] % 16)]
  }

  lemma {:induction false} HexLength(key: seq<Byte>)
    ensures |Hex(key)| == 2 * |key|
  {
    if key != [] {
      HexLength(key[..|key| - 1]);
    }
  }

  lemma DigitsInjective(x: Byte, y: Byte)
    requires HexDigit(x / 16) == HexDigit(y / 16) && HexDigit(x % 16) == HexDigit(y % 16)
    ensures x == y
  {
    assert x / 16 == y / 16 && x % 16 == y % 16;
  }

  /** The text splits into that of the leading bytes and the two digits of the last. */
  lemma HexSplit(key: seq<Byte>, n: nat)
    requires n + 1 == |key|
    ensures |Hex(key)| == 2 * n + 2 && Hex(key)[..2 * n] == Hex(key[..n])
    ensures Hex(key)[2 * n] == HexDigit(key[n] / 16) && Hex(key)[2 * n + 1] == HexDigit(key[n] % 16)
  {
    HexLength(key[..n]);
  }

  lemma SameBytes(a: seq<Byte>, b: seq<Byte>, n: nat)
    requires |a| == n + 1 == |b| && a[..n] == b[..n] && a[n] == b[n]
    ensures a == b
  {
    assert a == a[..n] + [a[n]] && b == b[..n] + [b[n]];
  }

  lemma SplitEqual(a: seq<Byte>, b: seq<Byte>, n: nat)
    requires |a| == n + 1 == |b| && Hex(a) == Hex(b)
    ensures Hex(a[..n]) == Hex(b[..n]) && a[n] == b[n]
  {
    HexSplit(a, n);
    HexSplit(b, n);
    DigitsInjective(a[n], b[n]);
  }

  /** Two keys with the same text are the same key, so comparing texts compares keys. */
  lemma {:induction false} HexInjective(a: seq<Byte>, b: seq<Byte>)
    requires Hex(a) == Hex(b)
    ensures a == b
  {
    HexLength(a);
    HexLength(b);
    if a != [] {
      var n := |a| - 1;
      SplitEqual(a, b, n);
      HexInjective(a[..n], b[..n]);
      SameBytes(a, b, n);
    }
  }

  /** The value of a lower-case hexadecimal digit. */
  function DigitValue(c: char): int {
    if '0' <= c <= '9' then c as int - '0' as int else if 'a' <= c <= 'f' then c as int - 'a' as int + 10 else -1
  }

  lemma DigitsAreLower(x: Byte)
    ensures var a, b := HexDigit(x / 16), HexDigit(x % 16);
            && IsHexDigit(a) && LowerChar(a) == a && IsHexDigit(b) && LowerChar(b) == b
            && x == 16 * DigitValue(a) + DigitValue(b)
  {
  }

  lemma {:induction false} HexAt(key: seq<Byte>, i: nat)
    requires i < |key|
    ensures |Hex(key)| == 2 * |key|
    ensures Hex(key)[2 * i] == HexDigit(key[i] / 16) && Hex(key)[2 * i + 1] == HexDigit(key[i] % 16)
  {
    var n := |key| - 1;
    HexSplit(key, n);
    if i < n {
      HexAt(key[..n], i);
      assert Hex(key)[2 * i] == Hex(key)[..2 * n][2 * i] && Hex(key)[2 * i + 1] == Hex(key)[..2 * n][2 * i + 1];
    }
  }

  /** The text of a key is two digits a byte, high digit first. */
  lemma HexRoundTrip(key: seq<Byte>, i: nat)
    requires i < |key|
    ensures |Hex(key)| == 2 * |key|
    ensures key[i] == 16 * DigitValue(Hex(key)[2 * i]) + DigitValue(Hex(key)[2 * i + 1])
  {
    HexAt(key, i);
    DigitsAreLower(key[i]);
  }

  /** The text of a key is lower-case hexadecimal. */
  lemma HexIsLowerCase(key: seq<Byte>)
    ensures IsHex(Hex(key)) && Lower(Hex(key)) == Hex(key)
  {
    HexLength(key);
    forall i | 0 <= i < |Hex(key)| ensures IsHexDigit(Hex(key)[i]) && LowerChar(Hex(key)[i]) == Hex(key)[i] {
      HexAt(key, i / 2);
      DigitsAreLower(key[i / 2]);
      assert i == 2 * (i / 2) || i == 2 * (i / 2) + 1;
    }
  }

  // ----- decoding -----

  /** The value of a digit of either case. */
  function AnyDigitValue(c: char): int {
    DigitValue(LowerChar(c))
  }

  lemma DigitOfValue(c: char)
    requires IsHexDigit(c)
    ensures 0 <= AnyDigitValue(c) < 16 && HexDigit(AnyDigitValue(c)) == LowerChar(c)
  {
  }

  function ByteOf(high: char, low: char): Byte
    requires IsHexDigit(high) && IsHexDigit(low)
  {
    DigitOfValue(high);
    DigitOfValue(low);
    16 * AnyDigitValue(high) + AnyDigitValue(low)
  }

  /** hex.DecodeString on text that it accepts. */
  function Decode(text: string): (key: seq<Byte>)
    requires IsHex(text) && |text| % 2 == 0
    ensures |key| == |text| / 2
  {
    seq(|text| / 2, i requires 0 <= i < |text| / 2 => ByteOf(text[2 * i], text[2 * i + 1]))
  }

  /** Encoding what was decoded gives the text back in lower case. */
  lemma DecodeThenEncode(text: string)
    requires IsHex(text) && |text| % 2 == 0
    ensures Hex(Decode(text)) == Lower(text)
  {
    var key := Decode(text);
    HexLength(key);
    forall i | 0 <= i < |text| ensures Hex(key)[i] == Lower(text)[i] {
      var k := i / 2;
      HexAt(key, k);
      DigitOfValue(text[2 * k]);
      DigitOfValue(text[2 * k + 1]);
      assert key[k] / 16 == AnyDigitValue(text[2 * k]) && key[k] % 16 == AnyDigitValue(text[2 * k + 1]);
      assert i == 2 * k || i == 2 * k + 1;
    }
  }

  /** The keys the agent accepts are exactly the texts of 32 bytes, in either case. */
  lemma PubkeyIsTextOf32Bytes(text: string)
    ensures IsPubkeyHex(text) <==> exists key: seq<Byte> :: |key| == 32 && Hex(key) == Lower(text)
  {
    if IsPubkeyHex(text) {
      DecodeThenEncode(text);
      assert |Decode(text)| == 32;
    }
    if key: seq<Byte> :| |key| == 32 && Hex(key) == Lower(text) {
      HexLength(key);
      HexIsLowerCase(key);
      forall i | 0 <= i < |text| ensures IsHexDigit(text[i]) {
        assert Hex(key)[i] == LowerChar(text[i]);
      }
    }
  }
}
