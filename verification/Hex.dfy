/** Hexadecimal text of byte strings: `0x` and two lower-case digits a byte, decoded in either letter case. */
module Hex {
  import opened Wrappers

  type Byte = x: int | 0 <= x < 256
  type Bytes = seq<Byte>

  const DIGITS := "0123456789abcdef"

  function Digit(n: int): char
    requires 0 <= n < 16
  {
    DIGITS[n]
  }

  predicate IsDigit(c: char) {
    '0' <= c <= '9' || 'a' <= c <= 'f' || 'A' <= c <= 'F'
  }

  function Value(c: char): (n: int)
    requires IsDigit(c)
    ensures 0 <= n < 16
  {
    if '0' <= c <= '9' then c as int - '0' as int
    else if 'a' <= c <= 'f' then c as int - 'a' as int + 10
    else c as int - 'A' as int + 10
  }

  /** ASCII lower case of one character. */
  function LowerChar(c: char): char {
    if 'A' <= c <= 'Z' then (c as int + 32) as char else c
  }

  function Lower(s: string): (r: string)
    ensures |r| == |s| && forall i :: 0 <= i < |s| ==> r[i] == LowerChar(s[i])
  {
    seq(|s|, i requires 0 <= i < |s| => LowerChar(s[i]))
  }

  function EncodeDigits(b: Bytes): (s: string)
    ensures |s| == 2 * |b|
    ensures forall i :: 0 <= i < |s| ==> IsDigit(s[i]) && LowerChar(s[i]) == s[i]
  {
    if b == [] then [] else
      DigitFacts(b[0] / 16);
      DigitFacts(b[0] % 16);
      [Digit(b[0] / 16), Digit(b[0] % 16)] + EncodeDigits(b[1..])
  }

  function DecodeDigits(s: string): (r: Option<Bytes>)
    ensures r.Some? <==> |s| % 2 == 0 && forall i :: 0 <= i < |s| ==> IsDigit(s[i])
    ensures r.Some? ==> |s| == 2 * |r.value|
  {
    if s == [] then Some([])
    else if |s| == 1 || !IsDigit(s[0]) || !IsDigit(s[1]) then None
    else
      assert forall i :: 0 <= i < |s[2..]| ==> s[2..][i] == s[i + 2];
      assert forall i :: 2 <= i < |s| ==> s[i] == s[2..][i - 2];
      match DecodeDigits(s[2..])
      case None => None
      case Some(rest) => Some([16 * Value(s[0]) + Value(s[1])] + rest)
  }

  function Encode(b: Bytes): string {
    "0x" + EncodeDigits(b)
  }

  function Decode(s: string): Option<Bytes> {
    if |s| >= 2 && s[0] == '0' && (s[1] == 'x' || s[1] == 'X') then DecodeDigits(s[2..]) else None
  }

  lemma DigitFacts(n: int)
    requires 0 <= n < 16
    ensures IsDigit(Digit(n)) && Value(Digit(n)) == n && LowerChar(Digit(n)) == Digit(n)
  {}

  lemma ValueFacts(c: char)
    requires IsDigit(c)
    ensures Digit(Value(c)) == LowerChar(c)
  {}

  lemma TwoDigits(h: int, l: int)
    requires 0 <= h < 16 && 0 <= l < 16
    ensures (16 * h + l) / 16 == h && (16 * h + l) % 16 == l
  {}

  lemma DecodePair(h: int, l: int, rest: string, tail: Bytes)
    requires 0 <= h < 16 && 0 <= l < 16 && DecodeDigits(rest) == Some(tail)
    ensures DecodeDigits([Digit(h), Digit(l)] + rest) == Some([16 * h + l] + tail)
  {
    DigitFacts(h);
    DigitFacts(l);
    assert ([Digit(h), Digit(l)] + rest)[2..] == rest;
  }

  lemma {:induction false} DecodeEncodeDigits(b: Bytes)
    ensures DecodeDigits(EncodeDigits(b)) == Some(b)
  {
    if b != [] {
      DecodeEncodeDigits(b[1..]);
      DecodePair(b[0] / 16, b[0] % 16, EncodeDigits(b[1..]), b[1..]);
      assert b == [b[0]] + b[1..];
    }
  }

  lemma {:induction false} EncodeDecodeDigits(s: string)
    requires DecodeDigits(s).Some?
    ensures EncodeDigits(DecodeDigits(s).value) == Lower(s)
  {
    if s != [] {
      var h, l, rest := Value(s[0]), Value(s[1]), DecodeDigits(s[2..]).value;
      EncodeDecodeDigits(s[2..]);
      ValueFacts(s[0]);
      ValueFacts(s[1]);
      TwoDigits(h, l);
      var b := [16 * h + l] + rest;
      assert b[1..] == rest;
      assert EncodeDigits(b) == [Digit(h), Digit(l)] + EncodeDigits(rest);
      assert Lower(s) == [LowerChar(s[0]), LowerChar(s[1])] + Lower(s[2..]);
    }
  }

  /** Decoding inverts encoding. */
  lemma DecodeEncode(b: Bytes)
    ensures Decode(Encode(b)) == Some(b)
  {
    DecodeEncodeDigits(b);
    assert Encode(b)[2..] == EncodeDigits(b);
  }

  /** Encoding inverts decoding up to letter case. */
  lemma EncodeDecode(s: string)
    requires Decode(s).Some?
    ensures Encode(Decode(s).value) == Lower(s)
  {
    EncodeDecodeDigits(s[2..]);
    assert s == s[..2] + s[2..];
    assert Lower(s) == "0x" + Lower(s[2..]);
  }

  lemma EncodeInjective(a: Bytes, b: Bytes)
    requires Encode(a) == Encode(b)
    ensures a == b
  {
    DecodeEncode(a);
    DecodeEncode(b);
  }

  /** The digits, and the values of digits in either letter case. */
  lemma Alphabet(n: int)
    requires 0 <= n < 16
    ensures Digit(n) == "0123456789abcdef"[n]
    ensures IsDigit("0123456789abcdef"[n]) && Value("0123456789abcdef"[n]) == n
    ensures IsDigit("0123456789ABCDEF"[n]) && Value("0123456789ABCDEF"[n]) == n
  {}

  lemma {:induction false} EncodedDigitsAt(b: Bytes, k: nat)
    requires k < |b|
    ensures EncodeDigits(b)[2 * k] == Digit(b[k] / 16) && EncodeDigits(b)[2 * k + 1] == Digit(b[k] % 16)
  {
    if k > 0 {
      EncodedDigitsAt(b[1..], k - 1);
    }
  }

  /** Encoded text: `0x`, then for each byte in order its upper and its lower half. */
  lemma EncodedAt(b: Bytes, k: nat)
    requires k < |b|
    ensures |Encode(b)| == 2 + 2 * |b| && Encode(b)[..2] == "0x"
    ensures Encode(b)[2 + 2 * k] == "0123456789abcdef"[b[k] / 16] && Encode(b)[3 + 2 * k] == "0123456789abcdef"[b[k] % 16]
  {
    EncodedDigitsAt(b, k);
    Alphabet(b[k] / 16);
    Alphabet(b[k] % 16);
  }

  /** The letters from A to Z are 32 apart from their lower-case forms; every other character stays. */
  lemma LowerExact(s: string, k: nat)
    requires k < |s|
    ensures 'A' <= s[k] <= 'Z' ==> Lower(s)[k] as int == s[k] as int + 32
    ensures !('A' <= s[k] <= 'Z') ==> Lower(s)[k] == s[k]
  {}

  /** The characters that hexadecimal text can hold. */
  predicate IsHexText(s: string) {
    forall i :: 0 <= i < |s| ==> IsDigit(s[i]) || s[i] == 'x' || s[i] == 'X'
  }

  lemma DecodableIsHexText(s: string)
    requires Decode(s).Some?
    ensures IsHexText(s)
  {}

  /** Decoding ignores letter case. */
  lemma DecodeAnyCase(s: string, b: Bytes)
    requires Lower(s) == Encode(b)
    ensures Decode(s) == Some(b) && IsHexText(s)
  {
    var digits := EncodeDigits(b);
    assert s[0] == '0' && LowerChar(s[1]) == 'x' by {
      assert Lower(s)[0] == '0' && Lower(s)[1] == 'x';
    }
    forall i | 0 <= i < |s[2..]|
      ensures IsDigit(s[2..][i])
    {
      assert LowerChar(s[i + 2]) == Lower(s)[i + 2] == digits[i];
    }
    EncodeDecode(s);
    EncodeInjective(Decode(s).value, b);
    DecodableIsHexText(s);
  }
}
