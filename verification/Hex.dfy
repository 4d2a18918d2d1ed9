/** Hexadecimal text: printed in lower case, read in either case. */
module Hex {
  import opened Prelude
  import opened Text

  predicate IsHexDigit(c: char) { IsDigit(c) || 'a' <= c <= 'f' || 'A' <= c <= 'F' }

  predicate IsLowerHexDigit(c: char) { IsDigit(c) || 'a' <= c <= 'f' }

  predicate IsHex(s: string) { forall i :: 0 <= i < |s| ==> IsHexDigit(s[i]) }

  predicate IsLowerHex(s: string) { forall i :: 0 <= i < |s| ==> IsLowerHexDigit(s[i]) }

  /** `is_hex64`. */
  predicate IsHex64(s: string) { |s| == 64 && IsHex(s) }

  /** `is_lowercase_hex64`. */
  predicate IsLowerHex64(s: string) { |s| == 64 && IsLowerHex(s) }

  function Digit(n: nat): char
    requires n < 16
  {
    if n < 10 then ('0' as int + n) as char else ('a' as int + n - 10) as char
  }

  function Value(c: char): nat
    requires IsHexDigit(c)
  {
    if IsDigit(c) then c as int - '0' as int
    else if c >= 'a' then c as int - 'a' as int + 10
    else c as int - 'A' as int + 10
  }

  function Encode(b: seq<byte>): string {
    if b == [] then "" else [Digit(b[0] / 16), Digit(b[0] % 16)] + Encode(b[1..])
  }

  function Decode(s: string): Option<seq<byte>> {
    if s == "" then Some([])
    else if |s| == 1 || !IsHexDigit(s[0]) || !IsHexDigit(s[1]) then None
    else match Decode(s[2..])
      case None => None
      case Some(rest) => Some([Value(s[0]) * 16 + Value(s[1])] + rest)
  }

  lemma {:induction false} EncodeShape(b: seq<byte>)
    ensures |Encode(b)| == 2 * |b| && IsLowerHex(Encode(b)) && IsHex(Encode(b))
  {
    if b != [] {
      EncodeShape(b[1..]);
    }
  }

  lemma {:induction false} DecodeEncode(b: seq<byte>)
    ensures Decode(Encode(b)) == Some(b)
  {
    if b != [] {
      DecodeEncode(b[1..]);
      assert Encode(b)[2..] == Encode(b[1..]);
      assert b == [b[0]] + b[1..];
    }
  }

  lemma DigitValue(c: char)
    requires IsHexDigit(c)
    ensures Value(c) < 16 && Digit(Value(c)) == ToLower(c)
  {
  }

  lemma NibblesOfByte(high: nat, low: nat)
    requires high < 16 && low < 16
    ensures (high * 16 + low) / 16 == high && (high * 16 + low) % 16 == low
  {
  }

  lemma IsHexFromThird(s: string)
    requires |s| >= 2
    ensures IsHex(s) <==> IsHexDigit(s[0]) && IsHexDigit(s[1]) && IsHex(s[2..])
  {
    forall i | 2 <= i < |s| && IsHex(s[2..]) ensures IsHexDigit(s[i]) {
      assert s[i] == s[2..][i - 2];
    }
  }

  /** Decoding succeeds exactly on hex digits in even number, and re-encoding what it read
      gives the input back in lower case. */
  lemma {:induction false} EncodeDecode(s: string)
    ensures Decode(s).Some? <==> |s| % 2 == 0 && IsHex(s)
    ensures Decode(s).Some? ==> 2 * |Decode(s).value| == |s| && Encode(Decode(s).value) == Lowercase(s)
  {
    if |s| >= 2 {
      IsHexFromThird(s);
      EncodeDecode(s[2..]);
      if Decode(s).Some? {
        EncodeDecodeStep(s, Decode(s[2..]).value);
      }
    }
  }

  lemma EncodeDecodeStep(s: string, rest: seq<byte>)
    requires |s| >= 2 && IsHexDigit(s[0]) && IsHexDigit(s[1]) && Encode(rest) == Lowercase(s[2..])
    ensures Encode([Value(s[0]) * 16 + Value(s[1])] + rest) == Lowercase(s)
  {
    EncodeByte(Value(s[0]), Value(s[1]), rest);
    DigitValue(s[0]);
    DigitValue(s[1]);
    assert Lowercase(s) == [ToLower(s[0]), ToLower(s[1])] + Lowercase(s[2..]);
  }

  lemma EncodeByte(high: nat, low: nat, rest: seq<byte>)
    requires high < 16 && low < 16
    ensures Encode([high * 16 + low] + rest) == [Digit(high), Digit(low)] + Encode(rest)
  {
    NibblesOfByte(high, low);
    assert ([high * 16 + low] + rest)[1..] == rest;
  }

  /** Lower-case hex text is left alone by lower-casing. */
  lemma LowerHexIsLowercase(s: string)
    requires IsLowerHex(s)
    ensures Lowercase(s) == s && IsHex(s)
  {
  }

  /** The sixteen digits in the order of their values, read in either case. */
  lemma DigitTable(n: nat)
    requires n < 16
    ensures Digit(n) == "0123456789abcdef"[n]
    ensures IsHexDigit("0123456789ABCDEF"[n]) && Value("0123456789ABCDEF"[n]) == n
    ensures IsHexDigit("0123456789abcdef"[n]) && Value("0123456789abcdef"[n]) == n
  {
  }

  /** Two digits a byte, the high half first. */
  lemma {:induction false} EncodePlaces(b: seq<byte>, i: nat)
    requires i < |b|
    ensures |Encode(b)| == 2 * |b| && IsHex(Encode(b))
    ensures Value(Encode(b)[2 * i]) * 16 + Value(Encode(b)[2 * i + 1]) == b[i]
  {
    EncodeShape(b);
    if i == 0 {
      DigitTable(b[0] / 16);
      DigitTable(b[0] % 16);
    } else {
      EncodePlaces(b[1..], i - 1);
      assert Encode(b)[2..] == Encode(b[1..]);
    }
  }

}
