/** Unpadded base64url (section 5 of RFC 4648) and the canonical, fixed-length decoder. */
module Base64Url {
  import opened Prelude
  import opened Text

  type sextet = x: int | 0 <= x < 64

  /** `is_base64url_byte`. */
  predicate IsSymbol(c: char) { IsAlphanumeric(c) || c == '-' || c == '_' }

  /** `is_base64url_text`. */
  predicate IsSymbolText(s: string) { s != "" && AllSymbols(s) }

  predicate AllSymbols(s: string) { forall i :: 0 <= i < |s| ==> IsSymbol(s[i]) }

  function Symbol(n: sextet): char {
    if n < 26 then ('A' as int + n) as char
    else if n < 52 then ('a' as int + n - 26) as char
    else if n < 62 then ('0' as int + n - 52) as char
    else if n == 62 then '-'
    else '_'
  }

  function Value(c: char): sextet
    requires IsSymbol(c)
  {
    if 'A' <= c <= 'Z' then c as int - 'A' as int
    else if 'a' <= c <= 'z' then c as int - 'a' as int + 26
    else if IsDigit(c) then c as int - '0' as int + 52
    else if c == '-' then 62
    else 63
  }

  /** The bits of a byte string in groups of six; a short last group is filled with zeros. */
  function Pack(b: seq<byte>): seq<sextet> {
    if |b| == 0 then []
    else if |b| == 1 then [b[0] / 4, b[0] % 4 * 16]
    else if |b| == 2 then [b[0] / 4, b[0] % 4 * 16 + b[1] / 16, b[1] % 16 * 4]
    else [b[0] / 4, b[0] % 4 * 16 + b[1] / 16, b[1] % 16 * 4 + b[2] / 64, b[2] % 64] + Pack(b[3..])
  }

  function Byte0(v0: int, v1: int): int { v0 * 4 + v1 / 16 }

  function Byte1(v1: int, v2: int): int { v1 % 16 * 16 + v2 / 4 }

  function Byte2(v2: int, v3: int): int { v2 % 4 * 64 + v3 }

  /** The bytes in a list of sextets. A short tail of two or three sextets has four or two bits
      that belong to no byte; `lenient` says whether they may be non-zero. */
  function Unpack(v: seq<sextet>, lenient: bool): Option<seq<byte>> {
    if |v| == 0 then Some([])
    else if |v| == 1 then None
    else if |v| == 2 then
      if lenient || v[1] % 16 == 0 then Some([Byte0(v[0], v[1])]) else None
    else if |v| == 3 then
      if lenient || v[2] % 4 == 0 then Some([Byte0(v[0], v[1]), Byte1(v[1], v[2])]) else None
    else match Unpack(v[4..], lenient)
      case None => None
      case Some(rest) =>
        Some([Byte0(v[0], v[1]), Byte1(v[1], v[2]), Byte2(v[2], v[3])] + rest)
  }

  function SymbolsOf(v: seq<sextet>): string {
    seq(|v|, i requires 0 <= i < |v| => Symbol(v[i]))
  }

  function ValuesOf(t: string): seq<sextet>
    requires AllSymbols(t)
  {
    seq(|t|, i requires 0 <= i < |t| => Value(t[i]))
  }

  /** `encode_base64url`. */
  function Encode(b: seq<byte>): string { SymbolsOf(Pack(b)) }

  /** The decoding engine of the base64 crate. `URL_SAFE_NO_PAD` is the strict one, which wants
      the bits of a short tail that belong to no byte to be zero. */
  function EngineDecode(t: string, lenient: bool): Option<seq<byte>> {
    if AllSymbols(t) then Unpack(ValuesOf(t), lenient) else None
  }

  lemma ValueSymbol(n: sextet)
    ensures IsSymbol(Symbol(n)) && Value(Symbol(n)) == n
  {
  }

  lemma SymbolValue(c: char)
    requires IsSymbol(c)
    ensures Symbol(Value(c)) == c
  {
  }

  lemma SymbolsRoundTrip(v: seq<sextet>)
    ensures AllSymbols(SymbolsOf(v)) && ValuesOf(SymbolsOf(v)) == v
  {
    forall i | 0 <= i < |v| ensures IsSymbol(Symbol(v[i])) && Value(Symbol(v[i])) == v[i] {
      ValueSymbol(v[i]);
    }
  }

  lemma ValuesRoundTrip(t: string)
    requires AllSymbols(t)
    ensures SymbolsOf(ValuesOf(t)) == t
  {
    forall i | 0 <= i < |t| ensures Symbol(Value(t[i])) == t[i] {
      SymbolValue(t[i]);
    }
  }

  lemma {:induction false} PackLength(b: seq<byte>)
    ensures |Pack(b)| == (|b| * 4 + 2) / 3 && |Pack(b)| % 4 != 1
  {
    if |b| >= 3 {
      PackLength(b[3..]);
    }
  }

  lemma {:induction false} UnpackPack(b: seq<byte>, lenient: bool)
    ensures Unpack(Pack(b), lenient) == Some(b)
  {
    if |b| == 1 {
      assert b == [b[0]];
    } else if |b| == 2 {
      assert b == [b[0], b[1]];
    } else if |b| >= 3 {
      UnpackPack(b[3..], lenient);
      assert Pack(b)[4..] == Pack(b[3..]);
      BytesOfGroup(b[0], b[1], b[2]);
      assert b == [b[0], b[1], b[2]] + b[3..];
    }
  }

  lemma BytesOfGroup(b0: byte, b1: byte, b2: byte)
    ensures Byte0(b0 as int / 4, b0 as int % 4 * 16 + b1 as int / 16) == b0 as int
    ensures Byte1(b0 as int % 4 * 16 + b1 as int / 16, b1 as int % 16 * 4 + b2 as int / 64) == b1 as int
    ensures Byte2(b1 as int % 16 * 4 + b2 as int / 64, b2 as int % 64) == b2 as int
  {
    SixteenthPart(b0 as int % 4, b1 as int / 16);
    FourthPart(b1 as int % 16, b2 as int / 64);
  }

  lemma SixteenthPart(high: int, low: int)
    requires 0 <= low < 16
    ensures (high * 16 + low) / 16 == high && (high * 16 + low) % 16 == low
  {
  }

  lemma FourthPart(high: int, low: int)
    requires 0 <= low < 4
    ensures (high * 4 + low) / 4 == high && (high * 4 + low) % 4 == low
  {
  }

  /** The bits of a short tail that belong to no byte are zero. */
  predicate TailZero(v: seq<sextet>) {
    (|v| % 4 == 2 ==> v[|v| - 1] % 16 == 0) && (|v| % 4 == 3 ==> v[|v| - 1] % 4 == 0)
  }

  lemma {:induction false} UnpackAccepts(v: seq<sextet>, lenient: bool)
    ensures Unpack(v, lenient).Some? <==> |v| % 4 != 1 && (lenient || TailZero(v))
    ensures Unpack(v, lenient).Some? ==> |Unpack(v, lenient).value| == |v| * 3 / 4
  {
    if |v| >= 4 {
      UnpackAccepts(v[4..], lenient);
      TailZeroFromFifth(v);
      ThreeQuarters(|v|);
    }
  }

  lemma ThreeQuarters(n: nat)
    requires n >= 4
    ensures n * 3 / 4 == (n - 4) * 3 / 4 + 3 && (n - 4) % 4 == n % 4
  {
  }

  lemma PackTail2(v: seq<sextet>)
    requires |v| == 2
    ensures Pack([Byte0(v[0], v[1])]) == v <==> TailZero(v)
  {
    assert Byte0(v[0], v[1]) / 4 == v[0] && Byte0(v[0], v[1]) % 4 * 16 == v[1] - v[1] % 16;
  }

  lemma PackTail3(v: seq<sextet>)
    requires |v| == 3
    ensures Pack([Byte0(v[0], v[1]), Byte1(v[1], v[2])]) == v <==> TailZero(v)
  {
    assert Byte0(v[0], v[1]) / 4 == v[0] && Byte0(v[0], v[1]) % 4 == v[1] / 16;
    assert Byte1(v[1], v[2]) / 16 == v[1] % 16 && Byte1(v[1], v[2]) % 16 * 4 == v[2] - v[2] % 4;
  }

  lemma {:induction false} PackUnpack(v: seq<sextet>, lenient: bool)
    requires Unpack(v, lenient).Some?
    ensures Pack(Unpack(v, lenient).value) == v <==> TailZero(v)
  {
    if |v| == 2 {
      PackTail2(v);
    } else if |v| == 3 {
      PackTail3(v);
    } else if |v| >= 4 {
      PackUnpack(v[4..], lenient);
      PackUnpackGroup(v, Unpack(v[4..], lenient).value);
    }
  }

  lemma PackUnpackGroup(v: seq<sextet>, rest: seq<byte>)
    requires |v| >= 4 && (Pack(rest) == v[4..] <==> TailZero(v[4..]))
    ensures Pack([Byte0(v[0], v[1]), Byte1(v[1], v[2]), Byte2(v[2], v[3])] + rest) == v <==> TailZero(v)
  {
    PackGroup(v[0], v[1], v[2], v[3], rest);
    SameGroup(v, Pack(rest));
    TailZeroFromFifth(v);
  }

  lemma SameGroup(v: seq<sextet>, x: seq<sextet>)
    requires |v| >= 4
    ensures [v[0], v[1], v[2], v[3]] + x == v <==> x == v[4..]
  {
    var group := [v[0], v[1], v[2], v[3]];
    assert (group + x)[4..] == x;
    assert group + v[4..] == v;
  }

  lemma TailZeroFromFifth(v: seq<sextet>)
    requires |v| >= 4
    ensures TailZero(v) <==> TailZero(v[4..])
  {
  }

  lemma PackGroup(v0: sextet, v1: sextet, v2: sextet, v3: sextet, rest: seq<byte>)
    ensures Pack([Byte0(v0, v1), Byte1(v1, v2), Byte2(v2, v3)] + rest)
         == [v0, v1, v2, v3] + Pack(rest)
  {
    var b: seq<byte> := [Byte0(v0, v1), Byte1(v1, v2), Byte2(v2, v3)];
    assert (b + rest)[3..] == rest;
    assert b[0] / 4 == v0 && b[0] % 4 == v1 / 16;
    assert b[1] / 16 == v1 % 16 && b[1] % 16 == v2 / 4;
    assert b[2] / 64 == v2 % 4 && b[2] % 64 == v3;
  }

  /** Encoding uses only the 64 symbols and never leaves a lone one over. */
  lemma EncodeShape(b: seq<byte>)
    ensures AllSymbols(Encode(b)) && |Encode(b)| % 4 != 1 && |Encode(b)| == (|b| * 4 + 2) / 3
  {
    SymbolsRoundTrip(Pack(b));
    PackLength(b);
  }

  /** Whatever was encoded decodes to itself, under either engine setting. */
  lemma DecodeEncode(b: seq<byte>, lenient: bool)
    ensures EngineDecode(Encode(b), lenient) == Some(b)
  {
    SymbolsRoundTrip(Pack(b));
    UnpackPack(b, lenient);
  }

  /** The unused low bits of the last symbol, if there are any, are zero. */
  predicate TrailingBitsZero(t: string)
    requires AllSymbols(t)
  {
    TailZero(ValuesOf(t))
  }

  /** What the engine accepts: symbols only, no lone symbol, and zero trailing bits unless
      lenient. Canonical text (section 3.5 of RFC 4648) is exactly that with zero trailing bits. */
  lemma EncodeDecode(t: string, lenient: bool)
    ensures EngineDecode(t, lenient).Some? <==>
            AllSymbols(t) && |t| % 4 != 1 && (lenient || TrailingBitsZero(t))
    ensures EngineDecode(t, lenient).Some? ==>
              && |EngineDecode(t, lenient).value| == |t| * 3 / 4
              && (Encode(EngineDecode(t, lenient).value) == t <==> TrailingBitsZero(t))
  {
    if AllSymbols(t) {
      UnpackAccepts(ValuesOf(t), lenient);
      ValuesRoundTrip(t);
      if EngineDecode(t, lenient).Some? {
        PackUnpack(ValuesOf(t), lenient);
        SymbolsRoundTrip(Pack(EngineDecode(t, lenient).value));
      }
    }
  }

  // ---------------------------------------------------------------------------
  // The decoders built on the engine
  // ---------------------------------------------------------------------------

  datatype CodecError = InvalidCharacter | InvalidLength | UnexpectedByteLength | NotCanonical

  /** `trim_end_matches('=')`. */
  function StripPadding(s: string): string {
    if s != "" && s[|s| - 1] == '=' then StripPadding(s[..|s| - 1]) else s
  }

  /** `decode_base64url`: pads to a multiple of four, strips every trailing `=`, decodes. */
  function DecodeLoose(s: string, lenient: bool): Result<seq<byte>, CodecError> {
    if |s| % 4 == 1 then Err(InvalidLength)
    else
      var padded := if |s| % 4 == 2 then s + "==" else if |s| % 4 == 3 then s + "=" else s;
      match EngineDecode(StripPadding(padded), lenient)
      case None => Err(InvalidCharacter)
      case Some(b) => Ok(b)
  }

  /** `decode_base64url_bytes`. */
  function DecodeExact(s: string, expected: nat, lenient: bool): Result<seq<byte>, CodecError> {
    if !IsSymbolText(s) || |s| % 4 == 1 then Err(InvalidCharacter)
    else match DecodeLoose(s, lenient)
      case Err(_) => Err(InvalidCharacter)
      case Ok(b) =>
        if |b| != expected then Err(UnexpectedByteLength)
        else if Encode(b) != s then Err(NotCanonical)
        else Ok(b)
  }

  /** Padding that the decoder itself adds never changes what is decoded. */
  lemma PaddingIsIgnored(s: string, lenient: bool)
    requires |s| % 4 != 1
    ensures var d := EngineDecode(StripPadding(s), lenient);
            DecodeLoose(s, lenient) == (if d.None? then Err(InvalidCharacter) else Ok(d.value))
  {
    StripOne(s);
    StripOne(s + "=");
    assert s + "=" + "=" == s + "==";
  }

  lemma StripOne(s: string)
    ensures StripPadding(s + "=") == StripPadding(s)
  {
    assert (s + "=")[..|s|] == s;
  }

  lemma SymbolsHaveNoPadding(s: string)
    requires AllSymbols(s)
    ensures StripPadding(s) == s
  {
  }

  lemma LooseOnSymbols(s: string, lenient: bool)
    requires AllSymbols(s) && |s| % 4 != 1
    ensures var d := EngineDecode(s, lenient);
            DecodeLoose(s, lenient) == (if d.None? then Err(InvalidCharacter) else Ok(d.value))
  {
    PaddingIsIgnored(s, lenient);
    SymbolsHaveNoPadding(s);
  }

  /** The fixed-length decoder accepts exactly the encodings of the non-empty byte strings of
      the expected length, whichever way the engine treats trailing bits. */
  lemma DecodeExactMeaning(s: string, expected: nat, b: seq<byte>, lenient: bool)
    ensures DecodeExact(s, expected, lenient) == Ok(b) <==> |b| == expected > 0 && s == Encode(b)
  {
    EncodeShape(b);
    DecodeEncode(b, lenient);
    EncodeDecode(s, lenient);
    if AllSymbols(s) && |s| % 4 != 1 {
      LooseOnSymbols(s, lenient);
    }
  }

  /** Which error the decoder reports. With the strict engine the last, explicit comparison with
      the re-encoded text can never fail: non-zero trailing bits are already a bad character. */
  lemma DecodeExactErrors(s: string, expected: nat)
    ensures DecodeExact(s, expected, false) != Err(NotCanonical)
    ensures DecodeExact(s, expected, true) == Err(NotCanonical) <==>
            IsSymbolText(s) && |s| % 4 != 1 && |s| * 3 / 4 == expected && !TrailingBitsZero(s)
    ensures DecodeExact(s, expected, false) == Err(InvalidCharacter) <==>
            !(IsSymbolText(s) && |s| % 4 != 1 && TrailingBitsZero(s))
  {
    EncodeDecode(s, false);
    EncodeDecode(s, true);
    if IsSymbolText(s) && |s| % 4 != 1 {
      LooseOnSymbols(s, false);
      LooseOnSymbols(s, true);
    }
  }

  // ---------------------------------------------------------------------------
  // The alphabet and the places of the bits
  // ---------------------------------------------------------------------------

  const UPPER: string := "ABCDEFGHIJKLMNOPQRSTUVWXYZ"
  const LOWER: string := "abcdefghijklmnopqrstuvwxyz"
  const DIGITS: string := "0123456789"

  /** The 64 symbols in the order of their values (table 2 of RFC 4648). */
  lemma SymbolTable(n: sextet)
    ensures n < 26 ==> Symbol(n) == UPPER[n]
    ensures 26 <= n < 52 ==> Symbol(n) == LOWER[n - 26]
    ensures 52 <= n < 62 ==> Symbol(n) == DIGITS[n - 52]
    ensures n == 62 ==> Symbol(n) == '-'
    ensures n == 63 ==> Symbol(n) == '_'
  {
    if n < 26 {
      UpperIs(n);
    } else if n < 52 {
      LowerIs(n - 26);
    }
  }

  lemma UpperIs(k: nat)
    requires k < 26
    ensures UPPER[k] as int == 65 + k
  {
  }

  lemma LowerIs(k: nat)
    requires k < 26
    ensures LOWER[k] as int == 97 + k
  {
  }

  /** Three bytes and the four sextets of their group are the same 24-bit number, and a short tail is that
      number with zero bits at the end. */
  lemma {:induction false} PackPlaces(b: seq<byte>, group: nat)
    requires 3 * group < |b|
    ensures |Pack(b)| == (|b| * 4 + 2) / 3
    ensures var v, i := Pack(b), 4 * group;
            && (3 * group + 2 < |b| ==>
                  v[i] as int * 262_144 + v[i + 1] as int * 4_096 + v[i + 2] as int * 64 + v[i + 3] as int
                  == b[3 * group] as int * 65_536 + b[3 * group + 1] as int * 256 + b[3 * group + 2] as int)
            && (3 * group + 2 == |b| ==>
                  v[i] as int * 4_096 + v[i + 1] as int * 64 + v[i + 2] as int
                  == (b[3 * group] as int * 256 + b[3 * group + 1] as int) * 4)
            && (3 * group + 1 == |b| ==>
                  v[i] as int * 64 + v[i + 1] as int == b[3 * group] as int * 16)
  {
    PackLength(b);
    if group > 0 {
      PackPlaces(b[3..], group - 1);
      PackShifts(b, 4 * group);
    }
  }

  lemma PackShifts(b: seq<byte>, i: nat)
    requires |b| >= 3 && i >= 4
    ensures |Pack(b)| == 4 + |Pack(b[3..])|
    ensures forall k :: i <= k < |Pack(b)| ==> Pack(b)[k] == Pack(b[3..])[k - 4]
  {
  }

  /** The same of the printed symbols, by their values. */
  lemma EncodePlaces(b: seq<byte>, group: nat)
    requires 3 * group < |b|
    ensures AllSymbols(Encode(b)) && |Encode(b)| == (|b| * 4 + 2) / 3
    ensures var t, i := Encode(b), 4 * group;
            && (3 * group + 2 < |b| ==>
                  Value(t[i]) as int * 262_144 + Value(t[i + 1]) as int * 4_096 + Value(t[i + 2]) as int * 64
                    + Value(t[i + 3]) as int
                  == b[3 * group] as int * 65_536 + b[3 * group + 1] as int * 256 + b[3 * group + 2] as int)
            && (3 * group + 2 == |b| ==>
                  Value(t[i]) as int * 4_096 + Value(t[i + 1]) as int * 64 + Value(t[i + 2]) as int
                  == (b[3 * group] as int * 256 + b[3 * group + 1] as int) * 4)
            && (3 * group + 1 == |b| ==>
                  Value(t[i]) as int * 64 + Value(t[i + 1]) as int == b[3 * group] as int * 16)
  {
    PackPlaces(b, group);
    EncodeShape(b);
    SymbolsRoundTrip(Pack(b));
    var t := Encode(b);
    assert forall k :: 0 <= k < |t| ==> ValuesOf(t)[k] == Value(t[k]);
  }
}
