/** Field elements as base64url text: a big-endian number without redundant leading zeros. */
module FieldElement {
  import opened Prelude
  import opened Base64Url

  /** The number that a big-endian byte string stands for. */
  function BigEndian(b: seq<byte>): nat {
    if b == [] then 0 else BigEndian(b[..|b| - 1]) * 256 + b[|b| - 1]
  }

  /** The shortest non-empty big-endian form of a number. */
  function Minimal(n: nat): seq<byte> {
    if n < 256 then [n] else Minimal(n / 256) + [n % 256]
  }

  /** Non-empty, with no leading zero except in the one-byte form of zero. */
  predicate IsMinimal(b: seq<byte>) {
    b != [] && (b[0] == 0 ==> |b| == 1)
  }

  lemma {:induction false} MinimalIsMinimal(n: nat)
    ensures BigEndian(Minimal(n)) == n && IsMinimal(Minimal(n))
    ensures Minimal(n)[0] == 0 <==> n == 0
  {
    if n >= 256 {
      MinimalIsMinimal(n / 256);
    } else {
      assert BigEndian([]) == 0 && [n][..0] == [];
    }
  }

  lemma {:induction false} MinimalIsUnique(b: seq<byte>)
    requires IsMinimal(b)
    ensures Minimal(BigEndian(b)) == b && (b[0] != 0 ==> BigEndian(b) > 0)
  {
    if |b| == 1 {
      assert BigEndian(b) == b[0] as int by { assert b[..0] == []; }
    } else {
      var front, last := b[..|b| - 1], b[|b| - 1];
      MinimalIsUnique(front);
      MinimalStep(BigEndian(front), last);
      assert b == front + [last];
    }
  }

  lemma MinimalStep(n: nat, last: byte)
    requires n > 0
    ensures Minimal(n * 256 + last) == Minimal(n) + [last]
  {
    assert (n * 256 + last) / 256 == n && (n * 256 + last) % 256 == last;
  }

  lemma {:induction false} LeadingZero(b: seq<byte>)
    requires b != [] && b[0] == 0
    ensures BigEndian(b) == BigEndian(b[1..])
  {
    if |b| > 1 {
      LeadingZero(b[..|b| - 1]);
      assert b[..|b| - 1][1..] == b[1..][..|b| - 2];
    }
  }

  /** `encode_field_element`. */
  method EncodeFieldElement(value: seq<byte>) returns (text: string)
    ensures text == Encode(Minimal(BigEndian(value)))
  {
    var start := 0;
    while start + 1 < |value| && value[start] == 0
      invariant start == 0 || start < |value|
      invariant BigEndian(value[start..]) == BigEndian(value)
    {
      LeadingZero(value[start..]);
      assert value[start..][1..] == value[start + 1..];
      start := start + 1;
    }
    if value == [] {
      return Encode([0]);
    }
    MinimalIsUnique(value[start..]);
    return Encode(value[start..]);
  }

  /** Encoding and decoding again keeps the number and drops every redundant leading zero. */
  lemma FieldElementRoundTrip(value: seq<byte>, lenient: bool)
    ensures var text := Encode(Minimal(BigEndian(value)));
            exists b :: DecodeLoose(text, lenient) == Ok(b) && BigEndian(b) == BigEndian(value) && IsMinimal(b)
  {
    var b := Minimal(BigEndian(value));
    MinimalIsMinimal(BigEndian(value));
    EncodeShape(b);
    LooseOnSymbols(Encode(b), lenient);
    DecodeEncode(b, lenient);
  }

  /** Two byte strings encode alike exactly when they stand for the same number. */
  lemma SameEncodingSameNumber(a: seq<byte>, b: seq<byte>)
    ensures Encode(Minimal(BigEndian(a))) == Encode(Minimal(BigEndian(b))) <==> BigEndian(a) == BigEndian(b)
  {
    DecodeEncode(Minimal(BigEndian(a)), false);
    DecodeEncode(Minimal(BigEndian(b)), false);
    MinimalIsMinimal(BigEndian(a));
    MinimalIsMinimal(BigEndian(b));
  }

  /** Decoding and encoding again gives the text back exactly when the decoded bytes already
      are a minimal form; `AAE`, which decodes to 0 1, comes back as `AQ`. */
  lemma DecodeThenEncode(text: string, b: seq<byte>)
    requires AllSymbols(text) && DecodeLoose(text, false) == Ok(b)
    ensures Encode(Minimal(BigEndian(b))) == text <==> IsMinimal(b)
  {
    LooseOnSymbols(text, false);
    EncodeDecode(text, false);
    assert Encode(b) == text;
    MinimalIsMinimal(BigEndian(b));
    DecodeEncode(b, false);
    DecodeEncode(Minimal(BigEndian(b)), false);
    if IsMinimal(b) {
      MinimalIsUnique(b);
    }
  }

  /** The number of a byte string by the places of its bytes: in front of `k` bytes a byte counts 256^k times. */
  lemma {:induction false} BigEndianPlaces(front: seq<byte>, back: seq<byte>)
    ensures BigEndian(front + back) == BigEndian(front) * Power256(|back|) + BigEndian(back)
    ensures forall b: byte :: BigEndian([b]) == b as int
    decreases |back|
  {
    forall b: byte ensures BigEndian([b]) == b as int {
      assert [b][..0] == [];
    }
    if back == [] {
      assert front + back == front;
    } else {
      var rest, last := back[..|back| - 1], back[|back| - 1];
      BigEndianPlaces(front, rest);
      assert (front + back)[..|front + back| - 1] == front + rest;
      Distribute(BigEndian(front), Power256(|rest|), BigEndian(rest), last as int);
    }
  }

  function Power256(k: nat): nat { if k == 0 then 1 else Power256(k - 1) * 256 }

  lemma Distribute(a: int, p: int, b: int, last: int)
    ensures (a * p + b) * 256 + last == a * (p * 256) + (b * 256 + last)
  {
  }

}
