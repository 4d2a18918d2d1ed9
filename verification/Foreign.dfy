/** The foreign libraries that the code calls, as parameters: serde_json, url and the URI
    normaliser built on url. */
module Foreign {
  import opened Text
  import opened Prelude

  type JsonMap = map<string, Json>

  /** The numbers that serde_json holds: unsigned and negative 64-bit integers, and finite floats by
      their bit pattern. */
  datatype JsonNumber = Unsigned(u: U64) | Negative(i: NegativeI64) | Float(bits: FiniteBits)

  type U64 = x: int | 0 <= x < 0x1_0000_0000_0000_0000

  type NegativeI64 = x: int | -0x8000_0000_0000_0000 <= x < 0 witness -1

  type FiniteBits = x: int | 0 <= x < 0x1_0000_0000_0000_0000 && x / 0x10_0000_0000_0000 % 0x800 != 0x7FF

  datatype Json =
    | JsonNull
    | JsonBool(b: bool)
    | JsonNum(n: JsonNumber)
    | JsonString(s: string)
    | JsonArray(items: seq<Json>)
    | JsonObject(members: JsonMap)

  datatype Libraries = Libraries(
    printJson: Json -> string,
    parseJson: string -> Option<Json>,
    normalizeUri: string -> string,
    normalizeObject: JsonMap -> JsonMap,
    joinsBaseUrl: string -> bool)
  {
    /** What is taken for granted about serde_json: a printed value parses back to itself, has no
        whitespace around it, and is an array exactly when it starts with a bracket. */
    ghost predicate JsonRoundTrips() {
      forall v :: PrintsWell(v)
    }

    ghost predicate PrintsWell(v: Json) {
      var text := printJson(v);
      && parseJson(text) == Some(v)
      && text != "" && Trimmed(text)
      && (text[0] == '[' <==> v.JsonArray?)
    }
  }
}
