/** `did:midnight:<network>:<id>` strings: printing, validation and decomposition. */
module MidnightDid {
  import opened Prelude
  import opened Text
  import Base64Url
  import Hex

  datatype Network = Undeployed | DevNet | Testnet | Mainnet | Preview | Preprod | Offchain

  datatype SubjectId = Contract(address: Bytes32) | StateHash(hash: Bytes32)

  datatype DidError =
    | BadContractAddress
    | BadOffchainStateHash
    | BadFormat
    | UnknownNetwork
    | BadMethodSpecificId
    | OffchainNotLowercase
    | BadOffchainStateEncoding

  /** `did:midnight:`. */
  const SCHEME: string := "did" + ":" + "midnight" + ":"

  /** `as_wire_str`. */
  function WireName(network: Network): string {
    match network
    case Undeployed => "undeployed"
    case DevNet => "devnet"
    case Testnet => "testnet"
    case Mainnet => "mainnet"
    case Preview => "preview"
    case Preprod => "preprod"
    case Offchain => "offchain"
  }

  /** `from_wire_str`. */
  function FromWireName(name: string): Option<Network> {
    if name == "undeployed" then Some(Undeployed)
    else if name == "devnet" then Some(DevNet)
    else if name == "testnet" then Some(Testnet)
    else if name == "mainnet" then Some(Mainnet)
    else if name == "preview" then Some(Preview)
    else if name == "preprod" then Some(Preprod)
    else if name == "offchain" then Some(Offchain)
    else None
  }

  /** `create_midnight_did_string`. */
  function Create(id: string, network: Network): string {
    SCHEME + WireName(network) + ":" + id
  }

  /** `is_base64url_segment`. */
  predicate IsBase64UrlSegment(s: string) {
    Base64Url.IsSymbolText(s) && |s| % 4 != 1
  }

  /** `HashOutput::from_hex`. */
  function FromHex(s: string): Option<Bytes32> {
    if |s| != 64 then None
    else match Hex.Decode(s)
      case None => None
      case Some(b) => AsBytes32(b)
  }

  /** `parse_offchain_state_hash`. */
  function ParseStateHash(s: string): Result<Bytes32, DidError> {
    if !Hex.IsLowerHex64(s) then Err(BadOffchainStateHash)
    else match FromHex(s)
      case None => Err(BadOffchainStateHash)
      case Some(h) => Ok(h)
  }

  function Part(parts: seq<string>, i: nat): string {
    if i < |parts| then parts[i] else ""
  }

  /** `parse_midnight_did_string`. */
  function ParseString(input: string): Result<string, DidError> {
    if !(SCHEME <= input) then Err(BadFormat)
    else
      var parts := Split(input, ':');
      var net, id := Part(parts, 2), Part(parts, 3);
      if net == "offchain" && |parts| != 4 && |parts| != 5 then Err(BadFormat)
      else if net != "offchain" && |parts| != 4 then Err(BadFormat)
      else if FromWireName(net).None? then Err(UnknownNetwork)
      else if !Hex.IsHex64(id) then Err(BadMethodSpecificId)
      else if net == "offchain" && !Hex.IsLowerHex64(id) then Err(OffchainNotLowercase)
      else if net == "offchain" && |parts| == 5 && !IsBase64UrlSegment(parts[4]) then Err(BadOffchainStateEncoding)
      else Ok(input)
  }

  /** `parse_midnight_did`. */
  function Parse(did: string): Result<(Network, SubjectId), DidError> {
    var parts := Split(did, ':');
    match FromWireName(Part(parts, 2))
    case None => Err(UnknownNetwork)
    case Some(Offchain) =>
      (match FromHex(Part(parts, 3))
       case None => Err(BadOffchainStateHash)
       case Some(h) => Ok((Offchain, StateHash(h))))
    case Some(network) =>
      match FromHex(Lowercase(Part(parts, 3)))
      case None => Err(BadContractAddress)
      case Some(a) => Ok((network, Contract(a)))
  }

  function Subject(network: Network, id: Bytes32): SubjectId {
    if network == Offchain then StateHash(id) else Contract(id)
  }

  function IdBytes(subject: SubjectId): Bytes32 {
    match subject
    case Contract(a) => a
    case StateHash(h) => h
  }

  lemma WireNames(network: Network)
    ensures FromWireName(WireName(network)) == Some(network)
    ensures ':' !in WireName(network) && Lowercase(WireName(network)) == WireName(network)
  {
  }

  lemma WireNameOf(name: string)
    requires FromWireName(name).Some?
    ensures WireName(FromWireName(name).value) == name
  {
  }

  lemma SplitOne(s: string)
    requires ':' !in s
    ensures Split(s, ':') == [s]
  {
  }

  lemma SplitAt(head: string, tail: string)
    requires ':' !in head
    ensures Split(head + ":" + tail, ':') == [head] + Split(tail, ':')
  {
    var s := head + ":" + tail;
    assert s[..|head|] == head && s[|head| + 1..] == tail;
    FindIs(s, ':', |head|);
  }

  lemma Regroup(a: string, b: string, c: string, d: string, e: string)
    ensures a + b + c + d + e == a + b + (c + d + e)
  {
  }

  lemma SplitTwice(a: string, b: string, rest: string)
    requires ':' !in a && ':' !in b
    ensures Split(a + ":" + b + ":" + rest, ':') == [a, b] + Split(rest, ':')
  {
    Regroup(a, ":", b, ":", rest);
    SplitAt(a, b + ":" + rest);
    SplitAt(b, rest);
    assert [a] + ([b] + Split(rest, ':')) == [a, b] + Split(rest, ':');
  }

  /** The printed strings, network by network. */
  lemma PrintedDid(id: string, network: Network, name: string)
    requires (network, name) in
               {(Undeployed, "undeployed"), (DevNet, "devnet"), (Testnet, "testnet"), (Mainnet, "mainnet"),
                (Preview, "preview"), (Preprod, "preprod"), (Offchain, "offchain")}
    ensures Create(id, network) == "did:midnight:" + name + ":" + id
  {
    SchemeText();
  }

  lemma SchemeText()
    ensures SCHEME == "did:midnight:"
  {
  }

  /** The first two pieces of anything with the Midnight scheme are `did` and `midnight`. */
  lemma SplitScheme(rest: string)
    ensures Split(SCHEME + rest, ':') == ["did", "midnight"] + Split(rest, ':')
  {
    SplitTwice("did", "midnight", rest);
  }

  lemma WireNameHasNoColon(network: Network)
    ensures ':' !in WireName(network)
  {
  }

  lemma AppendAll<T>(a: seq<T>, b: seq<T>, c: seq<T>)
    ensures a + b + c == a + (b + c)
  {
  }

  lemma CreateIs(id: string, network: Network)
    ensures Create(id, network) == SCHEME + (WireName(network) + ":" + id)
  {
    Regroup(SCHEME, "", WireName(network), ":", id);
    AppendNothing(SCHEME);
  }

  lemma AppendNothing(s: string)
    ensures s + "" == s
  {
  }

  /** The pieces of a printed DID, whatever follows the network. */
  lemma SplitCreated(id: string, network: Network)
    ensures Split(Create(id, network), ':') == ["did", "midnight"] + [WireName(network)] + Split(id, ':')
  {
    WireNameHasNoColon(network);
    CreateIs(id, network);
    SplitScheme(WireName(network) + ":" + id);
    SplitAt(WireName(network), id);
    AppendAll(["did", "midnight"], [WireName(network)], Split(id, ':'));
  }

  lemma HexHasNoColon(s: string)
    requires Hex.IsHex(s)
    ensures ':' !in s
  {
    assert !Hex.IsHexDigit(':');
  }

  lemma FromHexOfHex(b: Bytes32)
    ensures Hex.IsLowerHex64(Hex.Encode(b)) && Hex.IsHex64(Hex.Encode(b))
    ensures FromHex(Hex.Encode(b)) == Some(b) && FromHex(Lowercase(Hex.Encode(b))) == Some(b)
  {
    Hex.EncodeShape(b);
    Hex.DecodeEncode(b);
    Hex.LowerHexIsLowercase(Hex.Encode(b));
  }

  lemma HexOfFromHex(s: string)
    requires Hex.IsHex64(s)
    ensures FromHex(s).Some? && Hex.Encode(FromHex(s).value) == Lowercase(s)
  {
    Hex.EncodeDecode(s);
  }

  /** Printing and parsing again gives the network and the identifier back. */
  lemma PrintThenParse(network: Network, id: Bytes32)
    ensures var did := Create(Hex.Encode(id), network);
            ParseString(did) == Ok(did) && Parse(did) == Ok((network, Subject(network, id)))
  {
    var text := Hex.Encode(id);
    FromHexOfHex(id);
    ShortFormPieces(network, text);
    CreateIs(text, network);
    WireNames(network);
  }

  /** The strings that are accepted: a known network and 64 hex digits, in lower case when
      off-chain; an off-chain string may carry one more base64url segment. */
  ghost predicate IsShortForm(s: string, network: Network, id: string) {
    s == Create(id, network) && Hex.IsHex64(id) && (network == Offchain ==> Hex.IsLowerHex64(id))
  }

  ghost predicate IsLongForm(s: string, id: string, state: string) {
    s == Create(id, Offchain) + ":" + state && Hex.IsLowerHex64(id) && IsBase64UrlSegment(state)
  }

  lemma FourPieces(name: string, id: string)
    ensures ["did", "midnight"] + [name] + [id] == ["did", "midnight", name, id]
  {
  }

  lemma ShortFormPieces(network: Network, id: string)
    requires Hex.IsHex64(id)
    ensures Split(Create(id, network), ':') == ["did", "midnight", WireName(network), id]
  {
    HexHasNoColon(id);
    SplitCreated(id, network);
    SplitOne(id);
    FourPieces(WireName(network), id);
  }

  lemma ShortFormAccepted(s: string, network: Network, id: string)
    requires IsShortForm(s, network, id)
    ensures ParseString(s) == Ok(s) && Split(s, ':') == ["did", "midnight", WireName(network), id]
  {
    ShortFormPieces(network, id);
    CreateIs(id, network);
    WireNames(network);
  }

  lemma FivePieces(name: string, id: string, state: string)
    ensures ["did", "midnight"] + [name] + ([id] + [state]) == ["did", "midnight", name, id, state]
  {
  }

  lemma CreateExtends(id: string, network: Network, state: string)
    ensures Create(id, network) + ":" + state == Create(id + ":" + state, network)
  {
    var prefix := SCHEME + WireName(network) + ":";
    AppendAll(prefix, id, ":");
    AppendAll(prefix, id + ":", state);
  }

  lemma SplitLongForm(id: string, state: string)
    requires ':' !in id && ':' !in state
    ensures Split(Create(id, Offchain) + ":" + state, ':') == ["did", "midnight", "offchain", id, state]
  {
    CreateExtends(id, Offchain, state);
    SplitCreated(id + ":" + state, Offchain);
    SplitAt(id, state);
    SplitOne(state);
    FivePieces(WireName(Offchain), id, state);
  }

  lemma SymbolsHaveNoColon(s: string)
    requires Base64Url.AllSymbols(s)
    ensures ':' !in s
  {
    assert !Base64Url.IsSymbol(':');
  }

  lemma LongFormAccepted(s: string, id: string, state: string)
    requires IsLongForm(s, id, state)
    ensures ParseString(s) == Ok(s) && Split(s, ':') == ["did", "midnight", "offchain", id, state]
  {
    Hex.LowerHexIsLowercase(id);
    HexHasNoColon(id);
    SymbolsHaveNoColon(state);
    SplitLongForm(id, state);
    CreateExtends(id, Offchain, state);
    CreateIs(id + ":" + state, Offchain);
  }

  /** Exactly the short and the long forms are accepted. */
  lemma AcceptedStrings(s: string)
    ensures ParseString(s).Ok? <==>
            || (exists network, id :: IsShortForm(s, network, id))
            || (exists id, state :: IsLongForm(s, id, state))
  {
    if network, id :| IsShortForm(s, network, id) {
      ShortFormAccepted(s, network, id);
    } else if id, state :| IsLongForm(s, id, state) {
      LongFormAccepted(s, id, state);
    } else if ParseString(s).Ok? {
      AcceptedParts(s);
    }
  }

  lemma JoinTwo(a: string, b: string)
    ensures Join([a, b], ':') == a + ":" + b
  {
    assert [a, b][1..] == [b];
  }

  lemma JoinThree(a: string, b: string, c: string)
    ensures Join([a, b, c], ':') == a + ":" + b + ":" + c
  {
    JoinTwo(b, c);
    assert [a, b, c][1..] == [b, c];
    Regroup(a, ":", b, ":", c);
  }

  /** The pieces after the scheme, put together again. */
  lemma JoinAfterScheme(rest: string, tail: seq<string>)
    requires tail == Split(rest, ':')
    ensures |tail| == 2 ==> rest == tail[0] + ":" + tail[1]
    ensures |tail| == 3 ==> rest == tail[0] + ":" + tail[1] + ":" + tail[2]
  {
    JoinSplit(rest, ':');
    if |tail| == 2 {
      assert tail == [tail[0], tail[1]];
      JoinTwo(tail[0], tail[1]);
    } else if |tail| == 3 {
      assert tail == [tail[0], tail[1], tail[2]];
      JoinThree(tail[0], tail[1], tail[2]);
    }
  }

  lemma Flatten(p: string, a: string, b: string, c: string)
    ensures p + (a + ":" + b) == p + a + ":" + b
    ensures p + (a + ":" + b + ":" + c) == p + a + ":" + b + ":" + c
  {
  }

  /** What the checks on an accepted string say about the pieces after the scheme. */
  lemma AcceptedTail(rest: string, tail: seq<string>)
    requires ParseString(SCHEME + rest).Ok? && tail == Split(rest, ':')
    ensures |tail| == 2 || (|tail| == 3 && tail[0] == "offchain" && IsBase64UrlSegment(tail[2]))
    ensures FromWireName(tail[0]).Some? && Hex.IsHex64(tail[1])
    ensures tail[0] == "offchain" ==> Hex.IsLowerHex64(tail[1])
  {
    SplitScheme(rest);
    var parts := ["did", "midnight"] + tail;
    assert Part(parts, 2) == tail[0];
  }

  /** The parts that an accepted string is made of. */
  lemma AcceptedParts(s: string)
    requires ParseString(s).Ok?
    ensures || (exists network, id :: IsShortForm(s, network, id))
            || (exists id, state :: IsLongForm(s, id, state))
  {
    var rest := s[|SCHEME|..];
    var tail := Split(rest, ':');
    assert s == SCHEME + rest;
    AcceptedTail(rest, tail);
    JoinAfterScheme(rest, tail);
    WireNameOf(tail[0]);
    var network := FromWireName(tail[0]).value;
    if |tail| == 2 {
      Flatten(SCHEME, tail[0], tail[1], "");
      assert IsShortForm(s, network, tail[1]);
    } else {
      Flatten(SCHEME, tail[0], tail[1], tail[2]);
      assert IsLongForm(s, tail[1], tail[2]);
    }
  }

  lemma ParseShortForm(s: string, network: Network, id: string)
    requires IsShortForm(s, network, id)
    ensures FromHex(Lowercase(id)).Some?
    ensures Parse(s) == Ok((network, Subject(network, FromHex(Lowercase(id)).value)))
  {
    ShortFormAccepted(s, network, id);
    WireNames(network);
    LowercaseTwice(id);
    HexOfFromHex(Lowercase(id));
    if network == Offchain {
      Hex.LowerHexIsLowercase(id);
    }
  }

  lemma LowercaseCreated(network: Network, id: string)
    ensures Lowercase(Create(id, network)) == Create(Lowercase(id), network)
  {
    WireNames(network);
    LowercaseConcat(SCHEME, WireName(network));
    LowercaseConcat(SCHEME + WireName(network), ":");
    LowercaseConcat(SCHEME + WireName(network) + ":", id);
    assert Lowercase(SCHEME) == SCHEME;
  }

  /** Parsing an accepted four-part string and printing it again lower-cases its hex digits and
      changes nothing else. */
  lemma ParseThenPrint(s: string, network: Network, id: string)
    requires IsShortForm(s, network, id)
    ensures Parse(s).Ok? && Parse(s).value.0 == network
    ensures Create(Hex.Encode(IdBytes(Parse(s).value.1)), Parse(s).value.0) == Lowercase(s)
  {
    ParseShortForm(s, network, id);
    LowercaseTwice(id);
    HexOfFromHex(Lowercase(id));
    LowercaseCreated(network, id);
  }

  lemma LowercaseTwice(s: string)
    requires Hex.IsHex64(s)
    ensures Hex.IsHex64(Lowercase(s)) && Lowercase(Lowercase(s)) == Lowercase(s)
  {
  }

  lemma LowercaseConcat(a: string, b: string)
    ensures Lowercase(a + b) == Lowercase(a) + Lowercase(b)
  {
  }

  /** Why a string is refused: its scheme, the number of its parts, its network, its id or its state, in
      this order. The parts are those after the scheme. */
  lemma ParseStringErrors(s: string, rest: string, parts: seq<string>)
    requires s == SCHEME + rest && parts == Split(rest, ':')
    ensures var offchain, r := parts[0] == "offchain", ParseString(s);
            var counted := |parts| == 2 || (offchain && |parts| == 3);
            var known := parts[0] in ["undeployed", "devnet", "testnet", "mainnet", "preview", "preprod", "offchain"];
            && (!counted ==> r == Err(BadFormat))
            && (counted && !known ==> r == Err(UnknownNetwork))
            && (counted && known && !Hex.IsHex64(parts[1]) ==> r == Err(BadMethodSpecificId))
            && (counted && offchain && Hex.IsHex64(parts[1]) && !Hex.IsLowerHex64(parts[1]) ==>
                  r == Err(OffchainNotLowercase))
            && (offchain && |parts| == 3 && Hex.IsLowerHex64(parts[1]) && !IsBase64UrlSegment(parts[2]) ==>
                  r == Err(BadOffchainStateEncoding))
  {
    SplitScheme(rest);
    var all := ["did", "midnight"] + parts;
    assert Part(all, 2) == parts[0];
    if |parts| > 1 {
      assert Part(all, 3) == parts[1];
      if Hex.IsLowerHex64(parts[1]) {
        Hex.LowerHexIsLowercase(parts[1]);
      }
    }
    KnownNetworks(parts[0]);
  }

  lemma KnownNetworks(name: string)
    ensures FromWireName(name).Some? <==>
            name in ["undeployed", "devnet", "testnet", "mainnet", "preview", "preprod", "offchain"]
  {
  }
}
