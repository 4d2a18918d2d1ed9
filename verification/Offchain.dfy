/** Off-chain DIDs: the state, its payload and the self-certifying long form. */
module Offchain {
  import opened Prelude
  import opened DidTypes
  import opened Text
  import opened DidDocument
  import opened Mod1Frame
  import Base64Url
  import Hex
  import opened MidnightDid

  const MAX_VERIFICATION_METHODS := 4
  const MAX_SERVICES := 4
  const MAX_ALSO_KNOWN_AS := 4

  type U16 = x: int | 0 <= x < 0x1_0000

  datatype Relationships = Relationships(
    authentication: bool, assertionMethod: bool, keyAgreement: bool,
    capabilityInvocation: bool, capabilityDelegation: bool)

  datatype OffchainMethod = OffchainMethod(id: string, publicKeyJwk: PublicKeyJwk, relationships: Relationships)

  datatype OffchainService = OffchainService(id: string, typ: string, serviceEndpoint: string)

  datatype OffchainState = OffchainState(
    version: U16, alsoKnownAs: seq<string>, verificationMethod: seq<OffchainMethod>, service: seq<OffchainService>)

  datatype OffchainError =
    | BadVersion
    | TooManyAlsoKnownAs
    | NoVerificationMethod
    | TooManyVerificationMethods
    | TooManyServices
    | FragmentRequired
    | UnsupportedKeyType
    | EmptyServiceField
    | BadBase64Url
    | NonCanonicalBase64Url
    | NotOffchain
    | MissingEncodedState
    | StateHashMismatch
    | Framing(frameError: FrameError)
    | Decoding(codecError: Base64Url.CodecError)
    | Did(didError: DidError)
    | Foreign(code: nat)

  /** What the crate takes from outside: the chunk serializer, the hash, and whether the base64
      engine tolerates trailing bits. */
  datatype Codec = Codec(
    toChunks: OffchainState -> Result<Chunks, OffchainError>,
    fromChunks: Chunks -> Result<OffchainState, OffchainError>,
    hash: seq<byte> -> Bytes32,
    lenient: bool)

  // ---------------------------------------------------------------------------
  // Shape
  // ---------------------------------------------------------------------------

  /** The pairs for which `key_kind_from_jwk` has a tag. */
  predicate HasKeyKind(jwk: PublicKeyJwk) {
    match (jwk.kty, jwk.crv)
    case (EC, Jubjub) => true
    case (OKP, Ed25519) => true
    case (OKP, X25519) => true
    case (EC, P256) => true
    case (EC, Secp256k1) => true
    case (OKP, BLS12381G1) => true
    case (OKP, BLS12381G2) => true
    case _ => false
  }

  predicate StartsWithHash(s: string) { |s| > 0 && s[0] == '#' }

  function MethodFault(m: OffchainMethod): Option<OffchainError> {
    if !StartsWithHash(m.id) then Some(FragmentRequired)
    else if !HasKeyKind(m.publicKeyJwk) then Some(UnsupportedKeyType)
    else None
  }

  function ServiceFault(s: OffchainService): Option<OffchainError> {
    if !StartsWithHash(s.id) then Some(FragmentRequired)
    else if s.typ == "" || s.serviceEndpoint == "" then Some(EmptyServiceField)
    else None
  }

  function CountFault(s: OffchainState): Option<OffchainError> {
    if s.version == 0 then Some(BadVersion)
    else if |s.alsoKnownAs| > MAX_ALSO_KNOWN_AS then Some(TooManyAlsoKnownAs)
    else if s.verificationMethod == [] then Some(NoVerificationMethod)
    else if |s.verificationMethod| > MAX_VERIFICATION_METHODS then Some(TooManyVerificationMethods)
    else if |s.service| > MAX_SERVICES then Some(TooManyServices)
    else None
  }

  /** The first fault of a list, if it has one. */
  function FirstFault<T>(items: seq<T>, fault: T -> Option<OffchainError>): Option<OffchainError> {
    if items == [] then None
    else if fault(items[0]).Some? then fault(items[0])
    else FirstFault(items[1..], fault)
  }

  function ShapeFault(s: OffchainState): Option<OffchainError> {
    if CountFault(s).Some? then CountFault(s)
    else if FirstFault(s.verificationMethod, MethodFault).Some? then FirstFault(s.verificationMethod, MethodFault)
    else FirstFault(s.service, ServiceFault)
  }

  lemma {:induction false} FirstFaultSkips<T>(items: seq<T>, fault: T -> Option<OffchainError>, k: nat)
    requires k <= |items| && forall i :: 0 <= i < k ==> fault(items[i]).None?
    ensures FirstFault(items, fault) == FirstFault(items[k..], fault)
  {
    if k == 0 {
      assert items[0..] == items;
    } else {
      FirstFaultSkips(items[1..], fault, k - 1);
      assert items[1..][k - 1..] == items[k..];
    }
  }

  lemma NoFault<T>(items: seq<T>, fault: T -> Option<OffchainError>)
    ensures FirstFault(items, fault).None? <==> forall i :: 0 <= i < |items| ==> fault(items[i]).None?
  {
    if items != [] {
      NoFault(items[1..], fault);
      if forall i :: 0 <= i < |items[1..]| ==> fault(items[1..][i]).None? {
        forall i | 0 < i < |items| ensures fault(items[i]).None? {
          assert items[i] == items[1..][i - 1];
        }
      }
    }
  }

  /** `validate_state_shape`. */
  method ValidateStateShape(s: OffchainState) returns (r: Option<OffchainError>)
    ensures r == ShapeFault(s)
  {
    if s.version == 0 {
      return Some(BadVersion);
    }
    if |s.alsoKnownAs| > MAX_ALSO_KNOWN_AS {
      return Some(TooManyAlsoKnownAs);
    }
    if s.verificationMethod == [] {
      return Some(NoVerificationMethod);
    }
    if |s.verificationMethod| > MAX_VERIFICATION_METHODS {
      return Some(TooManyVerificationMethods);
    }
    if |s.service| > MAX_SERVICES {
      return Some(TooManyServices);
    }
    for i := 0 to |s.verificationMethod|
      invariant forall k :: 0 <= k < i ==> MethodFault(s.verificationMethod[k]).None?
    {
      FirstFaultSkips(s.verificationMethod, MethodFault, i);
      if !StartsWithHash(s.verificationMethod[i].id) {
        return Some(FragmentRequired);
      }
      if !HasKeyKind(s.verificationMethod[i].publicKeyJwk) {
        return Some(UnsupportedKeyType);
      }
    }
    NoFault(s.verificationMethod, MethodFault);
    for i := 0 to |s.service|
      invariant forall k :: 0 <= k < i ==> ServiceFault(s.service[k]).None?
    {
      FirstFaultSkips(s.service, ServiceFault, i);
      if !StartsWithHash(s.service[i].id) {
        return Some(FragmentRequired);
      }
      if s.service[i].typ == "" || s.service[i].serviceEndpoint == "" {
        return Some(EmptyServiceField);
      }
    }
    NoFault(s.service, ServiceFault);
    return None;
  }

  /** The states that the off-chain form admits. */
  predicate WellShaped(s: OffchainState) {
    && s.version != 0
    && |s.alsoKnownAs| <= MAX_ALSO_KNOWN_AS
    && 1 <= |s.verificationMethod| <= MAX_VERIFICATION_METHODS
    && |s.service| <= MAX_SERVICES
    && (forall m :: m in s.verificationMethod ==> StartsWithHash(m.id) && HasKeyKind(m.publicKeyJwk))
    && (forall v :: v in s.service ==> StartsWithHash(v.id) && v.typ != "" && v.serviceEndpoint != "")
  }

  lemma ShapeFaultMeaning(s: OffchainState)
    ensures ShapeFault(s).None? <==> WellShaped(s)
  {
    NoFault(s.verificationMethod, MethodFault);
    NoFault(s.service, ServiceFault);
    var ms, vs := s.verificationMethod, s.service;
    assert (forall m :: m in ms ==> MethodFault(m).None?) == forall i :: 0 <= i < |ms| ==> MethodFault(ms[i]).None?;
    assert (forall v :: v in vs ==> ServiceFault(v).None?) == forall i :: 0 <= i < |vs| ==> ServiceFault(vs[i]).None?;
  }

  // ---------------------------------------------------------------------------
  // Payloads
  // ---------------------------------------------------------------------------

  /** `from_base64url`. */
  function FromBase64Url(value: string, lenient: bool): Result<seq<byte>, OffchainError> {
    if !IsBase64UrlSegment(value) then Err(BadBase64Url)
    else match Base64Url.DecodeLoose(value, lenient)
      case Err(e) => Err(Decoding(e))
      case Ok(b) => if Base64Url.Encode(b) != value then Err(NonCanonicalBase64Url) else Ok(b)
  }

  lemma FromBase64UrlMeaning(value: string, b: seq<byte>, lenient: bool)
    ensures FromBase64Url(value, lenient) == Ok(b) <==> b != [] && value == Base64Url.Encode(b)
  {
    Base64Url.EncodeShape(b);
    Base64Url.DecodeEncode(b, lenient);
    if Base64Url.AllSymbols(value) && |value| % 4 != 1 {
      Base64Url.LooseOnSymbols(value, lenient);
    }
  }

  /** The frame that a state is turned into. */
  function FrameOf(codec: Codec, state: OffchainState): Result<seq<byte>, OffchainError> {
    if ShapeFault(state).Some? then Err(ShapeFault(state).value)
    else
      var chunks :- codec.toChunks(state);
      if Fits(chunks) then Ok(Frame(chunks)) else Err(Framing(Overflow))
  }

  /** `encode_offchain_midnight_did_state`; the encoding tag is a constant. */
  function EncodeState(codec: Codec, state: OffchainState): Result<string, OffchainError> {
    var frame :- FrameOf(codec, state);
    Ok(Base64Url.Encode(frame))
  }

  /** `decode_offchain_midnight_did_state` for the one encoding tag. */
  function DecodeState(codec: Codec, payload: string): Result<OffchainState, OffchainError> {
    var frame :- FromBase64Url(payload, codec.lenient);
    match Decode(frame)
    case Err(e) => Err(Framing(e))
    case Ok(chunks) =>
      var state :- codec.fromChunks(chunks);
      if ShapeFault(state).Some? then Err(ShapeFault(state).value) else Ok(state)
  }

  /** The serializer reads back what it writes for this state. */
  predicate RoundTrips(codec: Codec, state: OffchainState) {
    codec.toChunks(state).Ok? ==> codec.fromChunks(codec.toChunks(state).value) == Ok(state)
  }

  lemma FrameIsNotEmpty(chunks: Chunks)
    requires Fits(chunks)
    ensures Frame(chunks) != []
  {
    assert Frame(chunks)[0] == MAGIC[0];
  }

  /** Encoding succeeds exactly on well-shaped states that the serializer handles within the bounds
      of the frame, and decoding then gives the state back. */
  lemma EncodeThenDecode(codec: Codec, state: OffchainState)
    ensures EncodeState(codec, state).Ok? <==>
            WellShaped(state) && codec.toChunks(state).Ok? && Fits(codec.toChunks(state).value)
    ensures EncodeState(codec, state).Ok? && RoundTrips(codec, state) ==>
            DecodeState(codec, EncodeState(codec, state).value) == Ok(state)
  {
    ShapeFaultMeaning(state);
    if EncodeState(codec, state).Ok? {
      var chunks := codec.toChunks(state).value;
      FrameIsNotEmpty(chunks);
      FromBase64UrlMeaning(Base64Url.Encode(Frame(chunks)), Frame(chunks), codec.lenient);
      DecodeMeaning(Frame(chunks), chunks);
    }
  }

  // ---------------------------------------------------------------------------
  // Long form
  // ---------------------------------------------------------------------------

  datatype Parsed = Parsed(did: string, stateHash: Bytes32, payload: string)

  /** `create_offchain_midnight_did_string_from_state`. */
  function CreateShortForm(codec: Codec, state: OffchainState): Result<string, OffchainError> {
    var payload :- EncodeState(codec, state);
    var bytes :- FromBase64Url(payload, codec.lenient);
    Ok(Create(Hex.Encode(codec.hash(bytes)), Network.Offchain))
  }

  function OfDidError<T>(r: Result<T, DidError>): Result<T, OffchainError> {
    match r
    case Ok(v) => Ok(v)
    case Err(e) => Err(Did(e))
  }

  /** `create_long_form_offchain_midnight_did_string`. */
  function CreateLongForm(codec: Codec, state: OffchainState): Result<string, OffchainError> {
    var payload :- EncodeState(codec, state);
    var bytes :- FromBase64Url(payload, codec.lenient);
    var short := Create(Hex.Encode(codec.hash(bytes)), Network.Offchain);
    OfDidError(ParseString(short + ":" + payload))
  }

  /** `parse_long_form_offchain_midnight_did_string`. */
  function ParseLongForm(codec: Codec, input: string): Result<Parsed, OffchainError> {
    var did :- OfDidError(ParseString(input));
    CheckParts(codec, did, Split(input, ':'))
  }

  function CheckParts(codec: Codec, did: string, parts: seq<string>): Result<Parsed, OffchainError> {
    if Part(parts, 2) != "offchain" then Err(NotOffchain)
    else if |parts| != 5 then Err(MissingEncodedState)
    else
      var stateHash :- OfDidError(ParseStateHash(parts[3]));
      var bytes :- FromBase64Url(parts[4], codec.lenient);
      if codec.hash(bytes) != stateHash then Err(StateHashMismatch)
      else Ok(Parsed(did, stateHash, parts[4]))
  }

  /** The long form that certifies the bytes `b`. */
  function LongForm(codec: Codec, b: seq<byte>): string {
    Create(Hex.Encode(codec.hash(b)), Network.Offchain) + ":" + Base64Url.Encode(b)
  }

  lemma LongFormParses(codec: Codec, b: seq<byte>)
    requires b != []
    ensures var s := LongForm(codec, b);
            ParseString(s) == Ok(s)
            && ParseLongForm(codec, s) == Ok(Parsed(s, codec.hash(b), Base64Url.Encode(b)))
  {
    var id, payload := Hex.Encode(codec.hash(b)), Base64Url.Encode(b);
    FromHexOfHex(codec.hash(b));
    Base64Url.EncodeShape(b);
    FromBase64UrlMeaning(payload, b, codec.lenient);
    LongFormAccepted(LongForm(codec, b), id, payload);
    PartsCheck(codec, LongForm(codec, b), id, payload, b);
  }

  lemma PartsCheck(codec: Codec, did: string, id: string, payload: string, b: seq<byte>)
    requires ParseStateHash(id) == Ok(codec.hash(b)) && FromBase64Url(payload, codec.lenient) == Ok(b)
    ensures CheckParts(codec, did, ["did", "midnight", "offchain", id, payload])
         == Ok(Parsed(did, codec.hash(b), payload))
  {
  }

  /** The accepted long forms are exactly those that certify some non-empty byte string. What the
      bytes hold is not looked at: a string whose payload is no MOD1 frame at all is accepted. */
  lemma AcceptedLongForms(codec: Codec, input: string)
    ensures ParseLongForm(codec, input).Ok? <==> exists b: seq<byte> :: b != [] && input == LongForm(codec, b)
  {
    if ParseLongForm(codec, input).Ok? {
      var b := ParseThenPrint(codec, input);
    }
    if b: seq<byte> :| b != [] && input == LongForm(codec, b) {
      LongFormParses(codec, b);
    }
  }

  /** Printing the hash and the payload of an accepted long form gives back exactly the input. */
  lemma ParseThenPrint(codec: Codec, input: string) returns (b: seq<byte>)
    requires ParseLongForm(codec, input).Ok?
    ensures b != [] && input == LongForm(codec, b)
    ensures var p := ParseLongForm(codec, input).value;
            && p.stateHash == codec.hash(b) && p.payload == Base64Url.Encode(b)
            && input == Create(Hex.Encode(p.stateHash), Network.Offchain) + ":" + p.payload
  {
    var id, payload := LongFormOf(codec, input);
    LongFormAccepted(input, id, payload);
    b := FromBase64Url(payload, codec.lenient).value;
    FromBase64UrlMeaning(payload, b, codec.lenient);
    Hex.LowerHexIsLowercase(id);
    HexOfFromHex(id);
  }

  lemma LongFormOf(codec: Codec, input: string) returns (id: string, payload: string)
    requires ParseLongForm(codec, input).Ok?
    ensures IsLongForm(input, id, payload)
  {
    AcceptedParts(input);
    if network, short :| IsShortForm(input, network, short) {
      ShortFormAccepted(input, network, short);
      assert false;
    }
    id, payload :| IsLongForm(input, id, payload);
  }

  /** Creating a long form succeeds exactly when the state can be encoded, and gives the short form
      of the same state followed by the payload. */
  lemma LongFormExtendsShortForm(codec: Codec, state: OffchainState)
    ensures CreateLongForm(codec, state).Ok? <==> EncodeState(codec, state).Ok?
    ensures CreateLongForm(codec, state).Err? ==> CreateLongForm(codec, state).error == EncodeState(codec, state).error
    ensures CreateLongForm(codec, state).Ok? ==>
              CreateShortForm(codec, state).Ok?
              && CreateLongForm(codec, state).value
              == CreateShortForm(codec, state).value + ":" + EncodeState(codec, state).value
  {
    if FrameOf(codec, state).Ok? {
      CreateFromFrame(codec, state, FrameOf(codec, state).value);
    }
  }

  /** A created long form parses to itself, to the encoded payload and to the hash of the frame, and
      the payload decodes to the state. */
  lemma CreateThenParse(codec: Codec, state: OffchainState, did: string)
    requires CreateLongForm(codec, state) == Ok(did)
    ensures FrameOf(codec, state).Ok? && EncodeState(codec, state).Ok?
    ensures ParseLongForm(codec, did)
         == Ok(Parsed(did, codec.hash(FrameOf(codec, state).value), EncodeState(codec, state).value))
    ensures RoundTrips(codec, state) ==> DecodeState(codec, EncodeState(codec, state).value) == Ok(state)
  {
    var frame := FrameOf(codec, state).value;
    CreateFromFrame(codec, state, frame);
    LongFormParses(codec, frame);
    EncodeThenDecode(codec, state);
  }

  lemma CreateFromFrame(codec: Codec, state: OffchainState, frame: seq<byte>)
    requires FrameOf(codec, state) == Ok(frame)
    ensures frame != []
    ensures CreateLongForm(codec, state) == Ok(LongForm(codec, frame))
    ensures CreateShortForm(codec, state) == Ok(Create(Hex.Encode(codec.hash(frame)), Network.Offchain))
  {
    FrameIsNotEmpty(codec.toChunks(state).value);
    FromBase64UrlMeaning(Base64Url.Encode(frame), frame, codec.lenient);
    LongFormParses(codec, frame);
  }

  /** The payload is the frame of chunks that the serializer reads as this state. */
  ghost predicate PayloadHolds(codec: Codec, payload: string, chunks: Chunks, state: OffchainState) {
    && Fits(chunks) && payload == Base64Url.Encode(Frame(chunks))
    && codec.fromChunks(chunks) == Ok(state) && WellShaped(state)
  }

  /** Which payloads decode: the encoded frames of chunks that fit, that the serializer reads and whose
      state is well-shaped. */
  lemma PayloadDecodes(codec: Codec, payload: string, state: OffchainState)
    ensures DecodeState(codec, payload) == Ok(state) <==> exists chunks :: PayloadHolds(codec, payload, chunks, state)
  {
    ShapeFaultMeaning(state);
    if DecodeState(codec, payload) == Ok(state) {
      var frame := FromBase64Url(payload, codec.lenient).value;
      FromBase64UrlMeaning(payload, frame, codec.lenient);
      DecodeMeaning(frame, Decode(frame).value);
      assert PayloadHolds(codec, payload, Decode(frame).value, state);
    }
    if chunks :| PayloadHolds(codec, payload, chunks, state) {
      FrameIsNotEmpty(chunks);
      FromBase64UrlMeaning(payload, Frame(chunks), codec.lenient);
      DecodeMeaning(Frame(chunks), chunks);
    }
  }

  /** The payload of an accepted long form need not decode: the form that certifies a single zero byte
      is accepted, and its payload is no frame. */
  lemma AcceptedWithoutFrame(codec: Codec)
    ensures var input := LongForm(codec, [0]);
            && ParseLongForm(codec, input).Ok?
            && DecodeState(codec, ParseLongForm(codec, input).value.payload) == Err(Framing(ShortFrame))
  {
    LongFormParses(codec, [0]);
    FromBase64UrlMeaning(Base64Url.Encode([0]), [0], codec.lenient);
  }

  // ---------------------------------------------------------------------------
  // Limits, profiles and errors
  // ---------------------------------------------------------------------------

  /** The admitted states in numbers and profiles. */
  lemma WellShapedTable(s: OffchainState)
    ensures WellShaped(s) <==>
            && 1 <= s.version && |s.alsoKnownAs| <= 4 && 1 <= |s.verificationMethod| <= 4 && |s.service| <= 4
            && (forall m :: m in s.verificationMethod ==>
                  && "#" <= m.id
                  && (m.publicKeyJwk.kty, m.publicKeyJwk.crv) in
                       {(EC, Jubjub), (EC, P256), (EC, Secp256k1), (OKP, Ed25519), (OKP, X25519),
                        (OKP, BLS12381G1), (OKP, BLS12381G2)})
            && (forall v :: v in s.service ==> "#" <= v.id && v.typ != "" && v.serviceEndpoint != "")
  {
    forall m | m in s.verificationMethod ensures StartsWithHash(m.id) <==> "#" <= m.id {
    }
    forall v | v in s.service ensures StartsWithHash(v.id) <==> "#" <= v.id {
    }
  }

  /** Which fault a badly shaped state gets for its numbers, in the order of the checks. */
  lemma CountFaults(s: OffchainState)
    ensures var r, methods := ShapeFault(s), |s.verificationMethod|;
            && (s.version == 0 ==> r == Some(BadVersion))
            && (s.version > 0 && |s.alsoKnownAs| > 4 ==> r == Some(TooManyAlsoKnownAs))
            && (s.version > 0 && |s.alsoKnownAs| <= 4 && methods == 0 ==> r == Some(NoVerificationMethod))
            && (s.version > 0 && |s.alsoKnownAs| <= 4 && methods > 4 ==> r == Some(TooManyVerificationMethods))
            && (s.version > 0 && |s.alsoKnownAs| <= 4 && 1 <= methods <= 4 && |s.service| > 4 ==>
                  r == Some(TooManyServices))
  {
  }

  /** Which error a payload gets that is not canonical base64url. */
  lemma FromBase64UrlErrors(value: string, lenient: bool)
    ensures value == "" || !Base64Url.AllSymbols(value) || |value| % 4 == 1 ==>
              FromBase64Url(value, lenient) == Err(BadBase64Url)
    ensures value != "" && Base64Url.AllSymbols(value) && |value| % 4 != 1 && !Base64Url.TrailingBitsZero(value) ==>
              FromBase64Url(value, lenient)
              == if lenient then Err(NonCanonicalBase64Url) else Err(Decoding(Base64Url.InvalidCharacter))
  {
    if Base64Url.AllSymbols(value) && |value| % 4 != 1 {
      Base64Url.LooseOnSymbols(value, lenient);
      Base64Url.EncodeDecode(value, lenient);
    }
  }

  /** The long form as text. */
  lemma PrintedLongForm(codec: Codec, b: seq<byte>)
    ensures LongForm(codec, b)
         == "did:midnight:" + "offchain" + ":" + Hex.Encode(codec.hash(b)) + ":" + Base64Url.Encode(b)
  {
    PrintedDid(Hex.Encode(codec.hash(b)), Network.Offchain, "offchain");
  }

  /** Why a DID string is no long form: it is not off-chain, it has no state, or the state hashes to
      something else. */
  lemma LongFormErrors(codec: Codec, s: string, network: Network, id: string, b: seq<byte>)
    ensures IsShortForm(s, network, id) ==>
              ParseLongForm(codec, s) == Err(if network == Network.Offchain then MissingEncodedState else NotOffchain)
    ensures IsLongForm(s, id, Base64Url.Encode(b)) && FromHex(id) != Some(codec.hash(b)) ==>
              ParseLongForm(codec, s) == Err(StateHashMismatch)
    ensures ParseString(s).Err? ==> ParseLongForm(codec, s) == Err(Did(ParseString(s).error))
  {
    if IsShortForm(s, network, id) {
      ShortFormAccepted(s, network, id);
    }
    if IsLongForm(s, id, Base64Url.Encode(b)) {
      LongFormAccepted(s, id, Base64Url.Encode(b));
      Hex.LowerHexIsLowercase(id);
      HexOfFromHex(id);
      FromBase64UrlMeaning(Base64Url.Encode(b), b, codec.lenient);
    }
  }

}
