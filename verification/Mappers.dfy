/** From domain values to what the contract stores. */
module Mappers {
  import opened Prelude
  import opened Text
  import opened DidTypes
  import opened Foreign
  import opened DidDocument
  import opened LedgerUtils
  import Base64Url
  import Contract
  import Hex
  import MidnightDid

  datatype ApiError =
    | InvalidArgument
    | SubjectOfController
    | LedgerId(error: LedgerUtilsError)
    | Coordinate(codec: Base64Url.CodecError)
    | ContractFailed
    | RelationAlreadyContains(relation: Relation)
    | RelationMissing(relation: Relation)

  /** `get_did_subject`. */
  function DidSubject(address: Bytes32, network: MidnightDid.Network): string {
    MidnightDid.Create(Hex.Encode(address), network)
  }

  function OfLedgerUtils<T>(r: Result<T, LedgerUtilsError>): Result<T, ApiError> {
    match r
    case Ok(v) => Ok(v)
    case Err(e) => Err(LedgerId(e))
  }

  function OfCodec<T>(r: Result<T, Base64Url.CodecError>): Result<T, ApiError> {
    match r
    case Ok(v) => Ok(v)
    case Err(e) => Err(Coordinate(e))
  }

  /** `assert_midnight_key_profile`. */
  predicate HasMidnightProfile(jwk: PublicKeyJwk) {
    match jwk.kty
    case OKP => Contract.SupportedOkpCurve(jwk.crv) && jwk.y.None?
    case EC => Contract.SupportedEcCurve(jwk.crv) && jwk.y.Some?
    case _ => false
  }

  /** `public_key_jwk_to_ledger`. Extension members are dropped. */
  function PublicKeyJwkToLedger(jwk: PublicKeyJwk): Result<Contract.LedgerJwk, ApiError> {
    if "d" in jwk.extensions then Err(InvalidArgument)
    else match CoordinateLength(jwk.kty, jwk.crv, X)
      case None => Err(InvalidArgument)
      case Some(xLength) =>
        var x :- OfCodec(Base64Url.DecodeExact(jwk.x, xLength, false));
        match jwk.y
        case None => Ok(Contract.LedgerJwk(jwk.kty, jwk.crv, jwk.x, ""))
        case Some(y) =>
          match CoordinateLength(jwk.kty, jwk.crv, Y)
          case None => Err(InvalidArgument)
          case Some(yLength) =>
            var decoded :- OfCodec(Base64Url.DecodeExact(y, yLength, false));
            Ok(Contract.LedgerJwk(jwk.kty, jwk.crv, jwk.x, y))
  }

  /** `verification_method_to_ledger`. */
  function VerificationMethodToLedger(subject: string, m: VerificationMethod): Result<Contract.LedgerMethod, ApiError> {
    if !m.typ.JsonWebKey? then Err(InvalidArgument)
    else if !HasMidnightProfile(m.publicKeyJwk) then Err(InvalidArgument)
    else if m.controller != subject then Err(SubjectOfController)
    else
      var id :- OfLedgerUtils(NormalizeBoundFragmentId(m.id, subject));
      var jwk :- PublicKeyJwkToLedger(m.publicKeyJwk);
      Ok(Contract.LedgerMethod(id, m.typ, jwk))
  }

  /** A Schnorr-Jubjub method of the API layer; its constructor rejects the empty id. */
  datatype ApiSchnorrMethod = ApiSchnorrMethod(id: string, publicKey: Contract.Point)

  /** `schnorr_jubjub_verification_method_to_ledger`. */
  function SchnorrMethodToLedger(subject: string, m: ApiSchnorrMethod): Result<Contract.SchnorrMethod, ApiError> {
    var id :- OfLedgerUtils(NormalizeBoundFragmentId(m.id, subject));
    Ok(Contract.SchnorrMethod(id, m.publicKey))
  }

  function EntryJson(e: EndpointEntry): Json {
    match e
    case UriEntry(u) => JsonString(u)
    case ObjectEntry(m) => JsonObject(m)
  }

  function EndpointJson(e: ServiceEndpoint): Json {
    match e
    case Uri(u) => JsonString(u)
    case Object(m) => JsonObject(m)
    case Array(entries) => JsonArray(seq(|entries|, i requires 0 <= i < |entries| => EntryJson(entries[i])))
  }

  /** `service_endpoint_to_ledger`. */
  function EndpointToLedger(lib: Libraries, e: ServiceEndpoint): string {
    lib.printJson(EndpointJson(NormalizeEndpoint(lib, e)))
  }

  /** `service_to_ledger`. */
  function ServiceToLedger(lib: Libraries, subject: string, s: Service): Result<Contract.LedgerService, ApiError> {
    var endpoint := EndpointToLedger(lib, s.endpoint);
    var typ :- OfLedgerUtils(ServiceTypeToLedger(lib, s.typ));
    var id :- OfLedgerUtils(NormalizeBoundFragmentId(s.id, subject));
    Ok(Contract.LedgerService(id, typ, endpoint))
  }

  // ---------------------------------------------------------------------------
  // What the stored values are like
  // ---------------------------------------------------------------------------

  /** The subject of a contract is a DID. */
  lemma SubjectIsDid(address: Bytes32, network: MidnightDid.Network)
    ensures var did := DidSubject(address, network);
            "did:" <= did && '#' !in did && IsDidString(did)
    ensures MidnightDid.Parse(DidSubject(address, network)) == Ok((network, MidnightDid.Subject(network, address)))
  {
    var did := DidSubject(address, network);
    MidnightDid.PrintThenParse(network, address);
    Hex.EncodeShape(address);
    NoDelimiters(Hex.Encode(address), network);
    MidnightDid.SplitCreated(Hex.Encode(address), network);
    SchemeFirst(MidnightDid.WireName(network), ":", Hex.Encode(address));
  }

  lemma SchemeFirst(a: string, b: string, c: string)
    ensures var s := MidnightDid.SCHEME + a + b + c; "did:" <= s && |s| >= 5
  {
    var scheme := MidnightDid.SCHEME;
    assert scheme[..4] == "did:" && |scheme| == 13;
    assert (scheme + a + b + c)[..13] == scheme;
  }

  predicate Plain(s: string) { '/' !in s && '?' !in s && '#' !in s }

  lemma NoDelimiters(id: string, network: MidnightDid.Network)
    requires Hex.IsHex(id)
    ensures Plain(MidnightDid.Create(id, network))
  {
    assert !Hex.IsHexDigit('/') && !Hex.IsHexDigit('?') && !Hex.IsHexDigit('#');
    assert Plain(id);
    var name := MidnightDid.WireName(network);
    assert Plain(name);
    assert Plain(MidnightDid.SCHEME);
    PlainConcat(MidnightDid.SCHEME, name);
    PlainConcat(MidnightDid.SCHEME + name, ":");
    PlainConcat(MidnightDid.SCHEME + name + ":", id);
  }

  lemma PlainConcat(a: string, b: string)
    requires Plain(a) && Plain(b)
    ensures Plain(a + b)
  {
  }

  /** A stored key that is read back as a valid domain key: supported, with coordinates of the
      length of its profile, and without a second coordinate exactly when it is an OKP key. */
  ghost predicate StoredJwk(jwk: Contract.LedgerJwk) {
    && ProfileLength(jwk.kty, jwk.crv).Some?
    && IsCoordinate(jwk.x, ProfileLength(jwk.kty, jwk.crv).value)
    && match jwk.kty
       case OKP => Contract.SupportedOkpCurve(jwk.crv) && jwk.y == ""
       case EC => Contract.SupportedEcCurve(jwk.crv) && IsCoordinate(jwk.y, 32)
       case _ => false
  }

  /** The contract accepts every mapped key, and what is stored is complete. */
  lemma MappedJwk(jwk: PublicKeyJwk)
    requires HasMidnightProfile(jwk) && PublicKeyJwkToLedger(jwk).Ok?
    ensures StoredJwk(PublicKeyJwkToLedger(jwk).value)
  {
    var length := CoordinateLength(jwk.kty, jwk.crv, X);
    CoordinateDecodes(jwk.x, length.value);
    if jwk.y.Some? {
      CoordinateDecodes(jwk.y.value, 32);
    }
  }

  /** A valid domain method with a Midnight profile, owned by the DID, is mapped exactly when its id
      is bound to the DID; the contract then supports it. */
  lemma MappedMethod(lib: Libraries, subject: string, m: VerificationMethod)
    requires IsValidMethod(lib, m) && HasMidnightProfile(m.publicKeyJwk) && m.typ.JsonWebKey? && m.controller == subject
    ensures VerificationMethodToLedger(subject, m).Ok? <==> NormalizeBoundFragmentId(m.id, subject).Ok?
    ensures VerificationMethodToLedger(subject, m).Ok? ==>
              var vm := VerificationMethodToLedger(subject, m).value;
              Contract.Supported(vm) && StoredJwk(vm.publicKeyJwk) && IsLedgerId(vm.id)
  {
    ValidJwkMaps(m.publicKeyJwk);
    MappedJwk(m.publicKeyJwk);
    if NormalizeBoundFragmentId(m.id, subject).Ok? {
      BoundIdShape(m.id, subject, subject);
    }
  }

  /** What is stored of a method: its normalised id and the given key, with an empty second coordinate
      for none. */
  lemma MappedFields(subject: string, m: VerificationMethod, stored: Contract.LedgerMethod)
    requires VerificationMethodToLedger(subject, m) == Ok(stored)
    ensures m.controller == subject && NormalizeBoundFragmentId(m.id, subject) == Ok(stored.id)
    ensures stored.typ == JsonWebKey == m.typ
    ensures stored.publicKeyJwk.kty == m.publicKeyJwk.kty && stored.publicKeyJwk.crv == m.publicKeyJwk.crv
    ensures stored.publicKeyJwk.x == m.publicKeyJwk.x
    ensures m.publicKeyJwk.y == if stored.publicKeyJwk.y == "" then None else Some(stored.publicKeyJwk.y)
  {
    MappedJwk(m.publicKeyJwk);
    if m.publicKeyJwk.kty.EC? {
      var b :| |b| == 32 && stored.publicKeyJwk.y == Base64Url.Encode(b);
      Base64Url.EncodeShape(b);
    }
  }

  /** Which methods are refused, and why: the type, the profile, the owner, the id and the coordinates are
      looked at in this order. */
  lemma RefusedMethods(subject: string, m: VerificationMethod)
    ensures var r, id := VerificationMethodToLedger(subject, m), NormalizeBoundFragmentId(m.id, subject);
            && (!m.typ.JsonWebKey? || !HasMidnightProfile(m.publicKeyJwk) ==> r == Err(InvalidArgument))
            && (m.typ.JsonWebKey? && HasMidnightProfile(m.publicKeyJwk) && m.controller != subject ==>
                  r == Err(SubjectOfController))
            && (m.typ.JsonWebKey? && HasMidnightProfile(m.publicKeyJwk) && m.controller == subject && id.Err? ==>
                  r == Err(LedgerId(id.error)))
  {
  }

  /** The profiles that the API layer stores: OKP keys of four curves without and EC keys of two curves
      with a second coordinate. */
  lemma MidnightProfiles(jwk: PublicKeyJwk)
    ensures HasMidnightProfile(jwk) <==>
            (jwk.kty, jwk.crv, jwk.y.Some?) in
              {(OKP, Ed25519, false), (OKP, X25519, false), (OKP, BLS12381G1, false), (OKP, BLS12381G2, false),
               (EC, P256, true), (EC, Secp256k1, true)}
  {
  }

  /** A Schnorr-Jubjub method is stored under its normalised id with the given point. */
  lemma MappedPoint(subject: string, m: ApiSchnorrMethod, stored: Contract.SchnorrMethod)
    ensures SchnorrMethodToLedger(subject, m) == Ok(stored) <==>
            NormalizeBoundFragmentId(m.id, subject) == Ok(stored.id) && stored.publicKey == m.publicKey
  {
  }

  /** A service is stored under its normalised id, with its type as text and its endpoint as JSON in
      normal form. */
  lemma MappedService(lib: Libraries, subject: string, s: Service, stored: Contract.LedgerService)
    requires lib.JsonRoundTrips() && ServiceToLedger(lib, subject, s) == Ok(stored)
    ensures NormalizeBoundFragmentId(s.id, subject) == Ok(stored.id)
    ensures ServiceTypeToLedger(lib, s.typ) == Ok(stored.typ)
    ensures match s.endpoint
            case Uri(u) => lib.parseJson(stored.serviceEndpoint) == Some(JsonString(lib.normalizeUri(u)))
            case Object(o) => lib.parseJson(stored.serviceEndpoint) == Some(JsonObject(lib.normalizeObject(o)))
            case Array(entries) =>
              exists items: seq<Json> ::
                && lib.parseJson(stored.serviceEndpoint) == Some(JsonArray(items)) && |items| == |entries|
                && forall i :: 0 <= i < |items| ==>
                     match entries[i]
                     case UriEntry(u) => items[i] == JsonString(lib.normalizeUri(u))
                     case ObjectEntry(o) => items[i] == JsonObject(lib.normalizeObject(o))
  {
    var j := EndpointJson(NormalizeEndpoint(lib, s.endpoint));
    assert lib.PrintsWell(j);
    if s.endpoint.Array? {
      assert lib.parseJson(stored.serviceEndpoint) == Some(JsonArray(j.items));
    }
  }

  lemma ValidJwkMaps(jwk: PublicKeyJwk)
    requires IsValidJwk(jwk) && HasMidnightProfile(jwk)
    ensures PublicKeyJwkToLedger(jwk).Ok?
  {
    var length := ProfileLength(jwk.kty, jwk.crv).value;
    assert CoordinateLength(jwk.kty, jwk.crv, X) == Some(length);
    CoordinateDecodes(jwk.x, length);
    assert DecodesTo(jwk.x, length);
    if jwk.y.Some? {
      CoordinateDecodes(jwk.y.value, 32);
      assert DecodesTo(jwk.y.value, 32);
    }
  }

  /** The stored id of a valid method is a hash and a key fragment. This needs the id to be a valid
      key id: of arbitrary accepted text, only the leading hash survives. */
  lemma MappedKeyId(lib: Libraries, subject: string, id: string)
    requires IsDidKeyId(lib, id) && NormalizeBoundFragmentId(id, subject).Ok?
    ensures var r := NormalizeBoundFragmentId(id, subject).value;
            "#" <= r && IsKeyFragment(r[1..])
  {
    if "did:" <= id {
      KeyIdUrlTrimmed(id);
      BoundUrlFragment(subject, id);
    } else {
      KeyReferenceBound(lib, subject, id);
    }
  }

  lemma KeyIdUrlTrimmed(id: string)
    requires "did:" <= id && IsKeyFragment(ExtractKeyFragment(id))
    ensures Trim(id) == id
  {
    var f := ExtractKeyFragment(id);
    assert id[0] == 'd' && id[|id| - 1] == f[|f| - 1] && IsKeyFragmentChar(f[|f| - 1]);
    TrimIsTrimmed(id);
  }

  lemma BoundUrlFragment(subject: string, id: string)
    requires "did:" <= id && Trim(id) == id && IsKeyFragment(ExtractKeyFragment(id))
    requires NormalizeBoundFragmentId(id, subject).Ok?
    ensures NormalizeBoundFragmentId(id, subject).value == "#" + ExtractKeyFragment(id)
  {
    assert id[0] == 'd';
    assert id[0] != '/' && id[0] != '#';
  }

  lemma KeyReferenceBound(lib: Libraries, subject: string, id: string)
    requires IsDidKeyId(lib, id) && !("did:" <= id) && NormalizeBoundFragmentId(id, subject).Ok?
    ensures var r := NormalizeBoundFragmentId(id, subject).value;
            "#" <= r && IsKeyFragment(r[1..])
  {
    assert !IsKeyFragmentChar('#') && !IsKeyFragmentChar('/') && !IsKeyFragmentChar('?');
    if !("#" <= id) {
      assert '#' !in id;
      assert ("#" + id)[1..] == id;
    }
  }
}
