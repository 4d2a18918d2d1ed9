/** W3C DID documents: identifiers, public keys, cross-consistency validation, the builder. */
module DidDocument {
  import opened Prelude
  import opened Text
  import opened DidTypes
  import opened Foreign
  import Base64Url

  // ---------------------------------------------------------------------------
  // Identifiers
  // ---------------------------------------------------------------------------

  /** `is_relative_reference`. */
  predicate IsRelativeReference(lib: Libraries, s: string) {
    s != "" && Trim(s) == s && !HasUriScheme(s) && !("//" <= s) && lib.joinsBaseUrl(s)
  }

  predicate IsKeyFragmentChar(c: char) { IsAlphanumeric(c) || c in ".-_:%" }

  /** `is_key_fragment`. */
  predicate IsKeyFragment(s: string) {
    s != "" && forall i :: 0 <= i < |s| ==> IsKeyFragmentChar(s[i])
  }

  /** `extract_key_fragment`. */
  function ExtractKeyFragment(s: string): string {
    if "#" <= s then s[1..]
    else if "did:" <= s then
      match Find(s, '#')
      case None => ""
      case Some(i) => s[i + 1..]
    else s
  }

  /** `is_did_url`. */
  predicate IsDidUrl(s: string) {
    "did:" <= s && |s| >= 5 && |Split(s, ':')| >= 3
  }

  /** `is_did_string`. */
  predicate IsDidString(s: string) {
    IsDidUrl(s) && '/' !in s && '?' !in s && '#' !in s
  }

  /** `is_did_key_id`. */
  predicate IsDidKeyId(lib: Libraries, s: string) {
    (IsDidUrl(s) || IsRelativeReference(lib, s)) && IsKeyFragment(ExtractKeyFragment(s))
  }

  /** A DID URL has the scheme `did` and a colon after it. */
  lemma DidUrlMeaning(s: string)
    ensures IsDidUrl(s) <==> "did:" <= s && ':' in s[4..]
  {
    if "did:" <= s {
      assert s[..3] == "did" && s[3] == ':';
      FindIs(s, ':', 3);
      SplitStep(s, 3);
      PiecesOfTwo(s[4..]);
    }
  }

  lemma PiecesOfTwo(s: string)
    ensures |Split(s, ':')| >= 2 <==> ':' in s
  {
  }

  /** The characters of a key fragment by code point: letters, digits and `%`, `-`, `.`, `:`, `_`. */
  lemma KeyFragmentTable(c: char)
    ensures IsKeyFragmentChar(c) <==>
            || 97 <= c as int <= 122 || 65 <= c as int <= 90 || 48 <= c as int <= 57
            || c as int in [37, 45, 46, 58, 95]
  {
  }

  /** What is taken for granted about url: `#` and a key fragment is a relative reference. */
  ghost predicate FragmentsJoin(lib: Libraries) {
    forall f: string :: IsKeyFragment(f) ==> lib.joinsBaseUrl("#" + f)
  }

  lemma FragmentReference(lib: Libraries, f: string)
    requires FragmentsJoin(lib) && IsKeyFragment(f)
    ensures IsDidKeyId(lib, "#" + f)
  {
    var s := "#" + f;
    assert !IsWhitespace('#') && IsKeyFragmentChar(f[|f| - 1]);
    TrimIsTrimmed(s);
    assert s[1..] == f;
  }

  /** A relative reference is trimmed text without a scheme and no network path, which url joins. */
  lemma RelativeReferenceMeaning(lib: Libraries, s: string)
    ensures IsRelativeReference(lib, s) <==>
            && s != "" && !IsWhitespace(s[0]) && !IsWhitespace(s[|s| - 1])
            && !(exists i: nat :: SchemeEndsAt(s, i))
            && !("//" <= s) && lib.joinsBaseUrl(s)
  {
    TrimIsTrimmed(s);
    SchemeMeaning(s);
  }

  /** Text without a hash in front and without a DID is a key id if it is a reference and a key fragment. */
  lemma BareKeyId(lib: Libraries, s: string)
    requires !("#" <= s) && !("did:" <= s)
    ensures IsDidKeyId(lib, s) <==> IsRelativeReference(lib, s) && IsKeyFragment(s)
  {
  }

  /** A DID followed by a fragment is a key id, and its fragment is that fragment. */
  lemma AbsoluteKeyId(lib: Libraries, did: string, f: string)
    requires IsDidString(did)
    ensures IsDidUrl(did + "#" + f) && ExtractKeyFragment(did + "#" + f) == f
    ensures IsDidKeyId(lib, did + "#" + f) <==> IsKeyFragment(f)
  {
    AbsoluteUrlIsDidUrl(did, f);
    AbsoluteFragment(did, f);
  }

  lemma AbsoluteUrlIsDidUrl(did: string, f: string)
    requires IsDidUrl(did)
    ensures IsDidUrl(did + "#" + f)
  {
    SplitGrows(did, "#" + f);
    assert did + ("#" + f) == did + "#" + f;
  }

  lemma AbsoluteFragment(did: string, f: string)
    requires "did:" <= did && '#' !in did
    ensures ExtractKeyFragment(did + "#" + f) == f
  {
    var s := did + "#" + f;
    assert s[..|did|] == did && s[|did|] == '#' && s[|did| + 1..] == f;
    FindIs(s, '#', |did|);
    assert s[0] == 'd';
  }

  /** Appending text never lowers the number of pieces. */
  lemma {:induction false} SplitGrows(a: string, b: string)
    ensures |Split(a + b, ':')| >= |Split(a, ':')|
    decreases |a|
  {
    if Find(a, ':').Some? {
      var i := Find(a, ':').value;
      FindInFront(a, b, i);
      SplitGrows(a[i + 1..], b);
      SplitStep(a, i);
      SplitStep(a + b, i);
    }
  }

  lemma SplitStep(s: string, i: nat)
    requires Find(s, ':') == Some(i)
    ensures |Split(s, ':')| == 1 + |Split(s[i + 1..], ':')|
  {
  }

  lemma FindInFront(a: string, b: string, i: nat)
    requires Find(a, ':') == Some(i)
    ensures Find(a + b, ':') == Some(i) && (a + b)[i + 1..] == a[i + 1..] + b
  {
    assert (a + b)[..i] == a[..i];
    FindIs(a + b, ':', i);
  }

  // ---------------------------------------------------------------------------
  // Public keys
  // ---------------------------------------------------------------------------

  datatype PublicKeyJwk = PublicKeyJwk(
    kty: KeyType, crv: CurveType, x: string, y: Option<string>, extensions: JsonMap)

  datatype Coordinate = X | Y

  /** `public_key_jwk_coordinate_byte_length`. */
  function CoordinateLength(kty: KeyType, crv: CurveType, coordinate: Coordinate): Option<nat> {
    match coordinate
    case X =>
      (match crv
       case BLS12381G1 => if kty.OKP? then Some(48) else None
       case BLS12381G2 => if kty.OKP? then Some(96) else None
       case _ => Some(32))
    case Y => if kty.EC? then Some(32) else None
  }

  datatype JwkIssue = PrivateKeyMaterial | BadOkpCurve | BadEcCurve | UnexpectedY | MissingY | BadX | BadY

  predicate DecodesTo(s: string, length: nat) { Base64Url.DecodeExact(s, length, false).Ok? }

  /** The text is the canonical base64url form of some byte string of that positive length. */
  ghost predicate IsCoordinate(s: string, length: nat) {
    exists b :: |b| == length > 0 && s == Base64Url.Encode(b)
  }

  lemma CoordinateDecodes(s: string, length: nat)
    ensures DecodesTo(s, length) <==> IsCoordinate(s, length)
  {
    if DecodesTo(s, length) {
      Base64Url.DecodeExactMeaning(s, length, Base64Url.DecodeExact(s, length, false).value, false);
    }
    if b :| |b| == length > 0 && s == Base64Url.Encode(b) {
      Base64Url.DecodeExactMeaning(s, length, b, false);
    }
  }

  predicate IsOkpCurve(c: CurveType) { c.Ed25519? || c.X25519? || c.BLS12381G1? || c.BLS12381G2? }

  predicate IsEcCurve(c: CurveType) { c.Jubjub? || c.P256? || c.Secp256k1? }

  /** A coordinate with a known length is not the canonical text of that many bytes. */
  ghost predicate BadCoordinate(s: string, length: Option<nat>) { length.Some? && !IsCoordinate(s, length.value) }

  /** What each issue says about a key. */
  ghost predicate JwkClaim(jwk: PublicKeyJwk, issue: JwkIssue) {
    match issue
    case PrivateKeyMaterial => "d" in jwk.extensions
    case BadOkpCurve => jwk.kty.OKP? && !IsOkpCurve(jwk.crv)
    case BadEcCurve => jwk.kty.EC? && !IsEcCurve(jwk.crv)
    case UnexpectedY => jwk.kty.OKP? && jwk.y.Some?
    case MissingY => !jwk.kty.OKP? && jwk.y.None?
    case BadX => BadCoordinate(jwk.x, CoordinateLength(jwk.kty, jwk.crv, X))
    case BadY => jwk.y.Some? && BadCoordinate(jwk.y.value, CoordinateLength(jwk.kty, jwk.crv, Y))
  }

  /** The place of an issue in the order of the checks. */
  function JwkRank(issue: JwkIssue): nat {
    match issue
    case PrivateKeyMaterial => 0
    case BadOkpCurve => 1
    case BadEcCurve => 2
    case UnexpectedY => 3
    case MissingY => 4
    case BadX => 5
    case BadY => 6
  }

  /** In the order of the checks and without repetition. */
  predicate JwkInOrder(issues: seq<JwkIssue>) {
    forall i, j :: 0 <= i < j < |issues| ==> JwkRank(issues[i]) < JwkRank(issues[j])
  }

  /** The order in which a key is checked: private material, the curve, a second coordinate that is there
      or missing, then the coordinates themselves. */
  lemma JwkReportOrder()
    ensures JwkInOrder([PrivateKeyMaterial, BadOkpCurve, BadEcCurve, UnexpectedY, MissingY, BadX, BadY])
  {
  }

  /** The issues of the checks before the given place. */
  ghost predicate JwkFound(jwk: PublicKeyJwk, issues: seq<JwkIssue>, before: nat) {
    JwkInOrder(issues) && forall issue :: issue in issues <==> JwkRank(issue) < before && JwkClaim(jwk, issue)
  }

  lemma JwkFoundOne(jwk: PublicKeyJwk, issues: seq<JwkIssue>, issue: JwkIssue, claimed: bool)
    requires JwkFound(jwk, issues, JwkRank(issue)) && claimed == JwkClaim(jwk, issue)
    ensures JwkFound(jwk, if claimed then issues + [issue] else issues, JwkRank(issue) + 1)
  {
    forall other | JwkRank(other) == JwkRank(issue) ensures other == issue {
    }
    forall i | 0 <= i < |issues| ensures JwkRank(issues[i]) < JwkRank(issue) {
      assert issues[i] in issues;
    }
  }

  /** The issue is added if it holds. */
  method Report(jwk: PublicKeyJwk, found: seq<JwkIssue>, issue: JwkIssue, holds: bool) returns (issues: seq<JwkIssue>)
    requires JwkFound(jwk, found, JwkRank(issue)) && holds == JwkClaim(jwk, issue)
    ensures JwkFound(jwk, issues, JwkRank(issue) + 1)
  {
    JwkFoundOne(jwk, found, issue, holds);
    return if holds then found + [issue] else found;
  }

  /** `collect_issues`: exactly the issues that hold, in the order of the checks, each once. */
  method CollectIssues(jwk: PublicKeyJwk) returns (issues: seq<JwkIssue>)
    ensures JwkInOrder(issues)
    ensures forall issue :: issue in issues <==> JwkClaim(jwk, issue)
    ensures issues == [] <==> IsValidJwk(jwk)
  {
    var okpCurves := jwk.crv.Ed25519? || jwk.crv.X25519? || jwk.crv.BLS12381G1? || jwk.crv.BLS12381G2?;
    var ecCurves := jwk.crv.Jubjub? || jwk.crv.P256? || jwk.crv.Secp256k1?;
    issues := [];
    issues := Report(jwk, issues, PrivateKeyMaterial, "d" in jwk.extensions);
    issues := Report(jwk, issues, BadOkpCurve, jwk.kty.OKP? && !okpCurves);
    issues := Report(jwk, issues, BadEcCurve, jwk.kty.EC? && !ecCurves);
    issues := Report(jwk, issues, UnexpectedY, jwk.kty.OKP? && jwk.y.Some?);
    issues := Report(jwk, issues, MissingY, !jwk.kty.OKP? && jwk.y.None?);
    issues := CollectCoordinateIssues(jwk, issues);
    AllJwkIssues(jwk, issues);
  }

  /** The last two checks: whether the coordinates decode. */
  method CollectCoordinateIssues(jwk: PublicKeyJwk, found: seq<JwkIssue>) returns (issues: seq<JwkIssue>)
    requires JwkFound(jwk, found, 5)
    ensures JwkFound(jwk, issues, 7)
  {
    CoordinateClaims(jwk);
    issues := Report(jwk, found, BadX, FailsToDecode(jwk.x, CoordinateLength(jwk.kty, jwk.crv, X)));
    issues := Report(jwk, issues, BadY,
      jwk.y.Some? && FailsToDecode(jwk.y.value, CoordinateLength(jwk.kty, jwk.crv, Y)));
  }

  predicate FailsToDecode(s: string, length: Option<nat>) { length.Some? && !DecodesTo(s, length.value) }

  lemma CoordinateClaims(jwk: PublicKeyJwk)
    ensures JwkClaim(jwk, BadX) == FailsToDecode(jwk.x, CoordinateLength(jwk.kty, jwk.crv, X))
    ensures JwkClaim(jwk, BadY)
         == (jwk.y.Some? && FailsToDecode(jwk.y.value, CoordinateLength(jwk.kty, jwk.crv, Y)))
  {
    FailsIffBad(jwk.x, CoordinateLength(jwk.kty, jwk.crv, X));
    if jwk.y.Some? {
      FailsIffBad(jwk.y.value, CoordinateLength(jwk.kty, jwk.crv, Y));
    }
  }

  lemma FailsIffBad(s: string, length: Option<nat>)
    ensures FailsToDecode(s, length) == BadCoordinate(s, length)
  {
    if length.Some? {
      CoordinateDecodes(s, length.value);
    }
  }

  lemma AllJwkIssues(jwk: PublicKeyJwk, issues: seq<JwkIssue>)
    requires JwkFound(jwk, issues, 7)
    ensures forall issue :: issue in issues <==> JwkClaim(jwk, issue)
    ensures issues == [] <==> IsValidJwk(jwk)
  {
    ValidIffNoJwkClaim(jwk);
    if issues != [] {
      assert issues[0] in issues;
    }
  }

  lemma ValidIffNoJwkClaim(jwk: PublicKeyJwk)
    ensures IsValidJwk(jwk) <==> forall issue :: !JwkClaim(jwk, issue)
  {
    if forall issue :: !JwkClaim(jwk, issue) {
      assert !JwkClaim(jwk, PrivateKeyMaterial) && !JwkClaim(jwk, BadOkpCurve) && !JwkClaim(jwk, BadEcCurve)
          && !JwkClaim(jwk, UnexpectedY) && !JwkClaim(jwk, MissingY) && !JwkClaim(jwk, BadX) && !JwkClaim(jwk, BadY);
    }
  }

  /** The byte length of the coordinates of a fully checked key profile. */
  function ProfileLength(kty: KeyType, crv: CurveType): Option<nat> {
    match (kty, crv)
    case (OKP, Ed25519) => Some(32)
    case (OKP, X25519) => Some(32)
    case (OKP, BLS12381G1) => Some(48)
    case (OKP, BLS12381G2) => Some(96)
    case (EC, Jubjub) => Some(32)
    case (EC, P256) => Some(32)
    case (EC, Secp256k1) => Some(32)
    case _ => None
  }

  /** The coordinate lengths of the checked profiles, one by one. */
  lemma ProfileTable(kty: KeyType, crv: CurveType)
    ensures ProfileLength(kty, crv) == Some(32) <==>
            (kty, crv) in {(OKP, Ed25519), (OKP, X25519), (EC, Jubjub), (EC, P256), (EC, Secp256k1)}
    ensures ProfileLength(kty, crv) == Some(48) <==> (kty, crv) == (OKP, BLS12381G1)
    ensures ProfileLength(kty, crv) == Some(96) <==> (kty, crv) == (OKP, BLS12381G2)
    ensures ProfileLength(kty, crv).None? || ProfileLength(kty, crv).value in {32, 48, 96}
  {
  }

  /** What a valid key is. OKP keys have one coordinate and EC keys two, of the length that their
      profile fixes. RSA and oct keys get through with an unchecked second coordinate, and with an
      unchecked first one on the BLS curves. */
  ghost predicate IsValidJwk(jwk: PublicKeyJwk) {
    && "d" !in jwk.extensions
    && match jwk.kty
       case OKP =>
         && ProfileLength(OKP, jwk.crv).Some? && jwk.y.None?
         && IsCoordinate(jwk.x, ProfileLength(OKP, jwk.crv).value)
       case EC =>
         && ProfileLength(EC, jwk.crv).Some? && jwk.y.Some?
         && IsCoordinate(jwk.x, 32) && IsCoordinate(jwk.y.value, 32)
       case _ =>
         && jwk.y.Some?
         && (!jwk.crv.BLS12381G1? && !jwk.crv.BLS12381G2? ==> IsCoordinate(jwk.x, 32))
  }

  // ---------------------------------------------------------------------------
  // Verification methods and services
  // ---------------------------------------------------------------------------

  datatype VerificationMethod = VerificationMethod(
    id: string, typ: VerificationMethodType, controller: string, publicKeyJwk: PublicKeyJwk)

  ghost predicate IsValidMethod(lib: Libraries, m: VerificationMethod) {
    IsDidKeyId(lib, m.id) && IsDidString(m.controller) && IsValidJwk(m.publicKeyJwk)
  }

  datatype MethodFault = BadKeyId | BadController | BadKey(issues: seq<JwkIssue>)

  /** All issues of a key, in order, each once. */
  ghost predicate IsIssueList(jwk: PublicKeyJwk, issues: seq<JwkIssue>) {
    JwkInOrder(issues) && forall issue :: issue in issues <==> JwkClaim(jwk, issue)
  }

  /** The fault that a method is refused for: the first of id, controller and key that is not valid. */
  ghost predicate IsMethodFault(lib: Libraries, m: VerificationMethod, f: MethodFault) {
    match f
    case BadKeyId => !IsDidKeyId(lib, m.id)
    case BadController => IsDidKeyId(lib, m.id) && !IsDidString(m.controller)
    case BadKey(issues) =>
      IsDidKeyId(lib, m.id) && IsDidString(m.controller) && issues != [] && IsIssueList(m.publicKeyJwk, issues)
  }

  /** `VerificationMethod::new`: the id is looked at first, then the controller, then the key. */
  method NewVerificationMethod(lib: Libraries, m: VerificationMethod) returns (r: Result<VerificationMethod, MethodFault>)
    ensures r.Ok? <==> IsValidMethod(lib, m)
    ensures r.Ok? ==> r.value == m
    ensures r.Err? ==> IsMethodFault(lib, m, r.error)
  {
    if !IsDidKeyId(lib, m.id) {
      return Err(BadKeyId);
    }
    if !IsDidString(m.controller) {
      return Err(BadController);
    }
    var issues := CollectIssues(m.publicKeyJwk);
    return if issues == [] then Ok(m) else Err(BadKey(issues));
  }

  datatype EndpointEntry = UriEntry(uri: string) | ObjectEntry(members: JsonMap)

  datatype ServiceEndpoint = Uri(uri: string) | Object(members: JsonMap) | Array(entries: seq<EndpointEntry>)

  datatype ServiceType = One(name: string) | Many(names: seq<string>)

  datatype Service = Service(id: string, typ: ServiceType, endpoint: ServiceEndpoint)

  function NormalizeEntry(lib: Libraries, e: EndpointEntry): EndpointEntry {
    match e
    case UriEntry(u) => UriEntry(lib.normalizeUri(u))
    case ObjectEntry(m) => ObjectEntry(lib.normalizeObject(m))
  }

  /** `normalize_service_endpoint`. */
  function NormalizeEndpoint(lib: Libraries, e: ServiceEndpoint): ServiceEndpoint {
    match e
    case Uri(u) => Uri(lib.normalizeUri(u))
    case Object(m) => Object(lib.normalizeObject(m))
    case Array(entries) =>
      Array(seq(|entries|, i requires 0 <= i < |entries| => NormalizeEntry(lib, entries[i])))
  }

  predicate IsValidService(lib: Libraries, s: Service) {
    && (IsDidUrl(s.id) || IsRelativeReference(lib, s.id))
    && s.typ != One("") && s.typ != Many([])
  }

  /** `Service::new`. */
  function NewService(lib: Libraries, s: Service): Option<Service> {
    if IsValidService(lib, s) then Some(s.(endpoint := NormalizeEndpoint(lib, s.endpoint))) else None
  }

  /** Which services are accepted, and what comes out: the given id and type with the endpoint in normal
      form. */
  lemma ServiceAccepts(lib: Libraries, s: Service, r: Service)
    ensures NewService(lib, s) == Some(r) <==>
            && (IsDidUrl(s.id) || IsRelativeReference(lib, s.id))
            && (match s.typ case One(name) => name != "" case Many(names) => names != [])
            && r == Service(s.id, s.typ, NormalizeEndpoint(lib, s.endpoint))
  {
  }

  // ---------------------------------------------------------------------------
  // Documents
  // ---------------------------------------------------------------------------

  type Ids = seq<string>

  datatype Document = Document(
    id: string,
    alsoKnownAs: Option<Ids>,
    controller: Option<Ids>,
    verificationMethod: Option<seq<VerificationMethod>>,
    authentication: Option<Ids>,
    assertionMethod: Option<Ids>,
    keyAgreement: Option<Ids>,
    capabilityInvocation: Option<Ids>,
    capabilityDelegation: Option<Ids>,
    service: Option<seq<Service>>)

  function OrEmpty<T>(o: Option<seq<T>>): seq<T> { if o.None? then [] else o.value }

  /** The entries that a document lists for a relation. */
  function RelationIds(doc: Document, relation: Relation): Ids {
    match relation
    case UndefinedRelation => []
    case Authentication => OrEmpty(doc.authentication)
    case AssertionMethod => OrEmpty(doc.assertionMethod)
    case KeyAgreement => OrEmpty(doc.keyAgreement)
    case CapabilityInvocation => OrEmpty(doc.capabilityInvocation)
    case CapabilityDelegation => OrEmpty(doc.capabilityDelegation)
  }

  /** `with_normalized_service_endpoints`. */
  function WithNormalizedEndpoints(lib: Libraries, doc: Document): Document {
    if doc.service.None? then doc
    else
      var services := doc.service.value;
      doc.(service := Some(seq(|services|, i requires 0 <= i < |services| =>
        services[i].(endpoint := NormalizeEndpoint(lib, services[i].endpoint)))))
  }

  /** The absolute form in which ids are compared. */
  function Canonical(did: string, id: string): string {
    if "did:" <= id then id
    else if "#" <= id then did + "#" + id[1..]
    else did + "#" + id
  }

  function Canonicals(did: string, ids: Ids): Ids {
    seq(|ids|, i requires 0 <= i < |ids| => Canonical(did, ids[i]))
  }

  function MethodIds(doc: Document): Ids {
    var methods := OrEmpty(doc.verificationMethod);
    seq(|methods|, i requires 0 <= i < |methods| => methods[i].id)
  }

  function ServiceIds(doc: Document): Ids {
    var services := OrEmpty(doc.service);
    seq(|services|, i requires 0 <= i < |services| => services[i].id)
  }

  /** The printed entries of an endpoint, which is how they are told apart. */
  function EndpointKeys(lib: Libraries, e: ServiceEndpoint): Ids {
    match e
    case Uri(u) => [lib.printJson(JsonString(u))]
    case Object(m) => [lib.printJson(JsonObject(m))]
    case Array(entries) => seq(|entries|, i requires 0 <= i < |entries| => EntryKey(lib, entries[i]))
  }

  function EntryKey(lib: Libraries, e: EndpointEntry): string {
    match e
    case UriEntry(u) => lib.printJson(JsonString(u))
    case ObjectEntry(m) => lib.printJson(JsonObject(m))
  }

  datatype Issue =
    | DuplicateMethodId(index: nat)
    | DuplicateRelationEntry(relation: Relation, index: nat)
    | DanglingRelationEntry(relation: Relation, index: nat)
    | DuplicateServiceId(index: nat)
    | DuplicateEndpoint(service: nat, index: nat)

  /** The entry at `i` occurs earlier. */
  predicate RepeatsAt(keys: Ids, i: nat) { i < |keys| && keys[i] in keys[..i] }

  /** What each issue claims about a document. A repeated relation entry is reported as repeated
      only, even when it also names no method. */
  ghost predicate Claim(lib: Libraries, doc: Document, issue: Issue) {
    match issue
    case DuplicateMethodId(i) => RepeatsAt(Canonicals(doc.id, MethodIds(doc)), i)
    case DuplicateRelationEntry(r, i) => RelationClaim(doc, r, i, true)
    case DanglingRelationEntry(r, i) => RelationClaim(doc, r, i, false)
    case DuplicateServiceId(i) => RepeatsAt(ServiceIds(doc), i)
    case DuplicateEndpoint(s, i) => s < |OrEmpty(doc.service)| && EndpointClaim(lib, doc, s, i)
  }

  ghost predicate RelationClaim(doc: Document, relation: Relation, i: nat, repeated: bool) {
    var keys := Canonicals(doc.id, RelationIds(doc, relation));
    && i < |keys|
    && (if repeated then RepeatsAt(keys, i)
        else !RepeatsAt(keys, i) && keys[i] !in Canonicals(doc.id, MethodIds(doc)))
  }

  ghost predicate EndpointClaim(lib: Libraries, doc: Document, s: nat, i: nat)
    requires s < |OrEmpty(doc.service)|
  {
    RepeatsAt(EndpointKeys(lib, OrEmpty(doc.service)[s].endpoint), i)
  }

  /** Where an issue is found: methods first, then the five relations, then services; in the order of
      the entries; and within a service its id before its endpoints. */
  function Section(issue: Issue): nat {
    match issue
    case DuplicateMethodId(_) => 0
    case DuplicateRelationEntry(r, _) => RelationRank(r)
    case DanglingRelationEntry(r, _) => RelationRank(r)
    case DuplicateServiceId(_) => 6
    case DuplicateEndpoint(_, _) => 6
  }

  function RelationRank(r: Relation): nat {
    match r
    case UndefinedRelation => 0
    case Authentication => 1
    case AssertionMethod => 2
    case KeyAgreement => 3
    case CapabilityInvocation => 4
    case CapabilityDelegation => 5
  }

  function Entry(issue: Issue): nat { if issue.DuplicateEndpoint? then issue.service else issue.index }

  function Detail(issue: Issue): nat { if issue.DuplicateEndpoint? then issue.index + 1 else 0 }

  predicate Earlier(a: Issue, b: Issue) {
    || Section(a) < Section(b)
    || (Section(a) == Section(b) && (Entry(a) < Entry(b) || (Entry(a) == Entry(b) && Detail(a) < Detail(b))))
  }

  /** In document order and without repetition. */
  predicate InOrder(issues: seq<Issue>) {
    forall i, j :: 0 <= i < j < |issues| ==> Earlier(issues[i], issues[j])
  }

  lemma InOrderConcat(a: seq<Issue>, b: seq<Issue>)
    requires InOrder(a) && InOrder(b) && forall x, y :: x in a && y in b ==> Earlier(x, y)
    ensures InOrder(a + b)
  {
    forall i, j | 0 <= i < j < |a + b| ensures Earlier((a + b)[i], (a + b)[j]) {
      if i < |a| <= j {
        assert a[i] in a && b[j - |a|] in b;
      }
    }
  }

  lemma InOrderSnoc(a: seq<Issue>, y: Issue)
    requires InOrder(a) && forall x :: x in a ==> Earlier(x, y)
    ensures InOrder(a + [y])
  {
    InOrderConcat(a, [y]);
  }

  /** Document order and the members determine the list. */
  lemma {:induction false} InOrderIsUnique(a: seq<Issue>, b: seq<Issue>)
    requires InOrder(a) && InOrder(b) && forall x :: x in a <==> x in b
    ensures a == b
    decreases |a|
  {
    assert a != [] ==> a[0] in b;
    assert b != [] ==> b[0] in a;
    if a != [] {
      var i :| 0 <= i < |b| && b[i] == a[0];
      var j :| 0 <= j < |a| && a[j] == b[0];
      assert a[0] == b[0];
      InOrderTail(a, b);
      InOrderIsUnique(a[1..], b[1..]);
      assert a == [a[0]] + a[1..] && b == [b[0]] + b[1..];
    }
  }

  lemma InOrderTail(a: seq<Issue>, b: seq<Issue>)
    requires a != [] && b != [] && a[0] == b[0] && InOrder(a) && InOrder(b) && forall x :: x in a <==> x in b
    ensures forall x :: x in a[1..] <==> x in b[1..]
  {
    forall x ensures x in a[1..] <==> x in a && x != a[0] {
      HeadOnce(a, x);
    }
    forall x ensures x in b[1..] <==> x in b && x != b[0] {
      HeadOnce(b, x);
    }
  }

  lemma HeadOnce(a: seq<Issue>, x: Issue)
    requires a != [] && InOrder(a)
    ensures x in a[1..] <==> x in a && x != a[0]
  {
    assert a == [a[0]] + a[1..];
    if x in a[1..] {
      var k :| 0 <= k < |a[1..]| && a[1..][k] == x;
      assert a[k + 1] == x;
    }
  }

  function Elems(keys: Ids): set<string> { set k | k in keys }

  /** What looking a key up among the earlier ones tells, and what is seen after it. */
  lemma SeenStep(seen: set<string>, keys: Ids, i: nat)
    requires i < |keys| && seen == Elems(keys[..i])
    ensures keys[i] in seen <==> RepeatsAt(keys, i)
    ensures seen + {keys[i]} == Elems(keys[..i + 1])
  {
    assert keys[..i + 1] == keys[..i] + [keys[i]];
  }

  /** The issues of one relation with entries before `n`. */
  ghost predicate RelationFound(doc: Document, relation: Relation, issues: seq<Issue>, n: nat) {
    && InOrder(issues)
    && forall issue :: issue in issues <==>
         && (issue.DuplicateRelationEntry? || issue.DanglingRelationEntry?)
         && issue.relation == relation && issue.index < n
         && RelationClaim(doc, relation, issue.index, issue.DuplicateRelationEntry?)
  }

  lemma RelationFoundOne(doc: Document, relation: Relation, issues: seq<Issue>, n: nat)
    requires RelationFound(doc, relation, issues, n)
    ensures RelationFound(doc, relation,
              if RelationClaim(doc, relation, n, true) then issues + [DuplicateRelationEntry(relation, n)]
              else if RelationClaim(doc, relation, n, false) then issues + [DanglingRelationEntry(relation, n)]
              else issues, n + 1)
  {
    if RelationClaim(doc, relation, n, true) {
      RelationFoundAdd(doc, relation, issues, n, true);
    } else if RelationClaim(doc, relation, n, false) {
      RelationFoundAdd(doc, relation, issues, n, false);
    }
  }

  /** An entry is reported once, as repeated or as dangling. */
  lemma RelationFoundAdd(doc: Document, relation: Relation, issues: seq<Issue>, n: nat, repeated: bool)
    requires RelationFound(doc, relation, issues, n) && RelationClaim(doc, relation, n, repeated)
    ensures var issue := if repeated then DuplicateRelationEntry(relation, n) else DanglingRelationEntry(relation, n);
            RelationFound(doc, relation, issues + [issue], n + 1)
  {
    var issue := if repeated then DuplicateRelationEntry(relation, n) else DanglingRelationEntry(relation, n);
    assert !RelationClaim(doc, relation, n, !repeated);
    forall x | x in issues ensures Earlier(x, issue) {
    }
    InOrderSnoc(issues, issue);
  }

  lemma InOrderIfClaimed(issues: seq<Issue>, issue: Issue, claimed: bool)
    requires InOrder(issues) && forall x :: x in issues ==> Earlier(x, issue)
    ensures claimed ==> InOrder(issues + [issue])
  {
    InOrderSnoc(issues, issue);
  }

  /** The check of one relation: exactly its repeated and dangling entries, in order, each once. */
  method CheckRelation(doc: Document, relation: Relation, methodKeys: set<string>) returns (issues: seq<Issue>)
    requires methodKeys == Elems(Canonicals(doc.id, MethodIds(doc)))
    ensures RelationFound(doc, relation, issues, |RelationIds(doc, relation)|)
  {
    var values := RelationIds(doc, relation);
    ghost var keys := Canonicals(doc.id, values);
    var seen := {};
    issues := [];
    for i := 0 to |values|
      invariant seen == Elems(keys[..i])
      invariant RelationFound(doc, relation, issues, i)
    {
      var key := Canonical(doc.id, values[i]);
      assert key == keys[i];
      SeenStep(seen, keys, i);
      RelationFoundOne(doc, relation, issues, i);
      if key in seen {
        issues := issues + [DuplicateRelationEntry(relation, i)];
      } else if key !in methodKeys {
        issues := issues + [DanglingRelationEntry(relation, i)];
      }
      seen := seen + {key};
    }
  }

  /** The repeated methods before `n`. */
  ghost predicate MethodsFound(keys: Ids, issues: seq<Issue>, n: nat) {
    && InOrder(issues)
    && forall issue :: issue in issues <==> issue.DuplicateMethodId? && issue.index < n && RepeatsAt(keys, issue.index)
  }

  lemma MethodsFoundOne(keys: Ids, issues: seq<Issue>, n: nat)
    requires MethodsFound(keys, issues, n)
    ensures MethodsFound(keys, if RepeatsAt(keys, n) then issues + [DuplicateMethodId(n)] else issues, n + 1)
  {
    InOrderIfClaimed(issues, DuplicateMethodId(n), RepeatsAt(keys, n));
  }

  /** The check of the methods: exactly the repeated canonical ids, in order, each once. */
  method CheckMethods(doc: Document) returns (issues: seq<Issue>, seen: set<string>)
    ensures seen == Elems(Canonicals(doc.id, MethodIds(doc)))
    ensures MethodsFound(Canonicals(doc.id, MethodIds(doc)), issues, |MethodIds(doc)|)
  {
    var methods := OrEmpty(doc.verificationMethod);
    ghost var keys := Canonicals(doc.id, MethodIds(doc));
    issues, seen := [], {};
    for i := 0 to |methods|
      invariant seen == Elems(keys[..i])
      invariant MethodsFound(keys, issues, i)
    {
      var key := Canonical(doc.id, methods[i].id);
      assert key == keys[i];
      SeenStep(seen, keys, i);
      MethodsFoundOne(keys, issues, i);
      if key in seen {
        issues := issues + [DuplicateMethodId(i)];
        assert seen + {key} == seen;
      } else {
        seen := seen + {key};
      }
    }
    assert keys[..|methods|] == keys;
  }

  /** The repeated endpoint entries of service `s` before `n`. */
  ghost predicate EndpointsFound(keys: Ids, s: nat, issues: seq<Issue>, n: nat) {
    && InOrder(issues)
    && forall issue :: issue in issues <==>
         issue.DuplicateEndpoint? && issue.service == s && issue.index < n && RepeatsAt(keys, issue.index)
  }

  lemma EndpointsFoundOne(keys: Ids, s: nat, issues: seq<Issue>, n: nat)
    requires EndpointsFound(keys, s, issues, n)
    ensures EndpointsFound(keys, s, if RepeatsAt(keys, n) then issues + [DuplicateEndpoint(s, n)] else issues, n + 1)
  {
    InOrderIfClaimed(issues, DuplicateEndpoint(s, n), RepeatsAt(keys, n));
  }

  /** The loop over the endpoint entries of one service. */
  method CheckEndpoints(endpoints: Ids, s: nat) returns (issues: seq<Issue>)
    ensures EndpointsFound(endpoints, s, issues, |endpoints|)
  {
    var seen := {};
    issues := [];
    for i := 0 to |endpoints|
      invariant seen == Elems(endpoints[..i])
      invariant EndpointsFound(endpoints, s, issues, i)
    {
      SeenStep(seen, endpoints, i);
      EndpointsFoundOne(endpoints, s, issues, i);
      if endpoints[i] in seen {
        issues := issues + [DuplicateEndpoint(s, i)];
      }
      seen := seen + {endpoints[i]};
    }
  }

  /** What an issue about services says, given the keys of the ids and of the endpoints. */
  ghost predicate ServiceClaim(ids: Ids, endpoints: seq<Ids>, issue: Issue) {
    match issue
    case DuplicateServiceId(i) => RepeatsAt(ids, i)
    case DuplicateEndpoint(s, i) => s < |endpoints| && RepeatsAt(endpoints[s], i)
    case _ => false
  }

  ghost predicate ServicesFound(ids: Ids, endpoints: seq<Ids>, issues: seq<Issue>, n: nat) {
    && InOrder(issues)
    && forall issue :: issue in issues <==> ServiceClaim(ids, endpoints, issue) && Entry(issue) < n
  }

  /** One more service: its id, then its endpoints. */
  lemma ServicesFoundOne(ids: Ids, endpoints: seq<Ids>, issues: seq<Issue>, n: nat, more: seq<Issue>)
    requires |ids| == |endpoints| && n < |ids| && ServicesFound(ids, endpoints, issues, n)
    requires EndpointsFound(endpoints[n], n, more, |endpoints[n]|)
    ensures ServicesFound(ids, endpoints,
              (if RepeatsAt(ids, n) then issues + [DuplicateServiceId(n)] else issues) + more, n + 1)
  {
    InOrderIfClaimed(issues, DuplicateServiceId(n), RepeatsAt(ids, n));
    InOrderConcat(if RepeatsAt(ids, n) then issues + [DuplicateServiceId(n)] else issues, more);
  }

  function AllEndpointKeys(lib: Libraries, doc: Document): seq<Ids> {
    var services := OrEmpty(doc.service);
    seq(|services|, i requires 0 <= i < |services| => EndpointKeys(lib, services[i].endpoint))
  }

  /** The check of the services: exactly the repeated ids and endpoint entries, in order, each once. */
  method CheckServices(lib: Libraries, doc: Document) returns (issues: seq<Issue>)
    ensures ServicesFound(ServiceIds(doc), AllEndpointKeys(lib, doc), issues, |ServiceIds(doc)|)
  {
    var services := OrEmpty(doc.service);
    ghost var ids, endpoints := ServiceIds(doc), AllEndpointKeys(lib, doc);
    var seen := {};
    issues := [];
    for i := 0 to |services|
      invariant seen == Elems(ids[..i])
      invariant ServicesFound(ids, endpoints, issues, i)
    {
      assert services[i].id == ids[i];
      SeenStep(seen, ids, i);
      ghost var before := issues;
      if services[i].id in seen {
        issues := issues + [DuplicateServiceId(i)];
      }
      seen := seen + {services[i].id};
      var repeated := CheckEndpoints(EndpointKeys(lib, services[i].endpoint), i);
      ServicesFoundOne(ids, endpoints, before, i, repeated);
      issues := issues + repeated;
    }
  }

  /** The issues of the sections before the given one. */
  ghost predicate SectionsFound(lib: Libraries, doc: Document, issues: seq<Issue>, section: nat) {
    InOrder(issues) && forall issue :: issue in issues <==> Section(issue) < section && Claim(lib, doc, issue)
  }

  lemma MethodSectionFound(lib: Libraries, doc: Document, issues: seq<Issue>)
    requires MethodsFound(Canonicals(doc.id, MethodIds(doc)), issues, |MethodIds(doc)|)
    ensures SectionsFound(lib, doc, issues, 1)
  {
    assert RelationIds(doc, UndefinedRelation) == [];
  }

  lemma RelationSectionFound(lib: Libraries, doc: Document, issues: seq<Issue>, relation: Relation, more: seq<Issue>)
    requires SectionsFound(lib, doc, issues, RelationRank(relation)) && !relation.UndefinedRelation?
    requires RelationFound(doc, relation, more, |RelationIds(doc, relation)|)
    ensures SectionsFound(lib, doc, issues + more, RelationRank(relation) + 1)
  {
    forall r | RelationRank(r) == RelationRank(relation) ensures r == relation {
    }
    InOrderConcat(issues, more);
  }

  lemma ServiceSectionFound(lib: Libraries, doc: Document, issues: seq<Issue>, more: seq<Issue>)
    requires SectionsFound(lib, doc, issues, 6)
    requires ServicesFound(ServiceIds(doc), AllEndpointKeys(lib, doc), more, |ServiceIds(doc)|)
    ensures SectionsFound(lib, doc, issues + more, 7)
  {
    InOrderConcat(issues, more);
  }

  /** Exactly the issues that hold of the document with its endpoints normalised, in document order, each
      once. */
  ghost predicate Reported(lib: Libraries, doc: Document, issues: seq<Issue>) {
    InOrder(issues) && forall issue :: issue in issues <==> Claim(lib, WithNormalizedEndpoints(lib, doc), issue)
  }

  /** `DidDocument::validate`: the issues reported are exactly those that hold of the document with
      its endpoints normalised, in document order, each once. */
  method Validate(lib: Libraries, doc: Document) returns (issues: seq<Issue>)
    ensures Reported(lib, doc, issues)
    ensures (issues == []) == IsConsistent(lib, doc)
  {
    var normalized := WithNormalizedEndpoints(lib, doc);
    var methodKeys: set<string>;
    issues, methodKeys := CheckMethods(normalized);
    MethodSectionFound(lib, normalized, issues);
    issues := CheckNextRelation(lib, normalized, Authentication, methodKeys, issues);
    issues := CheckNextRelation(lib, normalized, AssertionMethod, methodKeys, issues);
    issues := CheckNextRelation(lib, normalized, KeyAgreement, methodKeys, issues);
    issues := CheckNextRelation(lib, normalized, CapabilityInvocation, methodKeys, issues);
    issues := CheckNextRelation(lib, normalized, CapabilityDelegation, methodKeys, issues);
    var found := CheckServices(lib, normalized);
    ServiceSectionFound(lib, normalized, issues, found);
    issues := issues + found;
    AllSectionsFound(lib, normalized, issues);
    EmptyIffNoClaims(lib, normalized, issues);
    NoClaimIffConsistent(lib, doc);
  }

  method CheckNextRelation(lib: Libraries, doc: Document, relation: Relation, methodKeys: set<string>, before: seq<Issue>)
    returns (issues: seq<Issue>)
    requires methodKeys == Elems(Canonicals(doc.id, MethodIds(doc)))
    requires SectionsFound(lib, doc, before, RelationRank(relation)) && !relation.UndefinedRelation?
    ensures SectionsFound(lib, doc, issues, RelationRank(relation) + 1)
  {
    var found := CheckRelation(doc, relation, methodKeys);
    RelationSectionFound(lib, doc, before, relation, found);
    issues := before + found;
  }

  lemma AllSectionsFound(lib: Libraries, doc: Document, issues: seq<Issue>)
    requires SectionsFound(lib, doc, issues, 7)
    ensures forall issue :: issue in issues <==> Claim(lib, doc, issue)
  {
    forall issue ensures Section(issue) < 7 {
    }
  }

  ghost predicate NoClaims(lib: Libraries, doc: Document) {
    forall issue :: !Claim(lib, doc, issue)
  }

  lemma EmptyIffNoClaims(lib: Libraries, doc: Document, issues: seq<Issue>)
    requires SectionsFound(lib, doc, issues, 7)
    ensures (issues == []) == NoClaims(lib, doc)
  {
    AllSectionsFound(lib, doc, issues);
    if issues != [] {
      assert issues[0] in issues;
    }
  }

  /** What a valid document is: method ids and service ids are distinct, each relation lists
      distinct ids of methods of the document, and the entries of each endpoint are distinct. */
  ghost predicate IsConsistent(lib: Libraries, doc: Document) {
    var methods := Canonicals(doc.id, MethodIds(doc));
    && Distinct(methods)
    && (forall r :: Distinct(Canonicals(doc.id, RelationIds(doc, r))))
    && (forall r, id :: id in RelationIds(doc, r) ==> Canonical(doc.id, id) in methods)
    && Distinct(ServiceIds(doc))
    && EndpointsDistinct(lib, doc)
  }

  ghost predicate EndpointsDistinct(lib: Libraries, doc: Document) {
    forall s :: s in OrEmpty(doc.service) ==> Distinct(EndpointKeys(lib, NormalizeEndpoint(lib, s.endpoint)))
  }

  lemma DistinctIffNoRepeat(keys: Ids)
    ensures Distinct(keys) <==> forall i: nat :: !RepeatsAt(keys, i)
  {
    if forall i: nat :: !RepeatsAt(keys, i) {
      forall i, j | 0 <= i < j < |keys| ensures keys[i] != keys[j] {
        assert !RepeatsAt(keys, j);
        assert keys[..j][i] == keys[i];
      }
    }
  }

  lemma NoClaimIffConsistent(lib: Libraries, doc: Document)
    ensures IsConsistent(lib, doc) == NoClaims(lib, WithNormalizedEndpoints(lib, doc))
  {
    var n := WithNormalizedEndpoints(lib, doc);
    assert ServiceIds(n) == ServiceIds(doc) && MethodIds(n) == MethodIds(doc);
    assert forall r :: RelationIds(n, r) == RelationIds(doc, r);
    if IsConsistent(lib, doc) {
      forall issue ensures !Claim(lib, n, issue) {
        ConsistentRefutes(lib, doc, n, issue);
      }
    } else if NoClaims(lib, n) {
      ClaimsDecide(lib, doc, n);
    }
  }

  lemma ConsistentRefutes(lib: Libraries, doc: Document, n: Document, issue: Issue)
    requires IsConsistent(lib, doc) && n == WithNormalizedEndpoints(lib, doc)
    ensures !Claim(lib, n, issue)
  {
    assert ServiceIds(n) == ServiceIds(doc) && MethodIds(n) == MethodIds(doc);
    match issue
    case DuplicateMethodId(i) => DistinctIffNoRepeat(Canonicals(doc.id, MethodIds(doc)));
    case DuplicateRelationEntry(r, i) => DistinctIffNoRepeat(Canonicals(doc.id, RelationIds(doc, r)));
    case DanglingRelationEntry(r, i) =>
      if i < |RelationIds(doc, r)| {
        assert RelationIds(doc, r)[i] in RelationIds(doc, r);
      }
    case DuplicateServiceId(i) => DistinctIffNoRepeat(ServiceIds(doc));
    case DuplicateEndpoint(s, i) =>
      if s < |OrEmpty(doc.service)| {
        assert OrEmpty(doc.service)[s] in OrEmpty(doc.service);
        DistinctIffNoRepeat(EndpointKeys(lib, OrEmpty(n.service)[s].endpoint));
      }
  }

  lemma ClaimsDecide(lib: Libraries, doc: Document, n: Document)
    requires n == WithNormalizedEndpoints(lib, doc) && NoClaims(lib, n)
    ensures IsConsistent(lib, doc)
  {
    assert ServiceIds(n) == ServiceIds(doc) && MethodIds(n) == MethodIds(doc);
    var methods := Canonicals(doc.id, MethodIds(doc));
    forall i: nat ensures !RepeatsAt(methods, i) && !RepeatsAt(ServiceIds(doc), i) {
      assert !Claim(lib, n, DuplicateMethodId(i)) && !Claim(lib, n, DuplicateServiceId(i));
    }
    DistinctIffNoRepeat(methods);
    DistinctIffNoRepeat(ServiceIds(doc));
    forall r ensures Distinct(Canonicals(doc.id, RelationIds(doc, r))) {
      var keys := Canonicals(doc.id, RelationIds(doc, r));
      forall i: nat ensures !RepeatsAt(keys, i) {
        assert !Claim(lib, n, DuplicateRelationEntry(r, i));
      }
      DistinctIffNoRepeat(keys);
    }
    forall r, id | id in RelationIds(doc, r) ensures Canonical(doc.id, id) in methods {
      var i :| 0 <= i < |RelationIds(doc, r)| && RelationIds(doc, r)[i] == id;
      assert !Claim(lib, n, DanglingRelationEntry(r, i)) && !Claim(lib, n, DuplicateRelationEntry(r, i));
    }
    forall s | s in OrEmpty(doc.service) ensures Distinct(EndpointKeys(lib, NormalizeEndpoint(lib, s.endpoint))) {
      var k :| 0 <= k < |OrEmpty(doc.service)| && OrEmpty(doc.service)[k] == s;
      forall i: nat ensures !RepeatsAt(EndpointKeys(lib, NormalizeEndpoint(lib, s.endpoint)), i) {
        assert !Claim(lib, n, DuplicateEndpoint(k, i));
      }
      DistinctIffNoRepeat(EndpointKeys(lib, NormalizeEndpoint(lib, s.endpoint)));
    }
  }
}
