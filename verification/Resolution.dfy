/** From the ledger view back to a DID document and its metadata. */
module Resolution {
  import opened Prelude
  import opened Text
  import opened DidTypes
  import opened Foreign
  import opened DidDocument
  import opened LedgerUtils
  import opened Snapshot
  import Base64Url
  import Calendar
  import Contract
  import Hex

  // ---------------------------------------------------------------------------
  // Keys
  // ---------------------------------------------------------------------------

  /** The domain key of a stored one: an empty second coordinate is none at all, and an OKP key must
      not have one. */
  ghost function DomainJwk(jwk: Contract.LedgerJwk): Option<PublicKeyJwk> {
    var y := if jwk.y == "" then None else Some(jwk.y);
    var domain := PublicKeyJwk(jwk.kty, jwk.crv, jwk.x, y, map[]);
    if (jwk.kty.OKP? && y.Some?) || !IsValidJwk(domain) then None else Some(domain)
  }

  /** Why a view does not resolve. */
  datatype ResolveError =
    | OkpHasY
    | InvalidKey(issues: seq<JwkIssue>)
    | NotHex(coordinate: Coordinate)
    | TooLong(coordinate: Coordinate)
    | DuplicateMethod
    | InvalidMethod(fault: MethodFault)
    | MissingTarget(relation: Relation, index: nat)
    | BadServiceType
    | BadServiceEndpoint
    | InvalidService
    | BadSubject
    | BadRelationId(relation: Relation, index: nat)

  method NewPublicKeyJwk(jwk: PublicKeyJwk) returns (r: Result<PublicKeyJwk, ResolveError>)
    ensures r.Ok? <==> IsValidJwk(jwk)
    ensures r.Ok? ==> r.value == jwk
    ensures r.Err? ==> r.error.InvalidKey? && r.error.issues != [] && IsIssueList(jwk, r.error.issues)
  {
    var issues := CollectIssues(jwk);
    return if issues == [] then Ok(jwk) else Err(InvalidKey(issues));
  }

  /** The fault of a stored key: a second coordinate of an OKP key, or else the issues of the key. */
  ghost predicate IsJwkFault(jwk: Contract.LedgerJwk, e: ResolveError) {
    if jwk.kty.OKP? && jwk.y != "" then e == OkpHasY
    else
      var y := if jwk.y == "" then None else Some(jwk.y);
      e.InvalidKey? && e.issues != [] && IsIssueList(PublicKeyJwk(jwk.kty, jwk.crv, jwk.x, y, map[]), e.issues)
  }

  /** `ledger_jwk_to_domain`. */
  method LedgerJwkToDomain(jwk: Contract.LedgerJwk) returns (r: Result<PublicKeyJwk, ResolveError>)
    ensures DomainJwk(jwk) == if r.Ok? then Some(r.value) else None
    ensures r.Err? ==> IsJwkFault(jwk, r.error)
  {
    var y := if jwk.y == "" then None else Some(jwk.y);
    if jwk.kty.OKP? && y.Some? {
      return Err(OkpHasY);
    }
    r := NewPublicKeyJwk(PublicKeyJwk(jwk.kty, jwk.crv, jwk.x, y, map[]));
  }

  /** `decode_jubjub_coordinate`: short input is padded with zero bytes at the end. */
  function DecodeJubjubCoordinate(hex: string, c: Coordinate): Result<Bytes32, ResolveError> {
    match Hex.Decode(hex)
    case None => Err(NotHex(c))
    case Some(b) => if |b| > 32 then Err(TooLong(c)) else Ok(b + seq(32 - |b|, i => 0))
  }

  /** A coordinate is read as the bytes of the hex text, filled up with zero bytes behind them to 32. */
  lemma CoordinateIs(hex: string, b: seq<byte>, c: Coordinate)
    ensures Hex.Decode(hex) == None ==> DecodeJubjubCoordinate(hex, c) == Err(NotHex(c))
    ensures Hex.Decode(hex) == Some(b) && |b| > 32 ==> DecodeJubjubCoordinate(hex, c) == Err(TooLong(c))
    ensures Hex.Decode(hex) == Some(b) && |b| <= 32 ==>
              var r := DecodeJubjubCoordinate(hex, c);
              r.Ok? && r.value[..|b|] == b && forall i :: |b| <= i < 32 ==> r.value[i] == 0
  {
  }

  ghost function SchnorrJwk(e: SchnorrEntry): Option<PublicKeyJwk> {
    match (DecodeJubjubCoordinate(e.x, X), DecodeJubjubCoordinate(e.y, Y))
    case (Ok(x), Ok(y)) => Some(PublicKeyJwk(EC, Jubjub, Base64Url.Encode(x), Some(Base64Url.Encode(y)), map[]))
    case _ => None
  }

  /** The fault of a stored point: the first coordinate that does not decode. */
  ghost predicate IsPointFault(p: SchnorrEntry, e: ResolveError) {
    var x, y := DecodeJubjubCoordinate(p.x, X), DecodeJubjubCoordinate(p.y, Y);
    if x.Err? then e == x.error else y.Err? && e == y.error
  }

  /** `schnorr_jubjub_pk_to_jwk`: the re-encoded coordinates always make a valid key. */
  method SchnorrToJwk(e: SchnorrEntry) returns (r: Result<PublicKeyJwk, ResolveError>)
    ensures SchnorrJwk(e) == if r.Ok? then Some(r.value) else None
    ensures r.Err? ==> IsPointFault(e, r.error)
  {
    var x :- DecodeJubjubCoordinate(e.x, X);
    var y :- DecodeJubjubCoordinate(e.y, Y);
    r := NewPublicKeyJwk(PublicKeyJwk(EC, Jubjub, Base64Url.Encode(x), Some(Base64Url.Encode(y)), map[]));
    assert IsCoordinate(Base64Url.Encode(x), 32) && IsCoordinate(Base64Url.Encode(y), 32);
  }

  // ---------------------------------------------------------------------------
  // Services
  // ---------------------------------------------------------------------------

  function EntryOfJson(j: Json): Option<EndpointEntry> {
    match j
    case JsonString(u) => Some(UriEntry(u))
    case JsonObject(m) => Some(ObjectEntry(m))
    case _ => None
  }

  function EntriesOfJson(items: seq<Json>): Option<seq<EndpointEntry>> {
    if items == [] then Some([])
    else match (EntryOfJson(items[0]), EntriesOfJson(items[1..]))
      case (Some(e), Some(rest)) => Some([e] + rest)
      case _ => None
  }

  /** `parse_service_endpoint`. */
  function ParseServiceEndpoint(lib: Libraries, raw: string): Option<ServiceEndpoint> {
    var t := Trim(raw);
    if t == "" then None
    else match lib.parseJson(t)
      case Some(JsonString(u)) => Some(Uri(u))
      case Some(JsonObject(m)) => Some(Object(m))
      case Some(JsonArray(items)) =>
        (match EntriesOfJson(items)
         case Some(entries) => Some(Array(entries))
         case None => None)
      case _ => Some(Uri(t))
  }

  lemma {:induction false} EntriesRead(items: seq<Json>)
    ensures EntriesOfJson(items).Some? <==> forall j :: j in items ==> j.JsonString? || j.JsonObject?
    ensures EntriesOfJson(items).Some? ==>
              && |EntriesOfJson(items).value| == |items|
              && forall i :: 0 <= i < |items| ==>
                   && (items[i].JsonString? ==> EntriesOfJson(items).value[i] == UriEntry(items[i].s))
                   && (items[i].JsonObject? ==> EntriesOfJson(items).value[i] == ObjectEntry(items[i].members))
  {
    if items != [] {
      EntriesRead(items[1..]);
      assert items == [items[0]] + items[1..];
    }
  }

  /** How a stored endpoint is read: whitespace around it does not matter; a JSON string, object, or list of
      strings and objects is that endpoint; a list of anything else is none; and all other text, JSON or
      not, is an address itself. */
  lemma EndpointRead(lib: Libraries, raw: string)
    ensures var t, r := Trim(raw), ParseServiceEndpoint(lib, raw);
            && (t == "" ==> r == None)
            && (t != "" ==>
                  match lib.parseJson(t)
                  case Some(JsonString(u)) => r == Some(Uri(u))
                  case Some(JsonObject(m)) => r == Some(Object(m))
                  case Some(JsonArray(items)) =>
                    && (r.Some? <==> forall j :: j in items ==> j.JsonString? || j.JsonObject?)
                    && (r.Some? ==> r == Some(Array(EntriesOfJson(items).value)))
                  case _ => r == Some(Uri(t)))
  {
    var parsed := lib.parseJson(Trim(raw));
    if parsed.Some? && parsed.value.JsonArray? {
      EntriesRead(parsed.value.items);
    }
  }

  /** `parse_ledger_service`. */
  function ParseLedgerService(lib: Libraries, did: string, s: Contract.LedgerService): Option<Service> {
    match (ParseServiceType(lib, s.typ), ParseServiceEndpoint(lib, s.serviceEndpoint))
    case (Some(typ), Some(endpoint)) => NewService(lib, Service(AbsoluteReference(did, s.id), typ, endpoint))
    case _ => None
  }

  /** The fault of a service that does not read back: its type, its endpoint, or the service itself. */
  function ServiceFault(lib: Libraries, s: Contract.LedgerService): ResolveError {
    if ParseServiceType(lib, s.typ).None? then BadServiceType
    else if ParseServiceEndpoint(lib, s.serviceEndpoint).None? then BadServiceEndpoint
    else InvalidService
  }

  // ---------------------------------------------------------------------------
  // Documents
  // ---------------------------------------------------------------------------

  /** The method made from a map entry, if its key and its absolute id are valid. */
  ghost function MethodFrom(lib: Libraries, did: string, id: string, typ: VerificationMethodType,
                            jwk: Option<PublicKeyJwk>): Option<VerificationMethod>
  {
    if jwk.None? then None
    else
      var m := VerificationMethod(AbsoluteReference(did, id), typ, did, jwk.value);
      if IsValidMethod(lib, m) then Some(m) else None
  }

  ghost function JwkMethodFrom(lib: Libraries, did: string, e: (string, Contract.LedgerMethod)): Option<VerificationMethod> {
    MethodFrom(lib, did, e.0, e.1.typ, DomainJwk(e.1.publicKeyJwk))
  }

  ghost function SchnorrMethodFrom(lib: Libraries, did: string, e: (string, SchnorrEntry)): Option<VerificationMethod> {
    MethodFrom(lib, did, e.0, JsonWebKey, SchnorrJwk(e.1))
  }

  function FragmentIds(keys: seq<string>): seq<string> {
    seq(|keys|, i requires 0 <= i < |keys| => FragmentId(keys[i]))
  }

  function AllKeys(s: Snapshot): seq<string> { KeysOf(s.methods) + KeysOf(s.schnorrMethods) }

  /** The ledger views that resolve. */
  ghost predicate Resolvable(lib: Libraries, did: string, s: Snapshot) {
    && IsDidString(did)
    && (forall m :: m in JwkOptions(lib, did, s.methods) ==> m.Some?)
    && (forall m :: m in SchnorrOptions(lib, did, s.schnorrMethods) ==> m.Some?)
    && Distinct(FragmentIds(AllKeys(s)))
    && (forall r :: TargetsExist(lib, s, r))
    && (forall v :: v in ServiceOptions(lib, did, s.services) ==> v.Some?)
  }

  function ServiceOptions(lib: Libraries, did: string, entries: seq<(string, Contract.LedgerService)>): seq<Option<Service>> {
    seq(|entries|, i requires 0 <= i < |entries| => ParseLedgerService(lib, did, entries[i].1))
  }

  /** Each entry of a relation names a method and is a valid key id. */
  ghost predicate TargetsExist(lib: Libraries, s: Snapshot, relation: Relation) {
    forall m :: m in RelationSet(s, relation) ==>
      FragmentId(m) in FragmentIds(AllKeys(s)) && IsDidKeyId(lib, FragmentId(m))
  }

  function OrNone<T>(items: seq<T>): Option<seq<T>> { if items == [] then None else Some(items) }

  /** The values of a list that has no missing one. */
  ghost function Values<T>(items: seq<Option<T>>): seq<T>
    requires forall m :: m in items ==> m.Some?
  {
    seq(|items|, i requires 0 <= i < |items| => assert items[i] in items; items[i].value)
  }

  ghost function ResolvedMethods(lib: Libraries, did: string, s: Snapshot): seq<VerificationMethod>
    requires Resolvable(lib, did, s)
  {
    Values(JwkOptions(lib, did, s.methods)) + Values(SchnorrOptions(lib, did, s.schnorrMethods))
  }

  ghost function ResolvedServices(lib: Libraries, did: string, s: Snapshot): seq<Service>
    requires Resolvable(lib, did, s)
  {
    Values(ServiceOptions(lib, did, s.services))
  }

  /** What a view resolves to. */
  ghost function ResolvedDocument(lib: Libraries, did: string, s: Snapshot): Document
    requires Resolvable(lib, did, s)
  {
    Document(
      did, OrNone(s.alsoKnownAs), Some([did]), OrNone(ResolvedMethods(lib, did, s)),
      OrNone(FragmentIds(s.authentication)), OrNone(FragmentIds(s.assertionMethod)),
      OrNone(FragmentIds(s.keyAgreement)), OrNone(FragmentIds(s.capabilityInvocation)),
      OrNone(FragmentIds(s.capabilityDelegation)), OrNone(ResolvedServices(lib, did, s)))
  }

  /** The fault of an entry of a method map: its key, a repeated fragment id, or the method made of it. */
  ghost predicate EntryFails(lib: Libraries, did: string, id: string, typ: VerificationMethodType,
                             jwk: Result<PublicKeyJwk, ResolveError>, repeated: bool, e: ResolveError) {
    if jwk.Err? then e == jwk.error
    else if repeated then e == DuplicateMethod
    else e.InvalidMethod? && IsMethodFault(lib, VerificationMethod(AbsoluteReference(did, id), typ, did, jwk.value), e.fault)
  }

  /** One round of the loops over the method maps: the key is valid, its fragment id is new, and the
      method with the absolute id is valid. */
  method AddMethod(lib: Libraries, did: string, id: string, typ: VerificationMethodType,
                   jwk: Result<PublicKeyJwk, ResolveError>, seen: set<string>)
    returns (m: Result<VerificationMethod, ResolveError>)
    ensures m.Ok? ==> FragmentId(id) !in seen && jwk.Ok? && Some(m.value) == MethodFrom(lib, did, id, typ, Some(jwk.value))
    ensures m.Err? ==>
              || FragmentId(id) in seen
              || MethodFrom(lib, did, id, typ, if jwk.Ok? then Some(jwk.value) else None).None?
    ensures m.Err? ==> EntryFails(lib, did, id, typ, jwk, FragmentId(id) in seen, m.error)
  {
    if jwk.Err? {
      return Err(jwk.error);
    }
    if FragmentId(id) in seen {
      return Err(DuplicateMethod);
    }
    var made := NewVerificationMethod(lib, VerificationMethod(AbsoluteReference(did, id), typ, did, jwk.value));
    return if made.Ok? then Ok(made.value) else Err(InvalidMethod(made.error));
  }

  /** The set holds exactly the fragment ids of these keys, which are all different. */
  ghost predicate Seen(seen: set<string>, ids: seq<string>) {
    Distinct(ids) && forall f :: f in seen <==> f in ids
  }

  lemma SeenOneMore(seen: set<string>, ids: seq<string>, id: string)
    requires Seen(seen, ids) && id !in seen
    ensures Seen(seen + {id}, ids + [id])
  {
  }

  /** The fragment ids met before the key at `i`. */
  ghost function IdsUpTo(earlier: seq<string>, keys: seq<string>, i: nat): seq<string>
    requires i <= |keys|
  {
    earlier + FragmentIds(keys[..i])
  }

  lemma IdsStep(earlier: seq<string>, keys: seq<string>, i: nat)
    requires i < |keys|
    ensures IdsUpTo(earlier, keys, i + 1) == IdsUpTo(earlier, keys, i) + [FragmentId(keys[i])]
  {
    assert keys[..i + 1] == keys[..i] + [keys[i]];
    assert FragmentIds(keys[..i + 1]) == FragmentIds(keys[..i]) + [FragmentId(keys[i])];
  }

  lemma IdsEnds(earlier: seq<string>, keys: seq<string>)
    ensures IdsUpTo(earlier, keys, 0) == earlier
    ensures IdsUpTo(earlier, keys, |keys|) == earlier + FragmentIds(keys)
  {
    assert keys[..|keys|] == keys;
  }

  lemma SeenTwice(earlier: seq<string>, keys: seq<string>, i: nat)
    requires i < |keys| && FragmentId(keys[i]) in IdsUpTo(earlier, keys, i)
    ensures !Distinct(earlier + FragmentIds(keys))
  {
    var front, all := IdsUpTo(earlier, keys, i), earlier + FragmentIds(keys);
    var j :| 0 <= j < |front| && front[j] == FragmentId(keys[i]);
    assert all[j] == front[j] && all[|front|] == FragmentId(keys[i]);
  }

  /** Why a loop gives up: a repeated id, or an entry without a valid method. */
  lemma CannotResolve<T>(earlier: seq<string>, keys: seq<string>, wanted: seq<Option<T>>, i: nat, seen: set<string>)
    requires i < |keys| == |wanted| && Seen(seen, IdsUpTo(earlier, keys, i))
    requires FragmentId(keys[i]) in seen || wanted[i].None?
    ensures !((forall m :: m in wanted ==> m.Some?) && Distinct(earlier + FragmentIds(keys)))
  {
    if FragmentId(keys[i]) in seen {
      SeenTwice(earlier, keys, i);
    } else {
      assert wanted[i] in wanted;
    }
  }

  /** What the loops have pushed so far. */
  ghost predicate Pushed<T>(items: seq<T>, wanted: seq<Option<T>>) {
    |items| <= |wanted| && forall k :: 0 <= k < |items| ==> Some(items[k]) == wanted[k]
  }

  lemma PushOneMore<T>(items: seq<T>, wanted: seq<Option<T>>, m: T)
    requires Pushed(items, wanted) && |items| < |wanted| && wanted[|items|] == Some(m)
    ensures Pushed(items + [m], wanted)
  {
    forall k | 0 <= k < |items + [m]| ensures Some((items + [m])[k]) == wanted[k] {
      if k < |items| {
        assert (items + [m])[k] == items[k];
      }
    }
  }

  ghost function JwkOptions(lib: Libraries, did: string, entries: seq<(string, Contract.LedgerMethod)>)
    : seq<Option<VerificationMethod>>
  {
    seq(|entries|, i requires 0 <= i < |entries| => JwkMethodFrom(lib, did, entries[i]))
  }

  ghost function SchnorrOptions(lib: Libraries, did: string, entries: seq<(string, SchnorrEntry)>)
    : seq<Option<VerificationMethod>>
  {
    seq(|entries|, i requires 0 <= i < |entries| => SchnorrMethodFrom(lib, did, entries[i]))
  }

  /** Everything before the entry at `i` is fine. */
  ghost predicate FineBefore<T>(earlier: seq<string>, keys: seq<string>, wanted: seq<Option<T>>, i: nat) {
    && i < |keys| == |wanted|
    && (forall k :: 0 <= k < i ==> wanted[k].Some?)
    && Distinct(IdsUpTo(earlier, keys, i))
  }

  lemma PushedIsFine<T>(earlier: seq<string>, keys: seq<string>, wanted: seq<Option<T>>, items: seq<T>, seen: set<string>)
    requires Pushed(items, wanted) && |items| < |keys| == |wanted| && Seen(seen, IdsUpTo(earlier, keys, |items|))
    ensures FineBefore(earlier, keys, wanted, |items|)
  {
    PushedSome(items, wanted);
  }

  /** The entry at `i` is the first that fails, and this is its fault. */
  ghost predicate JwkFailsAt(lib: Libraries, did: string, entries: seq<(string, Contract.LedgerMethod)>, i: nat, e: ResolveError) {
    && FineBefore([], KeysOf(entries), JwkOptions(lib, did, entries), i)
    && exists jwk: Result<PublicKeyJwk, ResolveError> ::
         && IsJwkResult(entries[i].1.publicKeyJwk, jwk)
         && EntryFails(lib, did, entries[i].0, entries[i].1.typ, jwk,
                       FragmentId(entries[i].0) in IdsUpTo([], KeysOf(entries), i), e)
  }

  ghost predicate IsJwkResult(stored: Contract.LedgerJwk, jwk: Result<PublicKeyJwk, ResolveError>) {
    match jwk
    case Ok(v) => DomainJwk(stored) == Some(v)
    case Err(e) => DomainJwk(stored) == None && IsJwkFault(stored, e)
  }

  ghost predicate SchnorrFailsAt(lib: Libraries, did: string, entries: seq<(string, SchnorrEntry)>, earlier: seq<string>,
                                 i: nat, e: ResolveError) {
    && FineBefore(earlier, KeysOf(entries), SchnorrOptions(lib, did, entries), i)
    && exists jwk: Result<PublicKeyJwk, ResolveError> ::
         && IsPointResult(entries[i].1, jwk)
         && EntryFails(lib, did, entries[i].0, JsonWebKey, jwk,
                       FragmentId(entries[i].0) in IdsUpTo(earlier, KeysOf(entries), i), e)
  }

  ghost predicate IsPointResult(stored: SchnorrEntry, jwk: Result<PublicKeyJwk, ResolveError>) {
    match jwk
    case Ok(v) => SchnorrJwk(stored) == Some(v)
    case Err(e) => SchnorrJwk(stored) == None && IsPointFault(stored, e)
  }

  lemma JwkFails(lib: Libraries, did: string, entries: seq<(string, Contract.LedgerMethod)>, methods: seq<VerificationMethod>,
                 seen: set<string>, jwk: Result<PublicKeyJwk, ResolveError>, e: ResolveError)
    requires |methods| < |entries| && Pushed(methods, JwkOptions(lib, did, entries))
    requires Seen(seen, IdsUpTo([], KeysOf(entries), |methods|))
    requires var x := entries[|methods|];
             IsJwkResult(x.1.publicKeyJwk, jwk) && EntryFails(lib, did, x.0, x.1.typ, jwk, FragmentId(x.0) in seen, e)
    ensures JwkFailsAt(lib, did, entries, |methods|, e)
  {
    PushedIsFine([], KeysOf(entries), JwkOptions(lib, did, entries), methods, seen);
  }

  lemma SchnorrFails(lib: Libraries, did: string, entries: seq<(string, SchnorrEntry)>, earlier: seq<string>,
                     methods: seq<VerificationMethod>, seen: set<string>, jwk: Result<PublicKeyJwk, ResolveError>, e: ResolveError)
    requires |methods| < |entries| && Pushed(methods, SchnorrOptions(lib, did, entries))
    requires Seen(seen, IdsUpTo(earlier, KeysOf(entries), |methods|))
    requires var x := entries[|methods|];
             IsPointResult(x.1, jwk) && EntryFails(lib, did, x.0, JsonWebKey, jwk, FragmentId(x.0) in seen, e)
    ensures SchnorrFailsAt(lib, did, entries, earlier, |methods|, e)
  {
    PushedIsFine(earlier, KeysOf(entries), SchnorrOptions(lib, did, entries), methods, seen);
  }

  /** The loop over the JWK methods. */
  method ResolveJwkMethods(lib: Libraries, did: string, entries: seq<(string, Contract.LedgerMethod)>)
    returns (r: Result<seq<VerificationMethod>, ResolveError>, seen: set<string>)
    ensures r.Ok? <==>
            && (forall m :: m in JwkOptions(lib, did, entries) ==> m.Some?)
            && Distinct([] + FragmentIds(KeysOf(entries)))
    ensures r.Ok? ==>
              && Seen(seen, [] + FragmentIds(KeysOf(entries)))
              && |r.value| == |entries|
              && Pushed(r.value, JwkOptions(lib, did, entries))
    ensures r.Err? ==> exists i :: JwkFailsAt(lib, did, entries, i, r.error)
  {
    var methods := [];
    ghost var keys, wanted := KeysOf(entries), JwkOptions(lib, did, entries);
    IdsEnds([], keys);
    seen := {};
    for i := 0 to |entries|
      invariant |methods| == i && Seen(seen, IdsUpTo([], keys, i))
      invariant Pushed(methods, wanted)
    {
      assert keys[i] == entries[i].0;
      IdsStep([], keys, i);
      var jwk := LedgerJwkToDomain(entries[i].1.publicKeyJwk);
      var m := AddMethod(lib, did, entries[i].0, entries[i].1.typ, jwk, seen);
      if m.Err? {
        CannotResolve([], keys, wanted, i, seen);
        JwkFails(lib, did, entries, methods, seen, jwk, m.error);
        return Err(m.error), seen;
      }
      SeenOneMore(seen, IdsUpTo([], keys, i), FragmentId(keys[i]));
      seen := seen + {FragmentId(entries[i].0)};
      PushOneMore(methods, wanted, m.value);
      methods := methods + [m.value];
    }
    return Ok(methods), seen;
  }

  /** The loop over the Schnorr-Jubjub methods, after the ids in `before`. */
  method ResolveSchnorrMethods(lib: Libraries, did: string, entries: seq<(string, SchnorrEntry)>,
                               before: set<string>, ghost earlier: seq<string>)
    returns (r: Result<seq<VerificationMethod>, ResolveError>, seen: set<string>)
    requires Seen(before, earlier)
    ensures r.Ok? <==>
            && (forall m :: m in SchnorrOptions(lib, did, entries) ==> m.Some?)
            && Distinct(earlier + FragmentIds(KeysOf(entries)))
    ensures r.Ok? ==>
              && Seen(seen, earlier + FragmentIds(KeysOf(entries)))
              && |r.value| == |entries|
              && Pushed(r.value, SchnorrOptions(lib, did, entries))
    ensures r.Err? ==> exists i :: SchnorrFailsAt(lib, did, entries, earlier, i, r.error)
  {
    var methods := [];
    ghost var keys, wanted := KeysOf(entries), SchnorrOptions(lib, did, entries);
    IdsEnds(earlier, keys);
    seen := before;
    for i := 0 to |entries|
      invariant |methods| == i && Seen(seen, IdsUpTo(earlier, keys, i))
      invariant Pushed(methods, wanted)
    {
      assert keys[i] == entries[i].0;
      IdsStep(earlier, keys, i);
      var jwk := SchnorrToJwk(entries[i].1);
      var m := AddMethod(lib, did, entries[i].0, JsonWebKey, jwk, seen);
      if m.Err? {
        CannotResolve(earlier, keys, wanted, i, seen);
        SchnorrFails(lib, did, entries, earlier, methods, seen, jwk, m.error);
        return Err(m.error), seen;
      }
      SeenOneMore(seen, IdsUpTo(earlier, keys, i), FragmentId(keys[i]));
      seen := seen + {FragmentId(entries[i].0)};
      PushOneMore(methods, wanted, m.value);
      methods := methods + [m.value];
    }
    return Ok(methods), seen;
  }

  /** The first member that names none of the ids. */
  ghost predicate FirstUnknown(ids: seq<string>, members: seq<string>, i: nat) {
    i < |members| && FragmentId(members[i]) !in ids && forall k :: 0 <= k < i ==> FragmentId(members[k]) in ids
  }

  /** The first member that is no key id. */
  ghost predicate FirstNoKeyId(lib: Libraries, members: seq<string>, i: nat) {
    && i < |members| && !IsDidKeyId(lib, FragmentId(members[i]))
    && forall m :: m in members[..i] ==> IsDidKeyId(lib, FragmentId(m))
  }

  /** `assert_targets`: the first member, if any, that names no method. */
  method AssertTargets(seen: set<string>, ghost ids: seq<string>, members: seq<string>) returns (missing: Option<nat>)
    requires Seen(seen, ids)
    ensures missing.None? <==> forall m :: m in members ==> FragmentId(m) in ids
    ensures missing.Some? ==> FirstUnknown(ids, members, missing.value)
  {
    for i := 0 to |members|
      invariant forall k :: 0 <= k < i ==> FragmentId(members[k]) in ids
    {
      if FragmentId(members[i]) !in seen {
        assert members[i] in members;
        return Some(i);
      }
    }
    return None;
  }

  /** `map_relation`: the ids as key ids, with an empty relation left out of the document, or the place of
      the first that is no key id. */
  method MapRelation(lib: Libraries, members: seq<string>) returns (r: Result<Option<seq<string>>, nat>)
    ensures r.Ok? <==> forall m :: m in members ==> IsDidKeyId(lib, FragmentId(m))
    ensures r.Ok? ==> r.value == OrNone(FragmentIds(members))
    ensures r.Err? ==> FirstNoKeyId(lib, members, r.error)
  {
    if members == [] {
      return Ok(None);
    }
    var parsed := [];
    for i := 0 to |members|
      invariant parsed == FragmentIds(members[..i])
      invariant forall m :: m in members[..i] ==> IsDidKeyId(lib, FragmentId(m))
    {
      FragmentIdsStep(members, i);
      if !IsDidKeyId(lib, FragmentId(members[i])) {
        return Err(i);
      }
      parsed := parsed + [FragmentId(members[i])];
    }
    assert members[..|members|] == members;
    return Ok(Some(parsed));
  }

  lemma FragmentIdsStep(members: seq<string>, i: nat)
    requires i < |members|
    ensures FragmentIds(members[..i + 1]) == FragmentIds(members[..i]) + [FragmentId(members[i])]
    ensures members[i] in members
    ensures forall m :: m in members[..i + 1] <==> m in members[..i] || m == members[i]
  {
    assert members[..i + 1] == members[..i] + [members[i]];
  }

  /** The service at `i` is the first that does not read back, and this is its fault. */
  ghost predicate ServiceFailsAt(lib: Libraries, did: string, entries: seq<(string, Contract.LedgerService)>, i: nat, e: ResolveError) {
    var read := ServiceOptions(lib, did, entries);
    && i < |entries| && read[i].None? && e == ServiceFault(lib, entries[i].1)
    && forall k :: 0 <= k < i ==> read[k].Some?
  }

  lemma PushedSome<T>(items: seq<T>, wanted: seq<Option<T>>)
    requires Pushed(items, wanted)
    ensures forall k :: 0 <= k < |items| ==> wanted[k].Some?
  {
    forall k | 0 <= k < |items| ensures wanted[k].Some? {
      assert Some(items[k]) == wanted[k];
    }
  }

  lemma ServiceFails(lib: Libraries, did: string, entries: seq<(string, Contract.LedgerService)>, services: seq<Service>)
    requires |services| < |entries| && Pushed(services, ServiceOptions(lib, did, entries))
    requires ParseLedgerService(lib, did, entries[|services|].1).None?
    ensures ServiceFailsAt(lib, did, entries, |services|, ServiceFault(lib, entries[|services|].1))
    ensures !forall v :: v in ServiceOptions(lib, did, entries) ==> v.Some?
  {
    PushedSome(services, ServiceOptions(lib, did, entries));
    assert ServiceOptions(lib, did, entries)[|services|] in ServiceOptions(lib, did, entries);
  }

  method ResolveServices(lib: Libraries, did: string, entries: seq<(string, Contract.LedgerService)>)
    returns (r: Result<seq<Service>, ResolveError>)
    ensures r.Ok? <==> forall v :: v in ServiceOptions(lib, did, entries) ==> v.Some?
    ensures r.Ok? ==> r.value == Values(ServiceOptions(lib, did, entries))
    ensures r.Err? ==> exists i :: ServiceFailsAt(lib, did, entries, i, r.error)
  {
    var services := [];
    ghost var wanted := ServiceOptions(lib, did, entries);
    for i := 0 to |entries|
      invariant |services| == i && Pushed(services, wanted)
    {
      var parsed := ParseLedgerService(lib, did, entries[i].1);
      if parsed.None? {
        ServiceFails(lib, did, entries, services);
        return Err(ServiceFault(lib, entries[i].1));
      }
      PushOneMore(services, wanted, parsed.value);
      services := services + [parsed.value];
    }
    PushedAll(services, wanted);
    return Ok(services);
  }

  /** Every entry of the relation names a method. */
  ghost predicate Named(s: Snapshot, relation: Relation) {
    forall m :: m in RelationSet(s, relation) ==> FragmentId(m) in FragmentIds(AllKeys(s))
  }

  /** Every entry of the relation is a key id. */
  ghost predicate KeyIds(lib: Libraries, s: Snapshot, relation: Relation) {
    forall m :: m in RelationSet(s, relation) ==> IsDidKeyId(lib, FragmentId(m))
  }

  /** Every relation of a rank below `n`. */
  ghost predicate NamedBelow(s: Snapshot, n: nat) {
    && (n > 1 ==> Named(s, Authentication))
    && (n > 2 ==> Named(s, AssertionMethod))
    && (n > 3 ==> Named(s, KeyAgreement))
    && (n > 4 ==> Named(s, CapabilityInvocation))
    && (n > 5 ==> Named(s, CapabilityDelegation))
  }

  ghost predicate KeyIdsBelow(lib: Libraries, s: Snapshot, n: nat) {
    && (n > 1 ==> KeyIds(lib, s, Authentication))
    && (n > 2 ==> KeyIds(lib, s, AssertionMethod))
    && (n > 3 ==> KeyIds(lib, s, KeyAgreement))
    && (n > 4 ==> KeyIds(lib, s, CapabilityInvocation))
    && (n > 5 ==> KeyIds(lib, s, CapabilityDelegation))
  }

  lemma AllNamed(s: Snapshot)
    ensures NamedBelow(s, 6) == forall r :: Named(s, r)
  {
    if NamedBelow(s, 6) {
      forall r ensures Named(s, r) {
        NamedByRank(s, r);
      }
    }
  }

  lemma NamedByRank(s: Snapshot, relation: Relation)
    requires NamedBelow(s, 6)
    ensures Named(s, relation)
  {
    match relation
    case UndefinedRelation => assert RelationSet(s, relation) == [];
    case _ =>
  }

  lemma AllKeyIds(lib: Libraries, s: Snapshot)
    ensures KeyIdsBelow(lib, s, 6) == forall r :: KeyIds(lib, s, r)
  {
    if KeyIdsBelow(lib, s, 6) {
      forall r ensures KeyIds(lib, s, r) {
        KeyIdsByRank(lib, s, r);
      }
    }
  }

  lemma KeyIdsByRank(lib: Libraries, s: Snapshot, relation: Relation)
    requires KeyIdsBelow(lib, s, 6)
    ensures KeyIds(lib, s, relation)
  {
    match relation
    case UndefinedRelation => assert RelationSet(s, relation) == [];
    case _ =>
  }

  /** The first relation entry without a method. */
  ghost predicate MissingFails(s: Snapshot, e: ResolveError) {
    && e.MissingTarget?
    && FirstUnknown(FragmentIds(AllKeys(s)), RelationSet(s, e.relation), e.index)
    && NamedBelow(s, RelationRank(e.relation))
  }

  /** The first relation entry that is no key id. */
  ghost predicate KeyIdFails(lib: Libraries, s: Snapshot, e: ResolveError) {
    && e.BadRelationId?
    && FirstNoKeyId(lib, RelationSet(s, e.relation), e.index)
    && KeyIdsBelow(lib, s, RelationRank(e.relation))
  }

  lemma MissingIsNotNamed(s: Snapshot, e: ResolveError)
    requires MissingFails(s, e)
    ensures !Named(s, e.relation)
  {
    assert RelationSet(s, e.relation)[e.index] in RelationSet(s, e.relation);
  }

  lemma KeyIdIsMissing(lib: Libraries, s: Snapshot, e: ResolveError)
    requires KeyIdFails(lib, s, e)
    ensures !KeyIds(lib, s, e.relation)
  {
    assert RelationSet(s, e.relation)[e.index] in RelationSet(s, e.relation);
  }

  /** The targets of one relation, after those of the relations before it. */
  method AssertTargetsOf(s: Snapshot, seen: set<string>, relation: Relation) returns (r: Result<(), ResolveError>)
    requires Seen(seen, FragmentIds(AllKeys(s))) && NamedBelow(s, RelationRank(relation)) && !relation.UndefinedRelation?
    ensures r.Ok? ==> NamedBelow(s, RelationRank(relation) + 1)
    ensures r.Err? ==> MissingFails(s, r.error)
  {
    var missing := AssertTargets(seen, FragmentIds(AllKeys(s)), RelationSet(s, relation));
    if missing.Some? {
      return Err(MissingTarget(relation, missing.value));
    }
    return Ok(());
  }

  /** The five calls of `assert_targets`. */
  method AssertAllTargets(s: Snapshot, seen: set<string>) returns (r: Result<(), ResolveError>)
    requires Seen(seen, FragmentIds(AllKeys(s)))
    ensures r.Ok? ==> NamedBelow(s, 6)
    ensures r.Err? ==> MissingFails(s, r.error)
  {
    var _ :- AssertTargetsOf(s, seen, Authentication);
    var _ :- AssertTargetsOf(s, seen, AssertionMethod);
    var _ :- AssertTargetsOf(s, seen, KeyAgreement);
    var _ :- AssertTargetsOf(s, seen, CapabilityInvocation);
    var _ :- AssertTargetsOf(s, seen, CapabilityDelegation);
    return Ok(());
  }

  /** One relation of the document. */
  method MapRelationOf(lib: Libraries, s: Snapshot, relation: Relation) returns (r: Result<Option<seq<string>>, ResolveError>)
    ensures r.Ok? ==> r.value == Mapped(s, relation) && KeyIds(lib, s, relation)
    ensures r.Err? ==>
              r.error.BadRelationId? && r.error.relation == relation
              && FirstNoKeyId(lib, RelationSet(s, relation), r.error.index)
  {
    var mapped := MapRelation(lib, RelationSet(s, relation));
    if mapped.Err? {
      return Err(BadRelationId(relation, mapped.error));
    }
    return Ok(mapped.value);
  }

  datatype RelationLists = RelationLists(
    authentication: Option<Ids>, assertionMethod: Option<Ids>, keyAgreement: Option<Ids>,
    capabilityInvocation: Option<Ids>, capabilityDelegation: Option<Ids>)

  ghost function Mapped(s: Snapshot, relation: Relation): Option<Ids> { OrNone(FragmentIds(RelationSet(s, relation))) }

  ghost function MappedRelations(s: Snapshot): RelationLists {
    RelationLists(Mapped(s, Authentication), Mapped(s, AssertionMethod), Mapped(s, KeyAgreement),
                  Mapped(s, CapabilityInvocation), Mapped(s, CapabilityDelegation))
  }

  /** The five calls of `map_relation`. */
  method MapAllRelations(lib: Libraries, s: Snapshot) returns (r: Result<RelationLists, ResolveError>)
    ensures r.Ok? ==> r.value == MappedRelations(s) && KeyIdsBelow(lib, s, 6)
    ensures r.Err? ==> KeyIdFails(lib, s, r.error)
  {
    var authentication :- MapRelationOf(lib, s, Authentication);
    var assertionMethod :- MapRelationOf(lib, s, AssertionMethod);
    var keyAgreement :- MapRelationOf(lib, s, KeyAgreement);
    var capabilityInvocation :- MapRelationOf(lib, s, CapabilityInvocation);
    var capabilityDelegation :- MapRelationOf(lib, s, CapabilityDelegation);
    return Ok(RelationLists(authentication, assertionMethod, keyAgreement, capabilityInvocation, capabilityDelegation));
  }

  ghost predicate MethodsFine(lib: Libraries, did: string, s: Snapshot) {
    && (forall m :: m in JwkOptions(lib, did, s.methods) ==> m.Some?)
    && (forall m :: m in SchnorrOptions(lib, did, s.schnorrMethods) ==> m.Some?)
    && Distinct(FragmentIds(AllKeys(s)))
  }

  ghost predicate ServicesFine(lib: Libraries, did: string, s: Snapshot) {
    forall v :: v in ServiceOptions(lib, did, s.services) ==> v.Some?
  }

  /** Why a view with fine methods fails: a relation entry without a method, a service, the subject, or a
      relation entry that is no key id, in this order. */
  ghost predicate RestFails(lib: Libraries, did: string, s: Snapshot, e: ResolveError) {
    || MissingFails(s, e)
    || ((forall r :: Named(s, r)) && exists i :: ServiceFailsAt(lib, did, s.services, i, e))
    || ((forall r :: Named(s, r)) && ServicesFine(lib, did, s) && !IsDidString(did) && e == BadSubject)
    || ((forall r :: Named(s, r)) && ServicesFine(lib, did, s) && IsDidString(did) && KeyIdFails(lib, s, e))
  }

  /** The first failure of a view: among the JWK methods, among the Schnorr-Jubjub methods, or in the rest. */
  ghost predicate Fails(lib: Libraries, did: string, s: Snapshot, e: ResolveError) {
    || (exists i :: JwkFailsAt(lib, did, s.methods, i, e))
    || (&& (forall m :: m in JwkOptions(lib, did, s.methods) ==> m.Some?) && Distinct(FragmentIds(KeysOf(s.methods)))
        && exists i :: SchnorrFailsAt(lib, did, s.schnorrMethods, FragmentIds(KeysOf(s.methods)), i, e))
    || (MethodsFine(lib, did, s) && RestFails(lib, did, s, e))
  }

  /** `ledger_state_to_did_document`: exactly the resolvable views resolve, to the document that the
      view stands for; the others fail with the first failure in the order of the assembly. */
  method LedgerStateToDidDocument(lib: Libraries, did: string, s: Snapshot) returns (r: Result<Document, ResolveError>)
    ensures r.Ok? == Resolvable(lib, did, s)
    ensures r.Ok? ==> r.value == ResolvedDocument(lib, did, s)
    ensures r.Err? ==> Fails(lib, did, s, r.error)
  {
    var jwkMethods, seen1 := ResolveJwkMethods(lib, did, s.methods);
    assert [] + FragmentIds(KeysOf(s.methods)) == FragmentIds(KeysOf(s.methods));
    FragmentIdsOfAll(s);
    if jwkMethods.Err? {
      DistinctPrefix(FragmentIds(KeysOf(s.methods)), FragmentIds(KeysOf(s.schnorrMethods)));
      return Err(jwkMethods.error);
    }
    var schnorrMethods, seen := ResolveSchnorrMethods(lib, did, s.schnorrMethods, seen1, FragmentIds(KeysOf(s.methods)));
    if schnorrMethods.Err? {
      return Err(schnorrMethods.error);
    }
    r := ResolveRest(lib, did, s, jwkMethods.value, schnorrMethods.value, seen);
  }

  lemma DistinctPrefix(a: seq<string>, b: seq<string>)
    ensures Distinct(a + b) ==> Distinct(a)
  {
    if Distinct(a + b) {
      forall i, j | 0 <= i < j < |a| ensures a[i] != a[j] {
        assert (a + b)[i] != (a + b)[j];
      }
    }
  }

  lemma FragmentIdsOfAll(s: Snapshot)
    ensures FragmentIds(AllKeys(s)) == FragmentIds(KeysOf(s.methods)) + FragmentIds(KeysOf(s.schnorrMethods))
  {
  }

  ghost predicate MethodsResolved(lib: Libraries, did: string, s: Snapshot, jwks: seq<VerificationMethod>,
                                  schnorrs: seq<VerificationMethod>, seen: set<string>) {
    && |jwks| == |s.methods| && |schnorrs| == |s.schnorrMethods|
    && Pushed(jwks, JwkOptions(lib, did, s.methods))
    && Pushed(schnorrs, SchnorrOptions(lib, did, s.schnorrMethods))
    && Seen(seen, FragmentIds(AllKeys(s)))
  }

  /** The part of the assembly after both method loops. */
  method ResolveRest(lib: Libraries, did: string, s: Snapshot, jwks: seq<VerificationMethod>,
                     schnorrs: seq<VerificationMethod>, seen: set<string>) returns (r: Result<Document, ResolveError>)
    requires MethodsResolved(lib, did, s, jwks, schnorrs, seen)
    ensures r.Ok? == Resolvable(lib, did, s)
    ensures r.Ok? ==> r.value == ResolvedDocument(lib, did, s)
    ensures MethodsFine(lib, did, s) && (r.Err? ==> RestFails(lib, did, s, r.error))
  {
    PushedAll(jwks, JwkOptions(lib, did, s.methods));
    PushedAll(schnorrs, SchnorrOptions(lib, did, s.schnorrMethods));
    ResolvableParts(lib, did, s);
    AllNamed(s);
    AllKeyIds(lib, s);
    var targets := AssertAllTargets(s, seen);
    if targets.Err? {
      MissingIsNotNamed(s, targets.error);
      return Err(targets.error);
    }
    var services := ResolveServices(lib, did, s.services);
    if services.Err? {
      return Err(services.error);
    }
    if !IsDidString(did) {
      return Err(BadSubject);
    }
    var mapped := MapAllRelations(lib, s);
    if mapped.Err? {
      KeyIdIsMissing(lib, s, mapped.error);
      return Err(mapped.error);
    }
    var l := mapped.value;
    return Ok(Document(
      did, OrNone(s.alsoKnownAs), Some([did]), OrNone(jwks + schnorrs), l.authentication, l.assertionMethod,
      l.keyAgreement, l.capabilityInvocation, l.capabilityDelegation, OrNone(services.value)));
  }

  lemma ResolvableParts(lib: Libraries, did: string, s: Snapshot)
    ensures Resolvable(lib, did, s) ==
            (&& MethodsFine(lib, did, s) && (forall r :: Named(s, r)) && ServicesFine(lib, did, s)
             && IsDidString(did) && (forall r :: KeyIds(lib, s, r)))
  {
    forall r ensures TargetsExist(lib, s, r) == (Named(s, r) && KeyIds(lib, s, r)) {
    }
  }

  lemma PushedAll<T>(items: seq<T>, wanted: seq<Option<T>>)
    requires Pushed(items, wanted) && |items| == |wanted|
    ensures forall m :: m in wanted ==> m.Some?
    ensures items == Values(wanted)
  {
    forall m | m in wanted ensures m.Some? {
      var i :| 0 <= i < |wanted| && wanted[i] == m;
      assert Some(items[i]) == wanted[i];
    }
    forall i | 0 <= i < |items| ensures items[i] == Values(wanted)[i] {
      assert Some(items[i]) == wanted[i];
    }
  }

  // ---------------------------------------------------------------------------
  // Metadata
  // ---------------------------------------------------------------------------

  datatype Metadata = Metadata(created: Option<string>, updated: Option<string>, deactivated: Option<bool>, versionId: string)

  /** A number in decimal. */
  function Decimal(n: nat): string {
    if n < 10 then [Calendar.Digit(n)] else Decimal(n / 10) + [Calendar.Digit(n % 10)]
  }

  /** `ledger_state_to_metadata`. */
  method LedgerStateToMetadata(s: Snapshot) returns (m: Metadata)
    ensures Calendar.IsIsoOf(s.createdMs, m.created) && Calendar.IsIsoOf(s.updatedMs, m.updated)
    ensures m.created.None? <==> s.createdMs == 0 || s.createdMs >= 253_402_300_800_000
    ensures m.updated.None? <==> s.updatedMs == 0 || s.updatedMs >= 253_402_300_800_000
    ensures m.deactivated == if s.deactivated || !s.active then Some(true) else None
    ensures m.versionId == Decimal(s.version)
  {
    var created := Calendar.TimestampToIso(s.createdMs);
    var updated := Calendar.TimestampToIso(s.updatedMs);
    m := Metadata(created, updated, if s.deactivated || !s.active then Some(true) else None, Decimal(s.version));
  }

  /** Different numbers have different decimals, so a version id tells the version. */
  lemma {:induction false} DecimalTells(a: nat, b: nat)
    ensures Decimal(a) == Decimal(b) <==> a == b
    decreases a + b
  {
    if Decimal(a) == Decimal(b) {
      assert Decimal(a)[|Decimal(a)| - 1] == Calendar.Digit(a % 10);
      assert Decimal(b)[|Decimal(b)| - 1] == Calendar.Digit(b % 10);
      if a >= 10 && b >= 10 {
        assert Decimal(a)[..|Decimal(a)| - 1] == Decimal(a / 10);
        assert Decimal(b)[..|Decimal(b)| - 1] == Decimal(b / 10);
        DecimalTells(a / 10, b / 10);
      } else {
        DecimalIsNotEmpty(a / 10);
        DecimalIsNotEmpty(b / 10);
      }
    }
  }

  /** A version id is the number in decimal: its digits stand for it, without a leading zero. */
  lemma {:induction false} DecimalReads(n: nat)
    ensures var s := Decimal(n);
            && s != "" && Calendar.AllDigits(s) && Calendar.NumberOf(s) == n
            && (s[0] == '0' <==> n == 0)
  {
    if n < 10 {
      assert Decimal(n)[..0] == "";
    } else {
      DecimalReads(n / 10);
      var front := Decimal(n / 10);
      assert (front + [Calendar.Digit(n % 10)])[..|front|] == front;
    }
  }

  lemma DecimalIsNotEmpty(n: nat)
    ensures |Decimal(n)| >= 1
  {
  }
}
