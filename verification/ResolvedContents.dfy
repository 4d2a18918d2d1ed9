/** What a resolved document says about the ledger: every field of the document in terms of the ledger's
    cells, for every ledger that resolves. */
module ResolvedContents {
  import opened Prelude
  import opened DidTypes
  import opened Foreign
  import opened DidDocument
  import opened LedgerUtils
  import opened Mappers
  import opened Snapshot
  import opened Resolution
  import opened Reachable
  import Base64Url
  import C = Contract
  import opened ContractSafety
  import MidnightDid
  import Text

  // ---------------------------------------------------------------------------
  // The fields of a document
  // ---------------------------------------------------------------------------

  /** A list of the document that holds exactly the members of a set, each once, and is left out when
      there is none. */
  ghost predicate ListsExactly(field: Option<seq<string>>, members: set<string>) {
    match field
    case None => members == {}
    case Some(list) => members != {} && Distinct(list) && forall m :: m in list <==> m in members
  }

  /** The method of a stored key: its id behind the DID, owned by the DID, with the stored coordinates. */
  function StoredMethod(did: string, id: string, key: C.LedgerJwk): VerificationMethod {
    VerificationMethod(did + id, JsonWebKey, did,
                       PublicKeyJwk(key.kty, key.crv, key.x, if key.y == "" then None else Some(key.y), map[]))
  }

  /** The method of a stored Schnorr-Jubjub point: an EC key on Jubjub with the encoded coordinates. */
  function PointMethod(did: string, id: string, p: C.Point): VerificationMethod {
    VerificationMethod(did + id, JsonWebKey, did,
                       PublicKeyJwk(EC, Jubjub, Base64Url.Encode(p.x), Some(Base64Url.Encode(p.y)), map[]))
  }

  ghost predicate IsStoredMethod(did: string, l: C.Ledger, m: VerificationMethod) {
    || (exists id :: id in l.methods && m == StoredMethod(did, id, l.methods[id].publicKeyJwk))
    || (exists id :: id in l.schnorrMethods && m == PointMethod(did, id, l.schnorrMethods[id].publicKey))
  }

  /** One method for each stored key and each stored point, and no other. */
  ghost predicate ListsMethods(did: string, l: C.Ledger, field: Option<seq<VerificationMethod>>) {
    match field
    case None => l.methods == map[] && l.schnorrMethods == map[]
    case Some(list) =>
      && list != []
      && (forall i, j :: 0 <= i < j < |list| ==> list[i].id != list[j].id)
      && (forall id :: id in l.methods ==> StoredMethod(did, id, l.methods[id].publicKeyJwk) in list)
      && (forall id :: id in l.schnorrMethods ==> PointMethod(did, id, l.schnorrMethods[id].publicKey) in list)
      && forall m :: m in list ==> IsStoredMethod(did, l, m)
  }

  /** A stored type that starts with a bracket is a JSON list of types, any other is one type. */
  ghost predicate TypeIs(lib: Libraries, text: string, typ: ServiceType) {
    if "[" <= text then
      exists names: seq<string> :: lib.parseJson(text) == Some(StringList(names)) && typ == Many(TrimAll(names))
    else typ == One(text)
  }

  /** A stored endpoint is the JSON form of an endpoint, which the document has in normal form. */
  ghost predicate EndpointIs(lib: Libraries, text: string, endpoint: ServiceEndpoint) {
    exists e: ServiceEndpoint ::
      lib.parseJson(text) == Some(EndpointJson(e)) && endpoint == NormalizeEndpoint(lib, e)
  }

  ghost predicate IsServiceOf(lib: Libraries, did: string, stored: C.LedgerService, s: Service) {
    s.id == did + stored.id && TypeIs(lib, stored.typ, s.typ) && EndpointIs(lib, stored.serviceEndpoint, s.endpoint)
  }

  ghost predicate ServiceListed(lib: Libraries, did: string, stored: C.LedgerService, list: seq<Service>) {
    exists s :: s in list && IsServiceOf(lib, did, stored, s)
  }

  ghost predicate ServiceStored(lib: Libraries, did: string, l: C.Ledger, s: Service) {
    exists id :: id in l.services && IsServiceOf(lib, did, l.services[id], s)
  }

  /** One service for each stored one, and no other. */
  ghost predicate ListsServices(lib: Libraries, did: string, l: C.Ledger, field: Option<seq<Service>>) {
    match field
    case None => l.services == map[]
    case Some(list) =>
      && list != []
      && (forall i, j :: 0 <= i < j < |list| ==> list[i].id != list[j].id)
      && (forall id :: id in l.services ==> ServiceListed(lib, did, l.services[id], list))
      && forall s :: s in list ==> ServiceStored(lib, did, l, s)
  }

  ghost predicate ListsRelations(l: C.Ledger, doc: Document) {
    && ListsExactly(doc.authentication, l.authentication)
    && ListsExactly(doc.assertionMethod, l.assertionMethod)
    && ListsExactly(doc.keyAgreement, l.keyAgreement)
    && ListsExactly(doc.capabilityInvocation, l.capabilityInvocation)
    && ListsExactly(doc.capabilityDelegation, l.capabilityDelegation)
  }

  /** The document says what the ledger holds, field by field. */
  ghost predicate Mirrors(lib: Libraries, did: string, l: C.Ledger, doc: Document) {
    && doc.id == did
    && doc.controller == Some([did])
    && ListsExactly(doc.alsoKnownAs, l.alsoKnownAs)
    && ListsMethods(did, l, doc.verificationMethod)
    && ListsRelations(l, doc)
    && ListsServices(lib, did, l, doc.service)
  }

  // ---------------------------------------------------------------------------
  // Lists
  // ---------------------------------------------------------------------------

  lemma ListedExactly(list: seq<string>, members: set<string>)
    requires Lists(list, members)
    ensures ListsExactly(OrNone(list), members)
  {
    if list == [] {
      assert forall m :: m in members <==> m in list;
    } else {
      assert list[0] in list;
    }
  }

  /** The entries of a relation are its members as they are stored. */
  lemma RelationListed(lib: Libraries, did: string, l: C.Ledger, s: Snapshot, relation: Relation)
    requires Ready(lib, did, l, s)
    ensures ListsExactly(OrNone(FragmentIds(RelationSet(s, relation))), C.Members(l, relation))
  {
    var members := RelationSet(s, relation);
    forall i | 0 <= i < |members| ensures FragmentIds(members)[i] == members[i] {
      assert members[i] in members;
      RelationMember(lib, did, l, s, relation, members[i]);
    }
    assert FragmentIds(members) == members;
    assert Lists(members, C.Members(l, relation));
    ListedExactly(members, C.Members(l, relation));
  }

  // ---------------------------------------------------------------------------
  // Methods
  // ---------------------------------------------------------------------------

  /** The value at `i` is the method of the entry at `i`. */
  lemma JwkEntryIs(lib: Libraries, did: string, l: C.Ledger, s: Snapshot, i: nat)
    requires Ready(lib, did, l, s) && i < |s.methods|
    ensures s.methods[i].0 in l.methods
    ensures JwkOptions(lib, did, s.methods)[i]
         == Some(StoredMethod(did, s.methods[i].0, l.methods[s.methods[i].0].publicKeyJwk))
  {
    EntryOfMap(s.methods, l.methods, i);
    JwkEntryResolves(lib, did, l, s, i);
  }

  lemma SchnorrEntryIs(lib: Libraries, did: string, l: C.Ledger, s: Snapshot, i: nat)
    requires Ready(lib, did, l, s) && i < |s.schnorrMethods|
    requires SchnorrOptions(lib, did, s.schnorrMethods)[i].Some?
    ensures s.schnorrMethods[i].0 in l.schnorrMethods
    ensures SchnorrOptions(lib, did, s.schnorrMethods)[i]
         == Some(PointMethod(did, s.schnorrMethods[i].0, l.schnorrMethods[s.schnorrMethods[i].0].publicKey))
  {
    EntryOfMap(s.schnorrMethods, EntriesOf(l.schnorrMethods), i);
    var id := s.schnorrMethods[i].0;
    PointRoundTrip(l.schnorrMethods[id]);
    MethodFromKey(lib, did, id, JsonWebKey, SchnorrJwk(EntryOf(l.schnorrMethods[id])).value);
  }

  lemma ValueAt<T>(items: seq<Option<T>>, i: nat)
    requires (forall m :: m in items ==> m.Some?) && i < |items|
    ensures items[i].Some? && Values(items)[i] == items[i].value && items[i].value in Values(items)
  {
    assert items[i] in items;
    assert Values(items)[i] in Values(items);
  }

  lemma StoredMethodsListed(lib: Libraries, did: string, l: C.Ledger, s: Snapshot)
    requires Ready(lib, did, l, s) && Resolvable(lib, did, s)
    ensures var list := ResolvedMethods(lib, did, s);
            && (forall id :: id in l.methods ==> StoredMethod(did, id, l.methods[id].publicKeyJwk) in list)
            && (forall id :: id in l.schnorrMethods ==> PointMethod(did, id, l.schnorrMethods[id].publicKey) in list)
  {
    forall id | id in l.methods
      ensures StoredMethod(did, id, l.methods[id].publicKeyJwk) in ResolvedMethods(lib, did, s)
    {
      var i := IndexOfKey(s.methods, l.methods, id);
      JwkEntryIs(lib, did, l, s, i);
      ValueAt(JwkOptions(lib, did, s.methods), i);
    }
    forall id | id in l.schnorrMethods
      ensures PointMethod(did, id, l.schnorrMethods[id].publicKey) in ResolvedMethods(lib, did, s)
    {
      var i := IndexOfKey(s.schnorrMethods, EntriesOf(l.schnorrMethods), id);
      ValueAt(SchnorrOptions(lib, did, s.schnorrMethods), i);
      SchnorrEntryIs(lib, did, l, s, i);
    }
  }

  lemma ListedMethodsStored(lib: Libraries, did: string, l: C.Ledger, s: Snapshot, m: VerificationMethod)
    requires Ready(lib, did, l, s) && Resolvable(lib, did, s) && m in ResolvedMethods(lib, did, s)
    ensures IsStoredMethod(did, l, m)
  {
    var jwks, schnorrs := JwkOptions(lib, did, s.methods), SchnorrOptions(lib, did, s.schnorrMethods);
    if m in Values(jwks) {
      var i :| 0 <= i < |jwks| && Values(jwks)[i] == m;
      ValueAt(jwks, i);
      JwkEntryIs(lib, did, l, s, i);
    } else {
      var i :| 0 <= i < |schnorrs| && Values(schnorrs)[i] == m;
      ValueAt(schnorrs, i);
      SchnorrEntryIs(lib, did, l, s, i);
    }
  }

  lemma MethodsListed(lib: Libraries, did: string, l: C.Ledger, s: Snapshot)
    requires Ready(lib, did, l, s) && Resolvable(lib, did, s)
    ensures ListsMethods(did, l, OrNone(ResolvedMethods(lib, did, s)))
  {
    var list := ResolvedMethods(lib, did, s);
    StoredMethodsListed(lib, did, l, s);
    forall m | m in list ensures IsStoredMethod(did, l, m) {
      ListedMethodsStored(lib, did, l, s, m);
    }
    if list == [] {
      EmptyMap(l.methods);
      EmptyMap(l.schnorrMethods);
    } else {
      ResolvedIds(lib, did, l, s);
      KeysAreFragmentIds(lib, did, l, s);
      var ids := MethodIds(ResolvedDocument(lib, did, s));
      PrefixedDistinct(did, AllKeys(s), ids);
      forall i, j | 0 <= i < j < |list| ensures list[i].id != list[j].id {
        assert ids[i] == list[i].id && ids[j] == list[j].id;
      }
    }
  }

  lemma EmptyMap<V>(m: map<string, V>)
    requires forall id :: id !in m
    ensures m == map[]
  {
  }

  // ---------------------------------------------------------------------------
  // Services
  // ---------------------------------------------------------------------------

  /** What a stored service that reads back is read as. */
  lemma StoredServiceIs(lib: Libraries, did: string, stored: C.LedgerService)
    requires lib.JsonRoundTrips() && IsDidString(did) && FromDomainService(lib, did, stored)
    requires ParseLedgerService(lib, did, stored).Some?
    ensures IsServiceOf(lib, did, stored, ParseLedgerService(lib, did, stored).value)
  {
    var s: Service :| IsDomainService(lib, s) && ServiceToLedger(lib, did, s) == Ok(stored);
    MappedServiceReads(lib, did, s, stored);
    StoredType(lib, s.typ);
    TypeIsRead(lib, stored.typ);
    var e := NormalizeEndpoint(lib, s.endpoint);
    assert lib.PrintsWell(EndpointJson(e));
    assert EndpointIs(lib, stored.serviceEndpoint, NormalizeEndpoint(lib, e));
  }

  lemma TypeIsRead(lib: Libraries, typ: string)
    requires typ != "" && Text.Trimmed(typ) && ParseServiceType(lib, typ).Some?
    ensures TypeIs(lib, typ, ParseServiceType(lib, typ).value)
  {
    Text.TrimIsTrimmed(typ);
    if "[" <= typ {
      var j := lib.parseJson(typ).value;
      ListOfStrings(j);
    }
  }

  lemma ServiceEntryIs(lib: Libraries, did: string, l: C.Ledger, s: Snapshot, i: nat)
    requires Ready(lib, did, l, s) && Resolvable(lib, did, s) && i < |s.services|
    ensures s.services[i].0 in l.services
    ensures IsServiceOf(lib, did, l.services[s.services[i].0], ResolvedServices(lib, did, s)[i])
  {
    EntryOfMap(s.services, l.services, i);
    ValueAt(ServiceOptions(lib, did, s.services), i);
    StoredServiceIs(lib, did, s.services[i].1);
  }

  lemma ServicesListed(lib: Libraries, did: string, l: C.Ledger, s: Snapshot)
    requires Ready(lib, did, l, s) && Resolvable(lib, did, s)
    ensures ListsServices(lib, did, l, OrNone(ResolvedServices(lib, did, s)))
  {
    var list := ResolvedServices(lib, did, s);
    forall id | id in l.services ensures ServiceListed(lib, did, l.services[id], list) {
      var i := IndexOfKey(s.services, l.services, id);
      ServiceEntryIs(lib, did, l, s, i);
      assert list[i] in list;
    }
    forall v | v in list ensures ServiceStored(lib, did, l, v) {
      var i :| 0 <= i < |list| && list[i] == v;
      ServiceEntryIs(lib, did, l, s, i);
    }
    if list == [] {
      EmptyMap(l.services);
    } else {
      ResolvedServiceIdsDistinct(lib, did, l, s);
      var ids := ServiceIds(ResolvedDocument(lib, did, s));
      forall i, j | 0 <= i < j < |list| ensures list[i].id != list[j].id {
        assert ids[i] == list[i].id && ids[j] == list[j].id;
      }
    }
  }

  // ---------------------------------------------------------------------------
  // The document
  // ---------------------------------------------------------------------------

  lemma RelationsListed(lib: Libraries, did: string, l: C.Ledger, s: Snapshot)
    requires Ready(lib, did, l, s) && Resolvable(lib, did, s)
    ensures ListsRelations(l, ResolvedDocument(lib, did, s))
  {
    RelationListed(lib, did, l, s, Authentication);
    RelationListed(lib, did, l, s, AssertionMethod);
    RelationListed(lib, did, l, s, KeyAgreement);
    RelationListed(lib, did, l, s, CapabilityInvocation);
    RelationListed(lib, did, l, s, CapabilityDelegation);
  }

  /** A ledger that resolves, resolves to a document that mirrors it. */
  lemma ResolvedMirrors(lib: Libraries, did: string, l: C.Ledger, s: Snapshot)
    requires Ready(lib, did, l, s) && Resolvable(lib, did, s)
    ensures Mirrors(lib, did, l, ResolvedDocument(lib, did, s))
  {
    ListedExactly(s.alsoKnownAs, l.alsoKnownAs);
    MethodsListed(lib, did, l, s);
    RelationsListed(lib, did, l, s);
    ServicesListed(lib, did, l, s);
  }

  /** Resolution of a ledger that API calls have reached, from any reading of it: it succeeds exactly when
      the Schnorr-Jubjub ids are key ids and the service types read back, and the document then mirrors
      the ledger. */
  method ResolveReachable(lib: Libraries, address: Bytes32, network: MidnightDid.Network, ghost crypto: C.Crypto,
                          ghost controllerKey: C.Point, ghost recoveryKey: C.Point, ghost timestamp: nat,
                          ghost qs: seq<C.Request>, s: Snapshot) returns (r: Result<Document, ResolveError>)
    requires controllerKey != recoveryKey
    requires IsApiRun(lib, address, network, crypto, C.Genesis(controllerKey, recoveryKey, address, timestamp), qs, s)
    ensures var l := Run(crypto, C.Genesis(controllerKey, recoveryKey, address, timestamp), qs);
            && (r.Ok? <==> SchnorrIdsAreKeyIds(l) && TypesRead(lib, l))
            && (r.Ok? ==> Mirrors(lib, DidSubject(address, network), l, r.value))
  {
    var did := DidSubject(address, network);
    ghost var l := Run(crypto, C.Genesis(controllerKey, recoveryKey, address, timestamp), qs);
    ApiRunIsReady(lib, address, network, crypto, controllerKey, recoveryKey, timestamp, qs, s);
    ReadyResolves(lib, did, l, s);
    r := LedgerStateToDidDocument(lib, did, s);
    if r.Ok? {
      ResolvedMirrors(lib, did, l, s);
    }
  }
}
