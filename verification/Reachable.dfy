/** Every ledger that API calls can reach resolves, and to a consistent document. */
module Reachable {
  import opened Prelude
  import opened Text
  import opened DidTypes
  import opened Foreign
  import opened DidDocument
  import opened LedgerUtils
  import opened Mappers
  import opened Snapshot
  import opened Resolution
  import Base64Url
  import Calendar
  import C = Contract
  import opened ContractSafety
  import Hex
  import MidnightDid

  // ---------------------------------------------------------------------------
  // What API calls store
  // ---------------------------------------------------------------------------

  /** A service that `Service::new` hands out. */
  ghost predicate IsDomainService(lib: Libraries, s: Service) {
    exists given: Service :: NewService(lib, given) == Some(s)
  }

  /** The ledger form of some domain service. */
  ghost predicate FromDomainService(lib: Libraries, did: string, stored: C.LedgerService) {
    exists s: Service :: IsDomainService(lib, s) && ServiceToLedger(lib, did, s) == Ok(stored)
  }

  ghost predicate FromDomainMethod(lib: Libraries, did: string, stored: C.LedgerMethod) {
    exists m: VerificationMethod :: IsValidMethod(lib, m) && VerificationMethodToLedger(did, m) == Ok(stored)
  }

  ghost predicate FromApiSchnorr(did: string, stored: C.SchnorrMethod) {
    exists m: ApiSchnorrMethod :: m.id != "" && SchnorrMethodToLedger(did, m) == Ok(stored)
  }

  /** The calls that the API layer builds: whatever they store comes out of the mappers. */
  ghost predicate ApiBuilt(lib: Libraries, did: string, call: C.Call) {
    match call
    case SetVerificationMethod(vm, _) => FromDomainMethod(lib, did, vm)
    case SetSchnorrMethod(vm, _) => FromApiSchnorr(did, vm)
    case SetService(s, _) => FromDomainService(lib, did, s)
    case _ => true
  }

  ghost predicate MethodsStored(methods: map<string, C.LedgerMethod>) {
    forall id :: id in methods ==> "#" <= id && IsKeyFragment(id[1..]) && StoredJwk(methods[id].publicKeyJwk)
  }

  ghost predicate SchnorrStored(methods: map<string, C.SchnorrMethod>) {
    forall id :: id in methods ==> IsLedgerId(id)
  }

  ghost predicate ServicesStored(lib: Libraries, did: string, services: map<string, C.LedgerService>) {
    forall id :: id in services ==> FromDomainService(lib, did, services[id])
  }

  /** What API calls keep in addition to the contract's own invariant. */
  ghost predicate Stored(lib: Libraries, did: string, l: C.Ledger) {
    MethodsStored(l.methods) && SchnorrStored(l.schnorrMethods) && ServicesStored(lib, did, l.services)
  }

  lemma FromDomainMethodStores(lib: Libraries, did: string, vm: C.LedgerMethod)
    requires FromDomainMethod(lib, did, vm)
    ensures "#" <= vm.id && IsKeyFragment(vm.id[1..]) && StoredJwk(vm.publicKeyJwk)
  {
    var m: VerificationMethod :| IsValidMethod(lib, m) && VerificationMethodToLedger(did, m) == Ok(vm);
    MappedKeyId(lib, did, m.id);
    MappedJwk(m.publicKeyJwk);
  }

  lemma FromApiSchnorrStores(did: string, vm: C.SchnorrMethod)
    requires FromApiSchnorr(did, vm)
    ensures IsLedgerId(vm.id)
  {
    var m: ApiSchnorrMethod :| m.id != "" && SchnorrMethodToLedger(did, m) == Ok(vm);
    BoundIdShape(m.id, did, did);
  }

  lemma EffectStores(lib: Libraries, did: string, l: C.Ledger, call: C.Call)
    requires Stored(lib, did, l) && ApiBuilt(lib, did, call)
    ensures Stored(lib, did, C.Effect(l, call))
  {
    EffectOnMaps(l, call);
    match call
    case SetVerificationMethod(vm, _) => PutMethod(lib, did, l.methods, vm);
    case SetSchnorrMethod(vm, _) => FromApiSchnorrStores(did, vm);
    case SetService(s, _) => PutService(lib, did, l.services, s);
    case _ =>
      MethodsSubmap(l.methods, C.Effect(l, call).methods);
      ServicesSubmap(lib, did, l.services, C.Effect(l, call).services);
  }

  /** What a call does to the three maps. */
  lemma EffectOnMaps(l: C.Ledger, call: C.Call)
    ensures var n := C.Effect(l, call);
            && n.methods == (match call case SetVerificationMethod(vm, _) => l.methods[vm.id := vm]
                                        case RemoveVerificationMethod(id) => l.methods - {id}
                                        case _ => l.methods)
            && n.schnorrMethods == (match call case SetSchnorrMethod(vm, _) => l.schnorrMethods[vm.id := vm]
                                               case RemoveSchnorrMethod(id) => l.schnorrMethods - {id}
                                               case _ => l.schnorrMethods)
            && n.services == (match call case SetService(s, _) => l.services[s.id := s]
                                         case RemoveService(id) => l.services - {id}
                                         case _ => l.services)
  {
    if call.SetRelation? {
      RelationFrame(l, call);
    }
  }

  lemma PutMethod(lib: Libraries, did: string, methods: map<string, C.LedgerMethod>, vm: C.LedgerMethod)
    requires MethodsStored(methods) && FromDomainMethod(lib, did, vm)
    ensures MethodsStored(methods[vm.id := vm])
  {
    FromDomainMethodStores(lib, did, vm);
  }

  lemma PutService(lib: Libraries, did: string, services: map<string, C.LedgerService>, s: C.LedgerService)
    requires ServicesStored(lib, did, services) && FromDomainService(lib, did, s)
    ensures ServicesStored(lib, did, services[s.id := s])
  {
  }

  lemma MethodsSubmap(methods: map<string, C.LedgerMethod>, fewer: map<string, C.LedgerMethod>)
    requires MethodsStored(methods) && forall id :: id in fewer ==> id in methods && fewer[id] == methods[id]
    ensures MethodsStored(fewer)
  {
  }

  lemma ServicesSubmap(lib: Libraries, did: string, services: map<string, C.LedgerService>,
                       fewer: map<string, C.LedgerService>)
    requires ServicesStored(lib, did, services) && forall id :: id in fewer ==> id in services && fewer[id] == services[id]
    ensures ServicesStored(lib, did, fewer)
  {
  }

  /** Runs of API-built requests, accepted or not, keep both invariants. */
  lemma {:induction false} RunStores(lib: Libraries, did: string, crypto: C.Crypto, l: C.Ledger, qs: seq<C.Request>)
    requires Inv(l) && Stored(lib, did, l) && forall q :: q in qs ==> ApiBuilt(lib, did, q.call)
    ensures Inv(Run(crypto, l, qs)) && Stored(lib, did, Run(crypto, l, qs))
  {
    RunKeeps(crypto, l, qs);
    if qs != [] {
      var k := |qs| - 1;
      RunStores(lib, did, crypto, l, qs[..k]);
      assert qs[k] in qs;
      EffectStores(lib, did, Run(crypto, l, qs[..k]), qs[k].call);
    }
  }

  // ---------------------------------------------------------------------------
  // Reading stored values back
  // ---------------------------------------------------------------------------

  lemma FragmentIsLedgerId(id: string)
    requires "#" <= id && IsKeyFragment(id[1..])
    ensures IsLedgerId(id)
  {
    HashIsNotSpace();
    assert id[|id| - 1] == id[1..][|id| - 2] && IsKeyFragmentChar(id[|id| - 1]);
  }

  lemma StoredJwkReads(jwk: C.LedgerJwk)
    requires StoredJwk(jwk)
    ensures DomainJwk(jwk).Some? && IsValidJwk(DomainJwk(jwk).value)
  {
    if jwk.kty.EC? {
      var b :| |b| == 32 && jwk.y == Base64Url.Encode(b);
      Base64Url.EncodeShape(b);
    }
  }

  /** Storing a key and reading it back loses its extension members and nothing else. */
  lemma JwkRoundTrip(jwk: PublicKeyJwk)
    requires IsValidJwk(jwk) && HasMidnightProfile(jwk)
    ensures PublicKeyJwkToLedger(jwk).Ok?
    ensures DomainJwk(PublicKeyJwkToLedger(jwk).value) == Some(jwk.(extensions := map[]))
  {
    ValidJwkMaps(jwk);
    MappedJwk(jwk);
    StoredJwkReads(PublicKeyJwkToLedger(jwk).value);
    if jwk.kty.EC? {
      var b :| |b| == 32 && jwk.y.value == Base64Url.Encode(b);
      Base64Url.EncodeShape(b);
    }
  }

  /** A point printed as hex is read back as the same point, in base64url coordinates. */
  lemma PointRoundTrip(vm: C.SchnorrMethod)
    ensures SchnorrJwk(EntryOf(vm)) == Some(PublicKeyJwk(EC, Jubjub, Base64Url.Encode(vm.publicKey.x),
                                                         Some(Base64Url.Encode(vm.publicKey.y)), map[]))
    ensures IsValidJwk(SchnorrJwk(EntryOf(vm)).value)
  {
    CoordinateRoundTrip(vm.publicKey.x, X);
    CoordinateRoundTrip(vm.publicKey.y, Y);
    assert IsCoordinate(Base64Url.Encode(vm.publicKey.x), 32) && IsCoordinate(Base64Url.Encode(vm.publicKey.y), 32);
  }

  lemma CoordinateRoundTrip(b: Bytes32, c: Coordinate)
    ensures DecodeJubjubCoordinate(Hex.Encode(b), c) == Ok(b)
  {
    Hex.DecodeEncode(b);
    assert b + seq(32 - |b|, i => 0) == b;
  }

  lemma {:induction false} EntriesRoundTrip(entries: seq<EndpointEntry>, items: seq<Json>)
    requires |items| == |entries| && forall i :: 0 <= i < |entries| ==> items[i] == EntryJson(entries[i])
    ensures EntriesOfJson(items) == Some(entries)
    decreases |entries|
  {
    if entries != [] {
      EntriesRoundTrip(entries[1..], items[1..]);
      assert entries == [entries[0]] + entries[1..];
    }
  }

  /** A stored endpoint is read back as its normalised form. */
  lemma EndpointRoundTrip(lib: Libraries, e: ServiceEndpoint)
    requires lib.JsonRoundTrips()
    ensures ParseServiceEndpoint(lib, EndpointToLedger(lib, e)) == Some(NormalizeEndpoint(lib, e))
  {
    var n := NormalizeEndpoint(lib, e);
    var j := EndpointJson(n);
    assert lib.PrintsWell(j);
    TrimIsTrimmed(lib.printJson(j));
    if n.Array? {
      EntriesRoundTrip(n.entries, j.items);
    }
  }

  /** The text of a stored service type that starts with a bracket is a JSON list of types. */
  ghost predicate ReadsAsList(lib: Libraries, typ: string) {
    exists names: seq<string> ::
      lib.parseJson(typ) == Some(StringList(names)) && names != [] && "" !in TrimAll(names) && Distinct(TrimAll(names))
  }

  ghost predicate TypeReads(lib: Libraries, typ: string) { "[" <= typ ==> ReadsAsList(lib, typ) }

  lemma StringsOfList(names: seq<string>)
    ensures StringsOf(StringList(names)) == Some(names)
  {
    var j := StringList(names);
    assert StringsOf(j).Some? && StringsOf(j).value == names;
  }

  lemma ListOfStrings(j: Json)
    requires StringsOf(j).Some?
    ensures j == StringList(StringsOf(j).value)
  {
    var k := StringList(StringsOf(j).value);
    forall i | 0 <= i < |j.items| ensures j.items[i] == k.items[i] {
      assert j.items[i] in j.items;
    }
    assert j.items == k.items;
  }

  lemma TypeReadsMeaning(lib: Libraries, typ: string)
    requires typ != "" && Trimmed(typ)
    ensures ParseServiceType(lib, typ).Some? <==> TypeReads(lib, typ)
    ensures ParseServiceType(lib, typ).Some? ==> ParseServiceType(lib, typ).value !in [One(""), Many([])]
  {
    TrimIsTrimmed(typ);
    if "[" <= typ && ParseServiceType(lib, typ).Some? {
      var j := lib.parseJson(typ).value;
      ListOfStrings(j);
      DistinctCountMeaning(TrimAll(StringsOf(j).value));
      assert ReadsAsList(lib, typ);
    }
    if "[" <= typ && ReadsAsList(lib, typ) {
      var names: seq<string> :|
        lib.parseJson(typ) == Some(StringList(names)) && names != [] && "" !in TrimAll(names) && Distinct(TrimAll(names));
      StringsOfList(names);
      DistinctCountMeaning(TrimAll(names));
    }
  }

  /** What the mappers leave in the type of a stored service. */
  lemma StoredType(lib: Libraries, t: ServiceType)
    requires lib.JsonRoundTrips() && ServiceTypeToLedger(lib, t).Ok?
    ensures var typ := ServiceTypeToLedger(lib, t).value; typ != "" && Trimmed(typ)
    ensures !LooksLikeList(t) ==> TypeReads(lib, ServiceTypeToLedger(lib, t).value)
  {
    var typ := ServiceTypeToLedger(lib, t).value;
    match t
    case One(s) => TrimIsTrimmed(s);
    case Many(names) =>
      if |names| == 1 {
        TrimIsTrimmed(names[0]);
        assert TrimAll(names)[0] in TrimAll(names);
      } else {
        assert lib.PrintsWell(StringList(TrimAll(names)));
      }
    if !LooksLikeList(t) {
      ServiceTypeRoundTrip(lib, t);
      TypeReadsMeaning(lib, typ);
    }
  }

  lemma AbsoluteUrl(did: string, id: string)
    requires IsDidString(did) && IsLedgerId(id)
    ensures AbsoluteReference(did, id) == did + id && IsDidUrl(did + id)
  {
    LedgerIdReads(did, id);
    assert id == "#" + id[1..];
    AbsoluteDidUrl(did, id[1..]);
    assert did + id == did + "#" + id[1..];
  }

  lemma AbsoluteDidUrl(did: string, f: string)
    requires IsDidString(did)
    ensures IsDidUrl(did + "#" + f)
  {
    SplitGrows(did, "#" + f);
    assert did + ("#" + f) == did + "#" + f;
  }

  /** A stored service is read back exactly when its type is readable. */
  lemma StoredServiceReads(lib: Libraries, did: string, stored: C.LedgerService)
    requires lib.JsonRoundTrips() && IsDidString(did) && FromDomainService(lib, did, stored)
    ensures ParseLedgerService(lib, did, stored).Some? <==> TypeReads(lib, stored.typ)
    ensures ParseLedgerService(lib, did, stored).Some? ==>
              ParseLedgerService(lib, did, stored).value.id == did + stored.id
  {
    var s: Service :| IsDomainService(lib, s) && ServiceToLedger(lib, did, s) == Ok(stored);
    MappedServiceReads(lib, did, s, stored);
  }

  lemma MappedServiceReads(lib: Libraries, did: string, s: Service, stored: C.LedgerService)
    requires lib.JsonRoundTrips() && IsDidString(did) && ServiceToLedger(lib, did, s) == Ok(stored)
    ensures var typ := ParseServiceType(lib, stored.typ);
            ParseLedgerService(lib, did, stored)
            == if typ.None? then None
               else Some(Service(did + stored.id, typ.value, NormalizeEndpoint(lib, NormalizeEndpoint(lib, s.endpoint))))
    ensures ParseServiceType(lib, stored.typ).Some? <==> TypeReads(lib, stored.typ)
  {
    StoredType(lib, s.typ);
    TypeReadsMeaning(lib, stored.typ);
    EndpointRoundTrip(lib, s.endpoint);
    BoundIdShape(s.id, did, did);
    AbsoluteUrl(did, stored.id);
  }

  /** A service stored by the API comes back with its type in normal form and its endpoint normalised,
      exactly when its type does not look like a list. */
  lemma ServiceRoundTrip(lib: Libraries, did: string, s: Service, stored: C.LedgerService)
    requires lib.JsonRoundTrips() && IsDidString(did) && ServiceToLedger(lib, did, s) == Ok(stored)
    ensures ParseLedgerService(lib, did, stored)
         == Some(Service(did + stored.id, NormalType(s.typ), NormalizeEndpoint(lib, NormalizeEndpoint(lib, s.endpoint))))
        <==> !LooksLikeList(s.typ)
  {
    MappedServiceReads(lib, did, s, stored);
    ServiceTypeRoundTrip(lib, s.typ);
  }

  // ---------------------------------------------------------------------------
  // Resolution
  // ---------------------------------------------------------------------------

  /** The side condition on Schnorr-Jubjub ids, which the API does not check when it stores them. */
  predicate SchnorrIdsAreKeyIds(l: C.Ledger) {
    forall id :: id in l.schnorrMethods ==> id != "" && IsKeyFragment(id[1..])
  }

  /** The side condition on services. */
  ghost predicate TypesRead(lib: Libraries, l: C.Ledger) {
    forall id :: id in l.services ==> TypeReads(lib, l.services[id].typ)
  }

  /** What is taken for granted about the libraries, and what runs of API calls establish. */
  ghost predicate Ready(lib: Libraries, did: string, l: C.Ledger, s: Snapshot) {
    && lib.JsonRoundTrips() && FragmentsJoin(lib) && IsDidString(did)
    && Inv(l) && Stored(lib, did, l) && Projects(l, s)
  }

  lemma MethodFromKey(lib: Libraries, did: string, id: string, typ: VerificationMethodType, jwk: PublicKeyJwk)
    requires IsDidString(did) && IsLedgerId(id) && IsValidJwk(jwk)
    ensures MethodFrom(lib, did, id, typ, Some(jwk))
         == if IsKeyFragment(id[1..]) then Some(VerificationMethod(did + id, typ, did, jwk)) else None
  {
    LedgerKeyId(lib, did, id);
  }

  lemma LedgerKeyId(lib: Libraries, did: string, id: string)
    requires IsDidString(did) && IsLedgerId(id)
    ensures AbsoluteReference(did, id) == did + id
    ensures IsDidKeyId(lib, did + id) <==> IsKeyFragment(id[1..])
  {
    AbsoluteUrl(did, id);
    AbsoluteKeyId(lib, did, id[1..]);
    HashInFront(did, id);
  }

  lemma HashInFront(did: string, id: string)
    requires "#" <= id
    ensures did + id == did + "#" + id[1..]
  {
    assert id == "#" + id[1..];
  }

  lemma StoredMethodIsLedgerId(l: C.Ledger, id: string)
    requires MethodsStored(l.methods) && SchnorrStored(l.schnorrMethods) && C.MethodExistsIn(l, id)
    ensures IsLedgerId(id)
  {
    if id in l.methods {
      FragmentIsLedgerId(id);
    }
  }

  lemma EntryOfMap<V>(entries: seq<(string, V)>, m: map<string, V>, i: nat)
    requires ListsMap(entries, m) && i < |entries|
    ensures entries[i].0 in m && m[entries[i].0] == entries[i].1
  {
    assert entries[i] in entries;
  }

  lemma IndexOfKey<V>(entries: seq<(string, V)>, m: map<string, V>, id: string) returns (i: nat)
    requires ListsMap(entries, m) && id in m
    ensures i < |entries| && entries[i] == (id, m[id])
  {
    assert id in KeysOf(entries);
    i :| 0 <= i < |KeysOf(entries)| && KeysOf(entries)[i] == id;
    assert entries[i] in entries;
  }

  /** The method that a JWK entry resolves to. */
  lemma JwkEntryResolves(lib: Libraries, did: string, l: C.Ledger, s: Snapshot, i: nat)
    requires Ready(lib, did, l, s) && i < |s.methods|
    ensures DomainJwk(s.methods[i].1.publicKeyJwk).Some?
    ensures JwkOptions(lib, did, s.methods)[i]
         == Some(VerificationMethod(did + s.methods[i].0, JsonWebKey, did, DomainJwk(s.methods[i].1.publicKeyJwk).value))
  {
    EntryOfMap(s.methods, l.methods, i);
    var (id, vm) := s.methods[i];
    assert C.Supported(vm);
    StoredJwkReads(vm.publicKeyJwk);
    FragmentIsLedgerId(id);
    MethodFromKey(lib, did, id, vm.typ, DomainJwk(vm.publicKeyJwk).value);
  }

  lemma SchnorrEntryResolves(lib: Libraries, did: string, l: C.Ledger, s: Snapshot, i: nat)
    requires Ready(lib, did, l, s) && i < |s.schnorrMethods|
    ensures SchnorrOptions(lib, did, s.schnorrMethods)[i].Some? <==> IsKeyFragment(s.schnorrMethods[i].0[1..])
    ensures SchnorrOptions(lib, did, s.schnorrMethods)[i].Some? ==>
              SchnorrOptions(lib, did, s.schnorrMethods)[i].value.id == did + s.schnorrMethods[i].0
  {
    EntryOfMap(s.schnorrMethods, EntriesOf(l.schnorrMethods), i);
    var id := s.schnorrMethods[i].0;
    var vm := l.schnorrMethods[id];
    PointRoundTrip(vm);
    MethodFromKey(lib, did, id, JsonWebKey, SchnorrJwk(EntryOf(vm)).value);
  }

  lemma SchnorrMethodsResolve(lib: Libraries, did: string, l: C.Ledger, s: Snapshot)
    requires Ready(lib, did, l, s)
    ensures (forall m :: m in SchnorrOptions(lib, did, s.schnorrMethods) ==> m.Some?) <==> SchnorrIdsAreKeyIds(l)
  {
    var wanted := SchnorrOptions(lib, did, s.schnorrMethods);
    if forall m :: m in wanted ==> m.Some? {
      forall id | id in l.schnorrMethods ensures id != "" && IsKeyFragment(id[1..]) {
        assert IsLedgerId(id);
        var i := IndexOfKey(s.schnorrMethods, EntriesOf(l.schnorrMethods), id);
        assert wanted[i] in wanted;
        SchnorrEntryResolves(lib, did, l, s, i);
      }
    }
    if SchnorrIdsAreKeyIds(l) {
      forall m | m in wanted ensures m.Some? {
        var i :| 0 <= i < |wanted| && wanted[i] == m;
        EntryOfMap(s.schnorrMethods, EntriesOf(l.schnorrMethods), i);
        SchnorrEntryResolves(lib, did, l, s, i);
      }
    }
  }

  lemma JwkMethodsResolve(lib: Libraries, did: string, l: C.Ledger, s: Snapshot)
    requires Ready(lib, did, l, s)
    ensures forall m :: m in JwkOptions(lib, did, s.methods) ==> m.Some?
  {
    var wanted := JwkOptions(lib, did, s.methods);
    forall m | m in wanted ensures m.Some? {
      var i :| 0 <= i < |wanted| && wanted[i] == m;
      JwkEntryResolves(lib, did, l, s, i);
    }
  }

  /** Stored ids are their own fragment ids, and the two maps have different ones. */
  lemma KeysAreFragmentIds(lib: Libraries, did: string, l: C.Ledger, s: Snapshot)
    requires Ready(lib, did, l, s)
    ensures FragmentIds(AllKeys(s)) == AllKeys(s) && Distinct(AllKeys(s))
    ensures forall id :: id in AllKeys(s) <==> C.MethodExistsIn(l, id)
  {
    var a, b := KeysOf(s.methods), KeysOf(s.schnorrMethods);
    forall id ensures id in AllKeys(s) <==> C.MethodExistsIn(l, id) {
      assert id in AllKeys(s) <==> id in a || id in b;
    }
    forall i | 0 <= i < |AllKeys(s)| ensures FragmentId(AllKeys(s)[i]) == AllKeys(s)[i] {
      assert AllKeys(s)[i] in AllKeys(s);
      StoredMethodIsLedgerId(l, AllKeys(s)[i]);
      LedgerIdReads(did, AllKeys(s)[i]);
    }
    DistinctParts(a, b);
  }

  lemma DistinctParts(a: seq<string>, b: seq<string>)
    requires Distinct(a) && Distinct(b) && forall x :: x in a ==> x !in b
    ensures Distinct(a + b)
  {
    forall i, j | 0 <= i < j < |a + b| ensures (a + b)[i] != (a + b)[j] {
      if i < |a| && |a| <= j {
        assert a[i] in a && b[j - |a|] in b;
      }
    }
  }

  lemma RelationMember(lib: Libraries, did: string, l: C.Ledger, s: Snapshot, relation: Relation, id: string)
    requires Ready(lib, did, l, s) && id in RelationSet(s, relation)
    ensures C.MethodExistsIn(l, id) && IsLedgerId(id) && FragmentId(id) == id
  {
    assert Lists(RelationSet(s, relation), C.Members(l, relation));
    assert EntryKept(l, relation, id);
    StoredMethodIsLedgerId(l, id);
    LedgerIdReads(did, id);
  }

  lemma RelationsResolve(lib: Libraries, did: string, l: C.Ledger, s: Snapshot, relation: Relation)
    requires Ready(lib, did, l, s) && SchnorrIdsAreKeyIds(l)
    ensures TargetsExist(lib, s, relation)
  {
    KeysAreFragmentIds(lib, did, l, s);
    forall m | m in RelationSet(s, relation)
      ensures FragmentId(m) in FragmentIds(AllKeys(s)) && IsDidKeyId(lib, FragmentId(m))
    {
      RelationMember(lib, did, l, s, relation, m);
      StoredIdIsKeyId(lib, l, m);
    }
  }

  lemma StoredIdIsKeyId(lib: Libraries, l: C.Ledger, id: string)
    requires FragmentsJoin(lib) && MethodsStored(l.methods) && SchnorrIdsAreKeyIds(l)
    requires C.MethodExistsIn(l, id) && IsLedgerId(id)
    ensures IsDidKeyId(lib, id)
  {
    FragmentReference(lib, id[1..]);
    assert id == "#" + id[1..];
  }

  lemma ServicesResolve(lib: Libraries, did: string, l: C.Ledger, s: Snapshot)
    requires Ready(lib, did, l, s)
    ensures (forall v :: v in ServiceOptions(lib, did, s.services) ==> v.Some?) <==> TypesRead(lib, l)
  {
    var wanted := ServiceOptions(lib, did, s.services);
    if forall v :: v in wanted ==> v.Some? {
      forall id | id in l.services ensures TypeReads(lib, l.services[id].typ) {
        var i := IndexOfKey(s.services, l.services, id);
        assert wanted[i] in wanted;
        StoredServiceReads(lib, did, l.services[id]);
      }
    }
    if TypesRead(lib, l) {
      forall v | v in wanted ensures v.Some? {
        var i :| 0 <= i < |wanted| && wanted[i] == v;
        EntryOfMap(s.services, l.services, i);
        StoredServiceReads(lib, did, s.services[i].1);
      }
    }
  }

  lemma ReadyResolves(lib: Libraries, did: string, l: C.Ledger, s: Snapshot)
    requires Ready(lib, did, l, s)
    ensures Resolvable(lib, did, s) <==> SchnorrIdsAreKeyIds(l) && TypesRead(lib, l)
  {
    JwkMethodsResolve(lib, did, l, s);
    SchnorrMethodsResolve(lib, did, l, s);
    KeysAreFragmentIds(lib, did, l, s);
    ServicesResolve(lib, did, l, s);
    if SchnorrIdsAreKeyIds(l) {
      forall r ensures TargetsExist(lib, s, r) {
        RelationsResolve(lib, did, l, s, r);
      }
    }
  }

  // ---------------------------------------------------------------------------
  // Validity of the resolved document
  // ---------------------------------------------------------------------------

  ghost predicate HasId(m: Option<VerificationMethod>, id: string) { m.Some? && m.value.id == id }

  lemma JwkIds(lib: Libraries, did: string, l: C.Ledger, s: Snapshot)
    requires Ready(lib, did, l, s)
    ensures forall i :: 0 <= i < |s.methods| ==> HasId(JwkOptions(lib, did, s.methods)[i], did + s.methods[i].0)
  {
    forall i | 0 <= i < |s.methods| ensures HasId(JwkOptions(lib, did, s.methods)[i], did + s.methods[i].0) {
      JwkEntryResolves(lib, did, l, s, i);
    }
  }

  lemma SchnorrIds(lib: Libraries, did: string, l: C.Ledger, s: Snapshot)
    requires Ready(lib, did, l, s) && forall m :: m in SchnorrOptions(lib, did, s.schnorrMethods) ==> m.Some?
    ensures forall i :: 0 <= i < |s.schnorrMethods| ==>
              HasId(SchnorrOptions(lib, did, s.schnorrMethods)[i], did + s.schnorrMethods[i].0)
  {
    var wanted := SchnorrOptions(lib, did, s.schnorrMethods);
    forall i | 0 <= i < |s.schnorrMethods| ensures HasId(wanted[i], did + s.schnorrMethods[i].0) {
      assert wanted[i] in wanted;
      SchnorrEntryResolves(lib, did, l, s, i);
    }
  }

  lemma IdsOfValues(a: seq<Option<VerificationMethod>>, b: seq<Option<VerificationMethod>>, front: seq<string>,
                    back: seq<string>, did: string)
    requires (forall m :: m in a ==> m.Some?) && (forall m :: m in b ==> m.Some?)
    requires |a| == |front| && |b| == |back|
    requires forall i :: 0 <= i < |a| ==> HasId(a[i], did + front[i])
    requires forall i :: 0 <= i < |b| ==> HasId(b[i], did + back[i])
    ensures var all := Values(a) + Values(b);
            |all| == |front + back| && forall i :: 0 <= i < |all| ==> all[i].id == did + (front + back)[i]
  {
    forall i | 0 <= i < |a| + |b| ensures (Values(a) + Values(b))[i].id == did + (front + back)[i] {
      if i < |a| {
        assert HasId(a[i], did + front[i]);
      } else {
        assert HasId(b[i - |a|], did + back[i - |a|]);
      }
    }
  }

  lemma ResolvedIds(lib: Libraries, did: string, l: C.Ledger, s: Snapshot)
    requires Ready(lib, did, l, s) && Resolvable(lib, did, s)
    ensures var doc := ResolvedDocument(lib, did, s);
            && |MethodIds(doc)| == |AllKeys(s)|
            && forall i :: 0 <= i < |AllKeys(s)| ==> MethodIds(doc)[i] == did + AllKeys(s)[i]
  {
    JwkIds(lib, did, l, s);
    SchnorrIds(lib, did, l, s);
    IdsOfValues(JwkOptions(lib, did, s.methods), SchnorrOptions(lib, did, s.schnorrMethods),
                KeysOf(s.methods), KeysOf(s.schnorrMethods), did);
    assert OrEmpty(ResolvedDocument(lib, did, s).verificationMethod) == ResolvedMethods(lib, did, s);
  }

  lemma CanonicalForms(did: string, id: string)
    requires "did:" <= did && IsLedgerId(id)
    ensures Canonical(did, id) == did + id && Canonical(did, did + id) == did + id
  {
    assert id == "#" + id[1..] && id[0] == '#';
    assert did + "#" + id[1..] == did + id;
    assert (did + id)[..4] == did[..4];
  }

  lemma PrefixedDistinct(did: string, keys: seq<string>, prefixed: seq<string>)
    requires Distinct(keys) && |prefixed| == |keys| && forall i :: 0 <= i < |keys| ==> prefixed[i] == did + keys[i]
    ensures Distinct(prefixed)
  {
    forall i, j | 0 <= i < j < |keys| ensures prefixed[i] != prefixed[j] {
      assert prefixed[i][|did|..] == keys[i] && prefixed[j][|did|..] == keys[j];
    }
  }

  lemma ResolvedMethodIdsValid(lib: Libraries, did: string, l: C.Ledger, s: Snapshot)
    requires Ready(lib, did, l, s) && Resolvable(lib, did, s)
    ensures var doc := ResolvedDocument(lib, did, s);
            var ids := Canonicals(did, MethodIds(doc));
            && Distinct(ids) && |ids| == |AllKeys(s)|
            && forall i :: 0 <= i < |ids| ==> ids[i] == did + AllKeys(s)[i]
  {
    ResolvedIds(lib, did, l, s);
    KeysAreFragmentIds(lib, did, l, s);
    var ids := Canonicals(did, MethodIds(ResolvedDocument(lib, did, s)));
    forall i | 0 <= i < |ids| ensures ids[i] == did + AllKeys(s)[i] {
      assert AllKeys(s)[i] in AllKeys(s);
      StoredMethodIsLedgerId(l, AllKeys(s)[i]);
      CanonicalForms(did, AllKeys(s)[i]);
    }
    PrefixedDistinct(did, AllKeys(s), ids);
  }

  lemma ResolvedRelationIs(lib: Libraries, did: string, s: Snapshot, relation: Relation)
    requires Resolvable(lib, did, s)
    ensures RelationIds(ResolvedDocument(lib, did, s), relation) == FragmentIds(RelationSet(s, relation))
  {
  }

  lemma ResolvedRelationValid(lib: Libraries, did: string, l: C.Ledger, s: Snapshot, relation: Relation)
    requires Ready(lib, did, l, s) && Resolvable(lib, did, s)
    ensures var doc := ResolvedDocument(lib, did, s);
            && Distinct(Canonicals(did, RelationIds(doc, relation)))
            && forall id :: id in RelationIds(doc, relation) ==> Canonical(did, id) in Canonicals(did, MethodIds(doc))
  {
    var doc := ResolvedDocument(lib, did, s);
    var members, ids := RelationSet(s, relation), RelationIds(doc, relation);
    ResolvedRelationIs(lib, did, s, relation);
    ResolvedMethodIdsValid(lib, did, l, s);
    KeysAreFragmentIds(lib, did, l, s);
    forall i | 0 <= i < |members| ensures ids[i] == members[i] && Canonical(did, ids[i]) == did + members[i] {
      assert members[i] in members;
      RelationMember(lib, did, l, s, relation, members[i]);
      CanonicalForms(did, members[i]);
    }
    assert Lists(members, C.Members(l, relation));
    PrefixedDistinct(did, members, Canonicals(did, ids));
    forall id | id in ids ensures Canonical(did, id) in Canonicals(did, MethodIds(doc)) {
      var i :| 0 <= i < |ids| && ids[i] == id;
      assert members[i] in members;
      RelationMember(lib, did, l, s, relation, members[i]);
      var k :| 0 <= k < |AllKeys(s)| && AllKeys(s)[k] == members[i];
      assert Canonicals(did, MethodIds(doc))[k] == did + members[i];
    }
  }

  lemma ResolvedServiceIdsDistinct(lib: Libraries, did: string, l: C.Ledger, s: Snapshot)
    requires Ready(lib, did, l, s) && Resolvable(lib, did, s)
    ensures Distinct(ServiceIds(ResolvedDocument(lib, did, s)))
  {
    var doc := ResolvedDocument(lib, did, s);
    var services, wanted := ResolvedServices(lib, did, s), ServiceOptions(lib, did, s.services);
    assert OrEmpty(doc.service) == services;
    forall i | 0 <= i < |s.services| ensures ServiceIds(doc)[i] == did + KeysOf(s.services)[i] {
      EntryOfMap(s.services, l.services, i);
      assert wanted[i] in wanted;
      StoredServiceReads(lib, did, s.services[i].1);
    }
    PrefixedDistinct(did, KeysOf(s.services), ServiceIds(doc));
  }

  lemma ResolvedIsConsistent(lib: Libraries, did: string, l: C.Ledger, s: Snapshot)
    requires Ready(lib, did, l, s) && Resolvable(lib, did, s)
    ensures var doc := ResolvedDocument(lib, did, s);
            IsConsistent(lib, doc) <==> EndpointsDistinct(lib, doc)
  {
    ResolvedMethodIdsValid(lib, did, l, s);
    ResolvedServiceIdsDistinct(lib, did, l, s);
    forall r ensures var doc := ResolvedDocument(lib, did, s);
                     && Distinct(Canonicals(did, RelationIds(doc, r)))
                     && forall id :: id in RelationIds(doc, r) ==> Canonical(did, id) in Canonicals(did, MethodIds(doc)) {
      ResolvedRelationValid(lib, did, l, s, r);
    }
  }

  // ---------------------------------------------------------------------------
  // Runs
  // ---------------------------------------------------------------------------

  lemma GenesisStores(lib: Libraries, did: string, controllerKey: C.Point, recoveryKey: C.Point, self: Bytes32, timestamp: nat)
    ensures Stored(lib, did, C.Genesis(controllerKey, recoveryKey, self, timestamp))
  {
  }

  /** From the constructor through any run of API-built requests: the ledger resolves exactly when
      its Schnorr-Jubjub ids are key ids and its service types read back, and the document then
      passes validation exactly when the entries of each endpoint are distinct. Method ids and
      relations never fail. */
  lemma ReachableResolves(lib: Libraries, address: Bytes32, network: MidnightDid.Network, crypto: C.Crypto,
                          controllerKey: C.Point, recoveryKey: C.Point, timestamp: nat, qs: seq<C.Request>, s: Snapshot)
    requires lib.JsonRoundTrips() && FragmentsJoin(lib) && controllerKey != recoveryKey
    requires forall q :: q in qs ==> ApiBuilt(lib, DidSubject(address, network), q.call)
    requires Projects(Run(crypto, C.Genesis(controllerKey, recoveryKey, address, timestamp), qs), s)
    ensures var did := DidSubject(address, network);
            var l := Run(crypto, C.Genesis(controllerKey, recoveryKey, address, timestamp), qs);
            && (Resolvable(lib, did, s) <==> SchnorrIdsAreKeyIds(l) && TypesRead(lib, l))
            && (Resolvable(lib, did, s) ==>
                  (IsConsistent(lib, ResolvedDocument(lib, did, s))
                   <==> EndpointsDistinct(lib, ResolvedDocument(lib, did, s))))
  {
    var did := DidSubject(address, network);
    var start := C.Genesis(controllerKey, recoveryKey, address, timestamp);
    var l := Run(crypto, start, qs);
    ApiRunIsReady(lib, address, network, crypto, controllerKey, recoveryKey, timestamp, qs, s);
    ReadyResolves(lib, did, l, s);
    if Resolvable(lib, did, s) {
      ResolvedIsConsistent(lib, did, l, s);
    }
  }

  // ---------------------------------------------------------------------------
  // The condition on the calls
  // ---------------------------------------------------------------------------

  /** What a caller can look at before a call: a Schnorr-Jubjub id is a key id, and the type of a
      service does not look like a list. */
  ghost predicate CallReads(lib: Libraries, did: string, call: C.Call) {
    match call
    case SetSchnorrMethod(vm, _) => vm.id != "" && IsKeyFragment(vm.id[1..])
    case SetService(stored, _) =>
      exists s: Service :: IsDomainService(lib, s) && ServiceToLedger(lib, did, s) == Ok(stored) && !LooksLikeList(s.typ)
    case _ => true
  }

  ghost predicate Reads(lib: Libraries, l: C.Ledger) { SchnorrIdsAreKeyIds(l) && TypesRead(lib, l) }

  lemma EffectReads(lib: Libraries, did: string, l: C.Ledger, call: C.Call)
    requires lib.JsonRoundTrips() && Reads(lib, l) && CallReads(lib, did, call)
    ensures Reads(lib, C.Effect(l, call))
  {
    EffectOnMaps(l, call);
    if call.SetService? {
      var s: Service :|
        IsDomainService(lib, s) && ServiceToLedger(lib, did, s) == Ok(call.service) && !LooksLikeList(s.typ);
      StoredType(lib, s.typ);
    }
  }

  lemma {:induction false} RunReads(lib: Libraries, did: string, crypto: C.Crypto, l: C.Ledger, qs: seq<C.Request>)
    requires lib.JsonRoundTrips() && Reads(lib, l) && forall q :: q in qs ==> CallReads(lib, did, q.call)
    ensures Reads(lib, Run(crypto, l, qs))
  {
    if qs != [] {
      var k := |qs| - 1;
      assert qs[k] in qs;
      RunReads(lib, did, crypto, l, qs[..k]);
      EffectReads(lib, did, Run(crypto, l, qs[..k]), qs[k].call);
    }
  }

  /** What the theorems about runs take for granted, and what they are about. */
  ghost predicate IsApiRun(lib: Libraries, address: Bytes32, network: MidnightDid.Network, crypto: C.Crypto,
                           start: C.Ledger, qs: seq<C.Request>, s: Snapshot) {
    && lib.JsonRoundTrips() && FragmentsJoin(lib)
    && (forall q :: q in qs ==> ApiBuilt(lib, DidSubject(address, network), q.call))
    && Projects(Run(crypto, start, qs), s)
  }

  lemma ApiRunIsReady(lib: Libraries, address: Bytes32, network: MidnightDid.Network, crypto: C.Crypto,
                      controllerKey: C.Point, recoveryKey: C.Point, timestamp: nat, qs: seq<C.Request>, s: Snapshot)
    requires controllerKey != recoveryKey
    requires IsApiRun(lib, address, network, crypto, C.Genesis(controllerKey, recoveryKey, address, timestamp), qs, s)
    ensures Ready(lib, DidSubject(address, network),
                  Run(crypto, C.Genesis(controllerKey, recoveryKey, address, timestamp), qs), s)
  {
    var did, start := DidSubject(address, network), C.Genesis(controllerKey, recoveryKey, address, timestamp);
    SubjectIsDid(address, network);
    GenesisKeeps(controllerKey, recoveryKey, address, timestamp);
    GenesisStores(lib, did, controllerKey, recoveryKey, address, timestamp);
    RunStores(lib, did, crypto, start, qs);
  }

  /** If every call of a run names its Schnorr-Jubjub keys by key ids and its services by types that do
      not look like lists, the ledger at the end resolves, accepted or not as the calls may be. */
  lemma ReadableRunResolves(lib: Libraries, address: Bytes32, network: MidnightDid.Network, crypto: C.Crypto,
                            controllerKey: C.Point, recoveryKey: C.Point, timestamp: nat, qs: seq<C.Request>, s: Snapshot)
    requires controllerKey != recoveryKey
    requires IsApiRun(lib, address, network, crypto, C.Genesis(controllerKey, recoveryKey, address, timestamp), qs, s)
    requires forall q :: q in qs ==> CallReads(lib, DidSubject(address, network), q.call)
    ensures Resolvable(lib, DidSubject(address, network), s)
  {
    var did, start := DidSubject(address, network), C.Genesis(controllerKey, recoveryKey, address, timestamp);
    ApiRunIsReady(lib, address, network, crypto, controllerKey, recoveryKey, timestamp, qs, s);
    RunReads(lib, did, crypto, start, qs);
    ReadyResolves(lib, did, Run(crypto, start, qs), s);
  }

  /** What setting one entry does to the two side conditions. */
  lemma ReadsAfter(lib: Libraries, l: C.Ledger, q: C.Request)
    requires Reads(lib, l)
    ensures q.call.SetSchnorrMethod? ==>
              (Reads(lib, C.After(l, q)) == (q.call.schnorr.id != "" && IsKeyFragment(q.call.schnorr.id[1..])))
    ensures q.call.SetService? ==> (Reads(lib, C.After(l, q)) == TypeReads(lib, q.call.service.typ))
  {
    var n := C.After(l, q);
    EffectOnMaps(l, q.call);
    if q.call.SetSchnorrMethod? {
      assert q.call.schnorr.id in n.schnorrMethods;
    } else if q.call.SetService? {
      assert n.services[q.call.service.id] == q.call.service;
    }
  }

  /** Right after an accepted call that sets a Schnorr-Jubjub key on a readable ledger, the ledger resolves
      exactly when the id is a key id. */
  lemma SchnorrCallDecides(lib: Libraries, did: string, crypto: C.Crypto, l: C.Ledger, q: C.Request, s: Snapshot)
    requires C.Accepts(crypto, l, q) && q.call.SetSchnorrMethod? && Reads(lib, l)
    requires Ready(lib, did, C.After(l, q), s)
    ensures Resolvable(lib, did, s) <==> CallReads(lib, did, q.call)
  {
    ReadsAfter(lib, l, q);
    ReadyResolves(lib, did, C.After(l, q), s);
  }

  /** Right after an accepted call that sets a service on a readable ledger, the ledger resolves with the
      service as it was meant exactly when its type does not look like a list. */
  lemma ServiceCallDecides(lib: Libraries, did: string, crypto: C.Crypto, l: C.Ledger, q: C.Request, d: Service, s: Snapshot)
    requires C.Accepts(crypto, l, q) && q.call.SetService? && Reads(lib, l)
    requires ServiceToLedger(lib, did, d) == Ok(q.call.service)
    requires Ready(lib, did, C.After(l, q), s)
    ensures var stored := q.call.service;
            var meant := Service(did + stored.id, NormalType(d.typ), NormalizeEndpoint(lib, NormalizeEndpoint(lib, d.endpoint)));
            (Resolvable(lib, did, s) && ParseLedgerService(lib, did, stored) == Some(meant)) <==> !LooksLikeList(d.typ)
  {
    ReadsAfter(lib, l, q);
    ServiceRoundTrip(lib, did, d, q.call.service);
    StoredType(lib, d.typ);
    ReadyResolves(lib, did, C.After(l, q), s);
  }

  /** The API stores a Schnorr-Jubjub key under `#a b`. */
  lemma UncheckedSchnorrId(did: string, key: C.Point)
    ensures FromApiSchnorr(did, C.SchnorrMethod("#a b", key)) && !IsKeyFragment("#a b"[1..])
  {
    var m := ApiSchnorrMethod("#a b", key);
    assert Trimmed(m.id);
    TrimIsTrimmed(m.id);
    assert SchnorrMethodToLedger(did, m) == Ok(C.SchnorrMethod("#a b", key));
    assert "#a b"[1..][1] == ' ';
  }

  /** The single type `[` is stored as it is. */
  lemma UncheckedServiceType(lib: Libraries)
    requires lib.parseJson("[").None?
    ensures ServiceTypeToLedger(lib, One("[")) == Ok("[") && !TypeReads(lib, "[") && LooksLikeList(One("["))
  {
    assert Trimmed("[");
    TrimIsTrimmed("[");
  }

  /** The request for a call on a fresh contract, signed by the controller. */
  ghost predicate Signed(crypto: C.Crypto, address: Bytes32, controllerKey: C.Point, q: C.Request) {
    && q.expectedVersion == 0 && q.enoughGas
    && crypto.verify(C.AuthorizationDigest(crypto, address, 0, q.call), q.signature, controllerKey)
  }

  lemma RunOfOne(crypto: C.Crypto, l: C.Ledger, q: C.Request)
    ensures Run(crypto, l, [q]) == Step(crypto, l, q)
    ensures AcceptedAt(crypto, l, [q], 0) == C.Accepts(crypto, l, q)
  {
    assert [q][..0] == [];
  }

  /** One accepted API call after which no view of the ledger resolves: a Schnorr-Jubjub key under `#a b`. */
  lemma SchnorrRunDoesNotResolve(lib: Libraries, address: Bytes32, network: MidnightDid.Network, crypto: C.Crypto,
                                 controllerKey: C.Point, recoveryKey: C.Point, timestamp: nat, key: C.Point,
                                 q: C.Request, s: Snapshot)
    requires controllerKey != recoveryKey && Signed(crypto, address, controllerKey, q)
    requires q.call == C.SetSchnorrMethod(C.SchnorrMethod("#a b", key), C.InsertEntry)
    requires lib.JsonRoundTrips() && FragmentsJoin(lib)
    requires Projects(Run(crypto, C.Genesis(controllerKey, recoveryKey, address, timestamp), [q]), s)
    ensures ApiBuilt(lib, DidSubject(address, network), q.call)
    ensures AcceptedAt(crypto, C.Genesis(controllerKey, recoveryKey, address, timestamp), [q], 0)
    ensures !Resolvable(lib, DidSubject(address, network), s)
  {
    var did, start := DidSubject(address, network), C.Genesis(controllerKey, recoveryKey, address, timestamp);
    UncheckedSchnorrId(did, key);
    RunOfOne(crypto, start, q);
    ApiRunIsReady(lib, address, network, crypto, controllerKey, recoveryKey, timestamp, [q], s);
    SchnorrCallDecides(lib, did, crypto, start, q, s);
  }

  /** The same for a service of the single type `[`. */
  lemma ServiceRunDoesNotResolve(lib: Libraries, address: Bytes32, network: MidnightDid.Network, crypto: C.Crypto,
                                 controllerKey: C.Point, recoveryKey: C.Point, timestamp: nat, endpoint: ServiceEndpoint,
                                 q: C.Request, s: Snapshot)
    requires controllerKey != recoveryKey && Signed(crypto, address, controllerKey, q)
    requires q.call == C.SetService(C.LedgerService("#s", "[", EndpointToLedger(lib, NormalizeEndpoint(lib, endpoint))), C.InsertEntry)
    requires lib.JsonRoundTrips() && FragmentsJoin(lib) && lib.parseJson("[").None?
    requires Projects(Run(crypto, C.Genesis(controllerKey, recoveryKey, address, timestamp), [q]), s)
    ensures ApiBuilt(lib, DidSubject(address, network), q.call)
    ensures AcceptedAt(crypto, C.Genesis(controllerKey, recoveryKey, address, timestamp), [q], 0)
    ensures !Resolvable(lib, DidSubject(address, network), s)
  {
    var did, start := DidSubject(address, network), C.Genesis(controllerKey, recoveryKey, address, timestamp);
    var stored := q.call.service;
    BracketServiceIsBuilt(lib, address, network, endpoint);
    RunOfOne(crypto, start, q);
    ApiRunIsReady(lib, address, network, crypto, controllerKey, recoveryKey, timestamp, [q], s);
    var n := C.After(start, q);
    assert n.services["#s"] == stored;
    UncheckedServiceType(lib);
    ReadyResolves(lib, did, n, s);
  }

  lemma BracketServiceIsBuilt(lib: Libraries, address: Bytes32, network: MidnightDid.Network, endpoint: ServiceEndpoint)
    requires lib.parseJson("[").None?
    ensures FromDomainService(lib, DidSubject(address, network),
              C.LedgerService("#s", "[", EndpointToLedger(lib, NormalizeEndpoint(lib, endpoint))))
  {
    var did := DidSubject(address, network);
    SubjectIsDid(address, network);
    var given := Service(did + "#" + "s", One("["), endpoint);
    var d := given.(endpoint := NormalizeEndpoint(lib, endpoint));
    AbsoluteDidUrl(did, "s");
    assert NewService(lib, given) == Some(d);
    assert given.id[0] == 'd' && given.id[|given.id| - 1] == 's';
    BoundIdOfUrl(did, "s");
    UncheckedServiceType(lib);
    assert "#" + "s" == "#s";
    assert ServiceToLedger(lib, did, d) == Ok(C.LedgerService("#s", "[", EndpointToLedger(lib, d.endpoint)));
  }

  /** The time of the last accepted request of a run, or of the start if there is none. */
  ghost function LastAccepted(crypto: C.Crypto, l: C.Ledger, qs: seq<C.Request>): nat {
    if qs == [] then l.updated
    else
      var front := qs[..|qs| - 1];
      if C.Accepts(crypto, Run(crypto, l, front), qs[|qs| - 1]) then qs[|qs| - 1].timestamp
      else LastAccepted(crypto, l, front)
  }

  lemma {:induction false} UpdatedIsLastAccepted(crypto: C.Crypto, l: C.Ledger, qs: seq<C.Request>)
    ensures Run(crypto, l, qs).updated == LastAccepted(crypto, l, qs)
  {
    if qs != [] {
      UpdatedIsLastAccepted(crypto, l, qs[..|qs| - 1]);
    }
  }

  /** The metadata of a reachable ledger: deactivated exactly when a deactivate request was accepted in
      the run, the number of accepted requests as version, and the times of the constructor and of the
      last accepted request. */
  method ReachableMetadata(crypto: C.Crypto, controllerKey: C.Point, recoveryKey: C.Point, address: Bytes32,
                           timestamp: nat, ghost qs: seq<C.Request>, s: Snapshot) returns (m: Metadata)
    requires controllerKey != recoveryKey
    requires Projects(Run(crypto, C.Genesis(controllerKey, recoveryKey, address, timestamp), qs), s)
    ensures m.deactivated == Some(true) || m.deactivated == None
    ensures var start := C.Genesis(controllerKey, recoveryKey, address, timestamp);
            m.deactivated == Some(true) <==>
            exists i: nat :: DeactivatesAt(crypto, start, qs, i)
    ensures var start := C.Genesis(controllerKey, recoveryKey, address, timestamp);
            m.versionId == Decimal(AcceptedCount(crypto, start, qs))
    ensures Calendar.IsIsoOf(timestamp, m.created)
    ensures var start := C.Genesis(controllerKey, recoveryKey, address, timestamp);
            Calendar.IsIsoOf(LastAccepted(crypto, start, qs), m.updated)
  {
    ghost var start := C.Genesis(controllerKey, recoveryKey, address, timestamp);
    GenesisKeeps(controllerKey, recoveryKey, address, timestamp);
    RunKeeps(crypto, start, qs);
    RunCounts(crypto, start, qs);
    DeactivatedIffAccepted(crypto, start, qs);
    UpdatedIsLastAccepted(crypto, start, qs);
    m := LedgerStateToMetadata(s);
  }
}
