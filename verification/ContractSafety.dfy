/** What every run of the contract keeps. */
module ContractSafety {
  import opened Prelude
  import opened DidTypes
  import opened Contract

  // ---------------------------------------------------------------------------
  // The invariant
  // ---------------------------------------------------------------------------

  ghost predicate MethodsKept(l: Ledger) {
    && l.methods.Keys !! l.schnorrMethods.Keys
    && (forall id :: id in l.methods ==> l.methods[id].id == id && Supported(l.methods[id]))
    && (forall id :: id in l.schnorrMethods ==> l.schnorrMethods[id].id == id)
    && (forall id :: id in l.services ==> l.services[id].id == id)
  }

  /** An entry of a relation names a method; keyAgreement entries are X25519 keys, and entries of the
      four signing relations are not. */
  predicate EntryKept(l: Ledger, relation: Relation, id: string) {
    && MethodExistsIn(l, id)
    && (relation.KeyAgreement? ==> id in l.methods)
    && (id in l.methods ==> CurveSuits(l.methods[id].publicKeyJwk.crv, relation))
  }

  ghost predicate RelationsKept(l: Ledger) {
    forall r, id :: id in Members(l, r) ==> EntryKept(l, r, id)
  }

  ghost predicate Inv(l: Ledger) {
    && MethodsKept(l)
    && RelationsKept(l)
    && l.controllerKey != l.recoveryKey
    && l.active == !l.deactivated
    && l.version == l.operationCount
  }

  /** The constructor, if it accepts its keys, starts every run inside the invariant. */
  lemma GenesisKeeps(controllerKey: Point, recoveryKey: Point, self: Bytes32, timestamp: nat)
    requires controllerKey != recoveryKey
    ensures Inv(Genesis(controllerKey, recoveryKey, self, timestamp))
  {
  }

  lemma EffectKeepsMethods(l: Ledger, call: Call)
    requires Inv(l) && Permits(l, call)
    ensures MethodsKept(Effect(l, call))
  {
    if call.SetRelation? {
      RelationFrame(l, call);
    }
  }

  lemma MembersOfWith(l: Ledger, relation: Relation, ids: set<string>, other: Relation)
    ensures Members(WithMembers(l, relation, ids), other)
         == if other == relation && !relation.UndefinedRelation? then ids else Members(l, other)
  {
  }

  lemma WithMembersFrame(l: Ledger, relation: Relation, ids: set<string>)
    ensures var n := WithMembers(l, relation, ids);
            && n.methods == l.methods && n.schnorrMethods == l.schnorrMethods && n.services == l.services
            && n.controllerKey == l.controllerKey && n.recoveryKey == l.recoveryKey && n.alsoKnownAs == l.alsoKnownAs
            && n.active == l.active && n.deactivated == l.deactivated && n.contractVersion == l.contractVersion
            && n.version == l.version && n.operationCount == l.operationCount && n.id == l.id && n.created == l.created
  {
  }

  /** The set of ids that a relation call puts in place. */
  function NewIds(l: Ledger, call: Call): set<string>
    requires call.SetRelation?
  {
    if call.setMutation.InsertMember? then Members(l, call.relation) + {call.id}
    else Members(l, call.relation) - {call.id}
  }

  lemma EffectOfRelation(l: Ledger, call: Call)
    requires call.SetRelation?
    ensures Effect(l, call) == WithMembers(l, call.relation, NewIds(l, call))
  {
  }

  /** Setting a relation touches one of the five sets and nothing else. */
  lemma RelationFrame(l: Ledger, call: Call)
    requires call.SetRelation?
    ensures var n := Effect(l, call);
            && n.methods == l.methods && n.schnorrMethods == l.schnorrMethods && n.services == l.services
            && n.controllerKey == l.controllerKey && n.recoveryKey == l.recoveryKey && n.alsoKnownAs == l.alsoKnownAs
            && n.active == l.active && n.deactivated == l.deactivated
  {
    EffectOfRelation(l, call);
    WithMembersFrame(l, call.relation, NewIds(l, call));
  }

  lemma OtherFrame(l: Ledger, call: Call, relation: Relation)
    requires !call.SetRelation?
    ensures Members(Effect(l, call), relation) == Members(l, relation)
  {
  }

  lemma RelationKeepsEntry(l: Ledger, call: Call, relation: Relation, id: string)
    requires Inv(l) && Permits(l, call) && call.SetRelation? && id in Members(Effect(l, call), relation)
    ensures EntryKept(Effect(l, call), relation, id)
  {
    RelationFrame(l, call);
    EffectOfRelation(l, call);
    MembersOfWith(l, call.relation, NewIds(l, call), relation);
    if id in Members(l, relation) {
      assert EntryKept(l, relation, id);
    }
  }

  lemma OtherKeepsEntry(l: Ledger, call: Call, relation: Relation, id: string)
    requires Inv(l) && Permits(l, call) && !call.SetRelation? && id in Members(Effect(l, call), relation)
    ensures EntryKept(Effect(l, call), relation, id)
  {
    OtherFrame(l, call, relation);
    assert EntryKept(l, relation, id);
    match call
    case SetVerificationMethod(vm, m) => WrittenKeepsEntry(l, vm, m, relation, id);
    case RemoveVerificationMethod(_) => assert Referenced(l, id);
    case RemoveSchnorrMethod(_) => assert Referenced(l, id);
    case _ =>
  }

  /** A written method suits every relation that lists it: a new one is listed by none. */
  lemma WrittenKeepsEntry(l: Ledger, vm: LedgerMethod, m: MapMutation, relation: Relation, id: string)
    requires Permits(l, SetVerificationMethod(vm, m)) && id in Members(l, relation) && EntryKept(l, relation, id)
    ensures EntryKept(Effect(l, SetVerificationMethod(vm, m)), relation, id)
  {
  }

  lemma EffectKeepsRelations(l: Ledger, call: Call)
    requires Inv(l) && Permits(l, call)
    ensures RelationsKept(Effect(l, call))
  {
    forall r, id | id in Members(Effect(l, call), r)
      ensures EntryKept(Effect(l, call), r, id)
    {
      if call.SetRelation? {
        RelationKeepsEntry(l, call, r, id);
      } else {
        OtherKeepsEntry(l, call, r, id);
      }
    }
  }

  /** Recording a call does not touch what the invariant on methods and relations looks at. */
  lemma RecordedKeeps(l: Ledger, timestamp: nat)
    requires MethodsKept(l) && RelationsKept(l)
    ensures MethodsKept(Recorded(l, timestamp)) && RelationsKept(Recorded(l, timestamp))
  {
    forall r, id | id in Members(Recorded(l, timestamp), r)
      ensures EntryKept(Recorded(l, timestamp), r, id)
    {
      assert id in Members(l, r);
    }
  }

  /** Every accepted request keeps the invariant. */
  lemma AcceptedKeeps(crypto: Crypto, l: Ledger, q: Request)
    requires Inv(l) && Accepts(crypto, l, q)
    ensures Inv(After(l, q))
  {
    EffectKeepsMethods(l, q.call);
    EffectKeepsRelations(l, q.call);
    RecordedKeeps(Effect(l, q.call), q.timestamp);
    EffectLeavesBookkeeping(l, q.call);
    if q.call.SetRelation? {
      RelationFrame(l, q.call);
    }
  }

  /** What the invariant says about a key across relations: no key agrees and signs. */
  lemma AgreementKeysDoNotSign(l: Ledger, id: string, relation: Relation)
    requires Inv(l) && id in l.keyAgreement && IsSigning(relation)
    ensures id !in Members(l, relation)
    ensures id in l.methods && l.methods[id].publicKeyJwk.kty.OKP? && l.methods[id].publicKeyJwk.crv.X25519?
  {
    assert id in Members(l, KeyAgreement);
  }

  // ---------------------------------------------------------------------------
  // Runs
  // ---------------------------------------------------------------------------

  /** A request that is not accepted leaves the ledger alone. */
  ghost function Step(crypto: Crypto, l: Ledger, q: Request): Ledger {
    if Accepts(crypto, l, q) then After(l, q) else l
  }

  ghost function Run(crypto: Crypto, l: Ledger, qs: seq<Request>): Ledger {
    if qs == [] then l else Step(crypto, Run(crypto, l, qs[..|qs| - 1]), qs[|qs| - 1])
  }

  /** The ledger on which the request at `i` is tried. */
  ghost function Before(crypto: Crypto, l: Ledger, qs: seq<Request>, i: nat): Ledger
    requires i <= |qs|
  {
    Run(crypto, l, qs[..i])
  }

  ghost predicate AcceptedAt(crypto: Crypto, l: Ledger, qs: seq<Request>, i: nat)
    requires i < |qs|
  {
    Accepts(crypto, Before(crypto, l, qs, i), qs[i])
  }

  /** How many of the requests of a run are accepted. */
  ghost function AcceptedCount(crypto: Crypto, l: Ledger, qs: seq<Request>): nat {
    if qs == [] then 0
    else
      var front := qs[..|qs| - 1];
      AcceptedCount(crypto, l, front)
        + if Accepts(crypto, Run(crypto, l, front), qs[|qs| - 1]) then 1 else 0
  }

  lemma RunOneMore(crypto: Crypto, l: Ledger, qs: seq<Request>, i: nat)
    requires i < |qs|
    ensures Before(crypto, l, qs, i + 1) == Step(crypto, Before(crypto, l, qs, i), qs[i])
    ensures AcceptedCount(crypto, l, qs[..i + 1])
         == AcceptedCount(crypto, l, qs[..i]) + if AcceptedAt(crypto, l, qs, i) then 1 else 0
  {
    assert qs[..i + 1][..i] == qs[..i];
  }

  /** Safety over whole runs: from any ledger inside the invariant, whatever requests arrive in
      whatever order, accepted or not, the invariant holds at the end. */
  lemma {:induction false} RunKeeps(crypto: Crypto, l: Ledger, qs: seq<Request>)
    requires Inv(l)
    ensures Inv(Run(crypto, l, qs))
  {
    if qs != [] {
      var front := qs[..|qs| - 1];
      RunKeeps(crypto, l, front);
      if Accepts(crypto, Run(crypto, l, front), qs[|qs| - 1]) {
        AcceptedKeeps(crypto, Run(crypto, l, front), qs[|qs| - 1]);
      }
    }
  }

  lemma EffectLeavesBookkeeping(l: Ledger, call: Call)
    ensures var n := Effect(l, call);
            && n.version == l.version && n.operationCount == l.operationCount
            && n.id == l.id && n.recoveryKey == l.recoveryKey && n.created == l.created
            && n.contractVersion == l.contractVersion
  {
    if call.SetRelation? {
      EffectOfRelation(l, call);
      WithMembersFrame(l, call.relation, NewIds(l, call));
    }
  }

  /** Both counters count the accepted requests; identity and recovery key never change. */
  lemma {:induction false} RunCounts(crypto: Crypto, l: Ledger, qs: seq<Request>)
    ensures var n := Run(crypto, l, qs);
            && n.version == l.version + AcceptedCount(crypto, l, qs)
            && n.operationCount == l.operationCount + AcceptedCount(crypto, l, qs)
            && n.id == l.id && n.recoveryKey == l.recoveryKey && n.created == l.created
            && n.contractVersion == l.contractVersion
  {
    if qs != [] {
      RunCounts(crypto, l, qs[..|qs| - 1]);
      EffectLeavesBookkeeping(Run(crypto, l, qs[..|qs| - 1]), qs[|qs| - 1].call);
    }
  }

  /** In a run from a fresh contract, an accepted request names the number of requests accepted
      before it. */
  lemma AcceptedVersion(crypto: Crypto, l: Ledger, qs: seq<Request>, i: nat)
    requires i < |qs| && AcceptedAt(crypto, l, qs, i) && l.version == 0
    ensures qs[i].expectedVersion == AcceptedCount(crypto, l, qs[..i])
  {
    RunCounts(crypto, l, qs[..i]);
  }

  lemma {:induction false} CountGrows(crypto: Crypto, l: Ledger, qs: seq<Request>, i: nat, j: nat)
    requires i <= j <= |qs|
    ensures AcceptedCount(crypto, l, qs[..i]) <= AcceptedCount(crypto, l, qs[..j])
    decreases j
  {
    if i < j {
      CountGrows(crypto, l, qs, i, j - 1);
      RunOneMore(crypto, l, qs, j - 1);
    }
  }

  // ---------------------------------------------------------------------------
  // Digests
  // ---------------------------------------------------------------------------

  /** The hash is taken as injective on the values it is given. */
  ghost predicate HashInjective(crypto: Crypto) {
    forall a, b :: crypto.hash(a) == crypto.hash(b) ==> a == b
  }

  /** The position of a circuit in the list of circuits. */
  function Circuit(call: Call): nat {
    match call
    case RotateControllerKey(_) => 0
    case RecoverControllerKey(_) => 1
    case SetAlsoKnownAs(_, _) => 2
    case SetVerificationMethod(_, _) => 3
    case RemoveVerificationMethod(_) => 4
    case SetSchnorrMethod(_, _) => 5
    case RemoveSchnorrMethod(_) => 6
    case SetRelation(_, _, _) => 7
    case SetService(_, _) => 8
    case RemoveService(_) => 9
    case Deactivate => 10
  }

  /** The eleven padded operation names differ in their first or their eleventh byte. */
  lemma PaddedNameDeterminesCircuit(a: Call, b: Call)
    requires Padded(OperationName(a)) == Padded(OperationName(b))
    ensures Circuit(a) == Circuit(b)
  {
    NameBytes(a);
    NameBytes(b);
  }

  function KeyBytes(circuit: nat): (int, int) {
    match circuit
    case 0 => ('r' as int, 'r' as int)
    case 1 => ('r' as int, 't' as int)
    case 2 => ('s' as int, 'w' as int)
    case 3 => ('s' as int, 'a' as int)
    case 4 => ('r' as int, 'f' as int)
    case 5 => ('s' as int, 'J' as int)
    case 6 => ('r' as int, 'o' as int)
    case 7 => ('s' as int, 'i' as int)
    case 8 => ('s' as int, 0)
    case 9 => ('r' as int, 'i' as int)
    case _ => ('d' as int, 0)
  }

  lemma NameBytes(call: Call)
    ensures (Padded(OperationName(call))[0], Padded(OperationName(call))[10]) == KeyBytes(Circuit(call))
  {
    var name := OperationName(call);
    assert name[0] as int == KeyBytes(Circuit(call)).0;
    if |name| > 10 {
      assert name[10] as int == KeyBytes(Circuit(call)).1;
    }
  }

  lemma ArgumentsInjective(a: Call, b: Call)
    requires Circuit(a) == Circuit(b) && ArgumentAtoms(a) == ArgumentAtoms(b)
    ensures a == b
  {
    var x, y := ArgumentAtoms(a), ArgumentAtoms(b);
    assert |x| > 0 && x[0] == y[0];
    assert |x| > 1 ==> x[1] == y[1];
    assert |x| > 2 ==> x[2] == y[2];
    assert |x| > 3 ==> x[3] == y[3];
    assert |x| > 4 ==> x[4] == y[4] && x[5] == y[5] && x[6] == y[6];
  }

  /** With an injective hash the digest determines contract, version, operation and arguments. */
  lemma DigestDetermines(crypto: Crypto, contract1: Bytes32, version1: nat, call1: Call,
                         contract2: Bytes32, version2: nat, call2: Call)
    requires HashInjective(crypto)
    requires AuthorizationDigest(crypto, contract1, version1, call1)
          == AuthorizationDigest(crypto, contract2, version2, call2)
    ensures contract1 == contract2 && version1 == version2 && call1 == call2
  {
    var s1, s2 := [ABytes(contract1), AU64(version1)], [ABytes(contract2), AU64(version2)];
    assert s1 == s2;
    assert s1[0] == s2[0] && s1[1] == s2[1];
    var o1, o2 := [ABytes(Padded(OperationName(call1)))], [ABytes(Padded(OperationName(call2)))];
    assert o1 == o2;
    assert o1[0] == o2[0];
    PaddedNameDeterminesCircuit(call1, call2);
    ArgumentsInjective(call1, call2);
  }

  /** The operation part is needed: the argument parts of different circuits can coincide. */
  lemma ArgumentsAloneDoNotDetermine(crypto: Crypto)
    ensures exists a: Call, b: Call :: a != b && ArgumentAtoms(a) == ArgumentAtoms(b)
  {
    var a, b := RemoveService("#s"), RemoveVerificationMethod("#s");
    assert ArgumentAtoms(a) == ArgumentAtoms(b);
  }

  /** The digest that authorizes the request at `i`. */
  function DigestAt(crypto: Crypto, l: Ledger, qs: seq<Request>, i: nat): Digest
    requires i < |qs|
  {
    AuthorizationDigest(crypto, l.id, qs[i].expectedVersion, qs[i].call)
  }

  /** No signature is ever accepted twice: two accepted requests of one run authorize different
      digests, even when they carry the same call. */
  lemma AcceptedDigestsDistinct(crypto: Crypto, l: Ledger, qs: seq<Request>, i: nat, j: nat)
    requires HashInjective(crypto)
    requires i < j < |qs| && AcceptedAt(crypto, l, qs, i) && AcceptedAt(crypto, l, qs, j)
    ensures DigestAt(crypto, l, qs, i) != DigestAt(crypto, l, qs, j)
  {
    RunCounts(crypto, l, qs[..i]);
    RunCounts(crypto, l, qs[..j]);
    RunOneMore(crypto, l, qs, i);
    CountGrows(crypto, l, qs, i + 1, j);
    assert qs[i].expectedVersion < qs[j].expectedVersion;
    if DigestAt(crypto, l, qs, i) == DigestAt(crypto, l, qs, j) {
      DigestDetermines(crypto, l.id, qs[i].expectedVersion, qs[i].call,
                       l.id, qs[j].expectedVersion, qs[j].call);
    }
  }

  // ---------------------------------------------------------------------------
  // Deactivation
  // ---------------------------------------------------------------------------

  /** Once a ledger is inactive no request of any kind is accepted and nothing changes again. */
  lemma {:induction false} InactiveForever(crypto: Crypto, l: Ledger, qs: seq<Request>)
    requires !l.active
    ensures Run(crypto, l, qs) == l && AcceptedCount(crypto, l, qs) == 0
  {
    if qs != [] {
      InactiveForever(crypto, l, qs[..|qs| - 1]);
    }
  }

  lemma EffectOnActivity(l: Ledger, call: Call)
    requires l.active
    ensures Effect(l, call).active == !call.Deactivate?
  {
    if call.SetRelation? {
      RelationFrame(l, call);
    }
  }

  /** The request at `i` is a deactivation and is accepted. */
  ghost predicate DeactivatesAt(crypto: Crypto, l: Ledger, qs: seq<Request>, i: nat) {
    i < |qs| && qs[i].call.Deactivate? && AcceptedAt(crypto, l, qs, i)
  }

  lemma DeactivatesInFront(crypto: Crypto, l: Ledger, qs: seq<Request>, k: nat, i: nat)
    requires i < k <= |qs|
    ensures DeactivatesAt(crypto, l, qs[..k], i) <==> DeactivatesAt(crypto, l, qs, i)
  {
    assert qs[..k][..i] == qs[..i];
  }

  /** A contract stops being active exactly when a deactivate request is accepted. */
  lemma {:induction false} DeactivatedIffAccepted(crypto: Crypto, l: Ledger, qs: seq<Request>)
    requires l.active
    ensures !Run(crypto, l, qs).active <==> exists i: nat :: DeactivatesAt(crypto, l, qs, i)
  {
    if qs != [] {
      var k := |qs| - 1;
      var before := Run(crypto, l, qs[..k]);
      DeactivatedIffAccepted(crypto, l, qs[..k]);
      forall i: nat | i < k ensures DeactivatesAt(crypto, l, qs[..k], i) <==> DeactivatesAt(crypto, l, qs, i) {
        DeactivatesInFront(crypto, l, qs, k, i);
      }
      if before.active {
        EffectOnActivity(before, qs[k].call);
        assert !Run(crypto, l, qs).active <==> DeactivatesAt(crypto, l, qs, k);
      }
    }
  }

  // ---------------------------------------------------------------------------
  // Frame
  // ---------------------------------------------------------------------------

  /** The components of a ledger that calls can change. */
  datatype Component =
    | Controller | Aliases | Methods | SchnorrMethods | Relations(relation: Relation) | Services | Activity

  /** The one component that a call may change. */
  function Touches(call: Call): Component {
    match call
    case RotateControllerKey(_) => Controller
    case RecoverControllerKey(_) => Controller
    case SetAlsoKnownAs(_, _) => Aliases
    case SetVerificationMethod(_, _) => Methods
    case RemoveVerificationMethod(_) => Methods
    case SetSchnorrMethod(_, _) => SchnorrMethods
    case RemoveSchnorrMethod(_) => SchnorrMethods
    case SetRelation(relation, _, _) => Relations(relation)
    case SetService(_, _) => Services
    case RemoveService(_) => Services
    case Deactivate => Activity
  }

  predicate Same(a: Ledger, b: Ledger, c: Component) {
    match c
    case Controller => a.controllerKey == b.controllerKey
    case Aliases => a.alsoKnownAs == b.alsoKnownAs
    case Methods => a.methods == b.methods
    case SchnorrMethods => a.schnorrMethods == b.schnorrMethods
    case Relations(relation) => Members(a, relation) == Members(b, relation)
    case Services => a.services == b.services
    case Activity => a.active == b.active && a.deactivated == b.deactivated
  }

  /** An accepted request changes its own component, and really changes it unless it overwrites a
      map entry; every other component, the identity, the recovery key and the creation time stay. */
  lemma AcceptedChangesOneComponent(crypto: Crypto, l: Ledger, q: Request, c: Component)
    requires Accepts(crypto, l, q) && Inv(l)
    ensures c != Touches(q.call) ==> Same(After(l, q), l, c)
    ensures c == Touches(q.call) && Same(After(l, q), l, c) ==>
              (q.call.SetVerificationMethod? || q.call.SetSchnorrMethod? || q.call.SetService?)
              && q.call.mapMutation.UpdateEntry?
    ensures var n := After(l, q);
            && n.id == l.id && n.recoveryKey == l.recoveryKey && n.created == l.created
            && n.contractVersion == l.contractVersion && n.updated == q.timestamp
            && n.version == l.version + 1 && n.operationCount == l.operationCount + 1
  {
    EffectLeavesBookkeeping(l, q.call);
    ComponentChange(l, q.call, c);
    assert Same(After(l, q), Effect(l, q.call), c);
  }

  lemma ComponentChange(l: Ledger, call: Call, c: Component)
    requires Permits(l, call) && Inv(l) && l.active
    ensures c != Touches(call) ==> Same(Effect(l, call), l, c)
    ensures c == Touches(call) && Same(Effect(l, call), l, c) ==>
              (call.SetVerificationMethod? || call.SetSchnorrMethod? || call.SetService?)
              && call.mapMutation.UpdateEntry?
  {
    if call.SetRelation? {
      RelationFrame(l, call);
      if c.Relations? {
        EffectOfRelation(l, call);
        MembersOfWith(l, call.relation, NewIds(l, call), c.relation);
      }
    } else if c.Relations? {
      OtherFrame(l, call, c.relation);
    }
  }

  // ---------------------------------------------------------------------------
  // Failures
  // ---------------------------------------------------------------------------

  /** A request fails for one reason only. */
  lemma FaultIsUnique(crypto: Crypto, l: Ledger, q: Request, a: Error, b: Error)
    requires a in Faults(crypto, l, q) && b in Faults(crypto, l, q)
    ensures a == b
  {
    if BlamesState(l, q.call, a) {
      StateFaultForbids(l, q.call, a);
    }
    if BlamesState(l, q.call, b) {
      StateFaultForbids(l, q.call, b);
    }
    if BlamesState(l, q.call, a) && BlamesState(l, q.call, b) {
      StateFaultIsUnique(l, q.call, a, b);
    }
  }

  lemma StateFaultIsUnique(l: Ledger, call: Call, a: Error, b: Error)
    requires BlamesState(l, call, a) && BlamesState(l, call, b)
    ensures a == b
  {
    if a.StillReferenced? && b.StillReferenced? {
      assert RelationTag(a.relation) == RelationTag(b.relation);
    }
  }

  /** An accepted request has no fault. */
  lemma AcceptedHasNoFault(crypto: Crypto, l: Ledger, q: Request, e: Error)
    requires Accepts(crypto, l, q)
    ensures e !in Faults(crypto, l, q)
  {
    if BlamesState(l, q.call, e) {
      StateFaultForbids(l, q.call, e);
    }
  }

  lemma StateFaultForbids(l: Ledger, call: Call, e: Error)
    requires BlamesState(l, call, e)
    ensures !Permits(l, call)
  {
    if e.ExistingAgreementNeedsCurve? {
      assert call.method_.id in Members(l, KeyAgreement);
    }
  }

  // ---------------------------------------------------------------------------
  // Tables
  // ---------------------------------------------------------------------------

  /** The profiles that the contract stores: OKP keys on four curves and EC keys on two. */
  lemma SupportedProfiles(vm: LedgerMethod)
    ensures Supported(vm) <==>
            && vm.typ == JsonWebKey
            && (vm.publicKeyJwk.kty, vm.publicKeyJwk.crv) in
                 {(OKP, Ed25519), (OKP, X25519), (OKP, BLS12381G1), (OKP, BLS12381G2), (EC, P256), (EC, Secp256k1)}
  {
  }

  /** Which cell an accepted relation call writes: the one that its relation names. */
  lemma RelationCallWrites(l: Ledger, relation: Relation, id: string, insert: bool)
    requires !relation.UndefinedRelation?
    ensures var n := Effect(l, SetRelation(relation, id, if insert then InsertMember else RemoveMember));
            && n.authentication == Changed(l.authentication, id, insert, relation == Authentication)
            && n.assertionMethod == Changed(l.assertionMethod, id, insert, relation == AssertionMethod)
            && n.keyAgreement == Changed(l.keyAgreement, id, insert, relation == KeyAgreement)
            && n.capabilityInvocation == Changed(l.capabilityInvocation, id, insert, relation == CapabilityInvocation)
            && n.capabilityDelegation == Changed(l.capabilityDelegation, id, insert, relation == CapabilityDelegation)
  {
    EffectOfRelation(l, SetRelation(relation, id, if insert then InsertMember else RemoveMember));
  }

  /** The set with the id put in or taken out, if it is the one to change. */
  function Changed(ids: set<string>, id: string, insert: bool, here: bool): set<string> {
    if !here then ids else if insert then ids + {id} else ids - {id}
  }

}
