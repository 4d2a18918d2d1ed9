/** The DID contract: its ledger, the authorization digests and what each circuit does. */
module Contract {
  import opened Prelude
  import opened DidTypes

  // ---------------------------------------------------------------------------
  // Ledger
  // ---------------------------------------------------------------------------

  /** A Jubjub point, compared by its coordinates. */
  datatype Point = Point(x: Bytes32, y: Bytes32)

  datatype LedgerJwk = LedgerJwk(kty: KeyType, crv: CurveType, x: string, y: string)

  datatype LedgerMethod = LedgerMethod(id: string, typ: VerificationMethodType, publicKeyJwk: LedgerJwk)

  datatype SchnorrMethod = SchnorrMethod(id: string, publicKey: Point)

  datatype LedgerService = LedgerService(id: string, typ: string, serviceEndpoint: string)

  /** The cells `[0][0..3]` and `[1][0..14]`, in this order. */
  datatype Ledger = Ledger(
    contractVersion: nat,
    controllerKey: Point,
    recoveryKey: Point,
    id: Bytes32,
    alsoKnownAs: set<string>,
    version: nat,
    created: nat,
    updated: nat,
    deactivated: bool,
    active: bool,
    operationCount: nat,
    methods: map<string, LedgerMethod>,
    schnorrMethods: map<string, SchnorrMethod>,
    authentication: set<string>,
    assertionMethod: set<string>,
    keyAgreement: set<string>,
    capabilityInvocation: set<string>,
    capabilityDelegation: set<string>,
    services: map<string, LedgerService>)

  /** The set that a relation stands for. */
  function Members(l: Ledger, relation: Relation): set<string> {
    match relation
    case UndefinedRelation => {}
    case Authentication => l.authentication
    case AssertionMethod => l.assertionMethod
    case KeyAgreement => l.keyAgreement
    case CapabilityInvocation => l.capabilityInvocation
    case CapabilityDelegation => l.capabilityDelegation
  }

  function WithMembers(l: Ledger, relation: Relation, ids: set<string>): Ledger {
    match relation
    case UndefinedRelation => l
    case Authentication => l.(authentication := ids)
    case AssertionMethod => l.(assertionMethod := ids)
    case KeyAgreement => l.(keyAgreement := ids)
    case CapabilityInvocation => l.(capabilityInvocation := ids)
    case CapabilityDelegation => l.(capabilityDelegation := ids)
  }

  // ---------------------------------------------------------------------------
  // Calls
  // ---------------------------------------------------------------------------

  datatype MapMutation = UndefinedMap | InsertEntry | UpdateEntry

  datatype SetMutation = UndefinedSet | InsertMember | RemoveMember

  /** One mutating circuit with its arguments. */
  datatype Call =
    | RotateControllerKey(newKey: Point)
    | RecoverControllerKey(newKey: Point)
    | SetAlsoKnownAs(value: string, setMutation: SetMutation)
    | SetVerificationMethod(method_: LedgerMethod, mapMutation: MapMutation)
    | RemoveVerificationMethod(id: string)
    | SetSchnorrMethod(schnorr: SchnorrMethod, mapMutation: MapMutation)
    | RemoveSchnorrMethod(id: string)
    | SetRelation(relation: Relation, id: string, setMutation: SetMutation)
    | SetService(service: LedgerService, mapMutation: MapMutation)
    | RemoveService(id: string)
    | Deactivate

  type Signature = seq<byte>

  type Field = nat

  datatype Digest = Digest(domain: Field, state: Field, operation: Field, args: Field)

  /** A value as the hash sees it: typed leaves in order, without the name of the structure. */
  datatype Atom = AField(f: Bytes32) | AU64(n: nat) | AU8(tag: nat) | ABytes(b: Bytes32) | AText(s: string)

  /** The transient hash and the Schnorr verifier. */
  datatype Crypto = Crypto(hash: seq<Atom> -> Field, verify: (Digest, Signature, Point) -> bool)

  /** A call as it is submitted. `timestamp` is the witness that the circuit reads, and
      `enoughGas` says whether all its ledger programs fit their gas limit. */
  datatype Request = Request(
    call: Call, signature: Signature, expectedVersion: nat, timestamp: nat, enoughGas: bool)

  datatype Error =
    | StaleControllerVersion
    | StaleRecoveryVersion
    | BadSignature
    | NotActive
    | AlreadyInactive
    | ControllerKeyUnchanged
    | ControllerKeyIsRecoveryKey
    | MapMutationUndefined
    | SetMutationUndefined
    | AliasExists
    | AliasMissing
    | UnsupportedMethodType
    | UnsupportedOkpCurve
    | UnsupportedEcCurve
    | UnsupportedKeyType
    | MethodMissing
    | MethodExists
    | StillReferenced(relation: Relation)
    | RelationUndefined
    | RelationExists
    | RelationMissing
    | AgreementMethodRequired
    | AgreementCurveRequired
    | AgreementCurveCannotSign
    | ExistingAgreementNeedsCurve
    | ExistingSigningForbidsCurve
    | ServiceMissing
    | ServiceExists
    | OutOfGas

  // ---------------------------------------------------------------------------
  // Authorization digests
  // ---------------------------------------------------------------------------

  /** An ASCII name padded with zero bytes to 32 bytes. */
  function Padded(name: string): Bytes32 {
    seq(32, i requires 0 <= i < 32 => if i < |name| then name[i] as int % 256 else 0)
  }

  function OperationName(call: Call): string {
    match call
    case RotateControllerKey(_) => "rotateControllerKey"
    case RecoverControllerKey(_) => "recoverControllerKey"
    case SetAlsoKnownAs(_, _) => "setAlsoKnownAs"
    case SetVerificationMethod(_, _) => "setVerificationMethod"
    case RemoveVerificationMethod(_) => "removeVerificationMethod"
    case SetSchnorrMethod(_, _) => "setSchnorrJubjubVM"
    case RemoveSchnorrMethod(_) => "removeSchnorrJubjubVM"
    case SetRelation(_, _, _) => "setVMRelation"
    case SetService(_, _) => "setService"
    case RemoveService(_) => "removeService"
    case Deactivate => "deactivate"
  }

  function TypeTag(t: VerificationMethodType): nat { if t.UndefinedType? then 0 else 1 }

  function KeyTag(t: KeyType): nat {
    match t
    case EC => 0
    case RSA => 1
    case Oct => 2
    case OKP => 3
  }

  function CurveTag(c: CurveType): nat {
    match c
    case Ed25519 => 0
    case X25519 => 1
    case Jubjub => 2
    case P256 => 3
    case Secp256k1 => 4
    case BLS12381G1 => 5
    case BLS12381G2 => 6
  }

  function RelationTag(r: Relation): nat {
    match r
    case UndefinedRelation => 0
    case Authentication => 1
    case AssertionMethod => 2
    case KeyAgreement => 3
    case CapabilityInvocation => 4
    case CapabilityDelegation => 5
  }

  function MapTag(m: MapMutation): nat {
    match m
    case UndefinedMap => 0
    case InsertEntry => 1
    case UpdateEntry => 2
  }

  function SetTag(m: SetMutation): nat {
    match m
    case UndefinedSet => 0
    case InsertMember => 1
    case RemoveMember => 2
  }

  /** The hashed arguments of a call. Calls of different circuits may have the same ones. */
  function ArgumentAtoms(call: Call): seq<Atom> {
    match call
    case RotateControllerKey(k) => [AField(k.x), AField(k.y)]
    case RecoverControllerKey(k) => [AField(k.x), AField(k.y)]
    case SetAlsoKnownAs(value, m) => [AText(value), AU8(SetTag(m))]
    case SetVerificationMethod(vm, m) =>
      [AText(vm.id), AU8(TypeTag(vm.typ)), AU8(KeyTag(vm.publicKeyJwk.kty)), AU8(CurveTag(vm.publicKeyJwk.crv)),
       AText(vm.publicKeyJwk.x), AText(vm.publicKeyJwk.y), AU8(MapTag(m))]
    case RemoveVerificationMethod(id) => [AText(id)]
    case SetSchnorrMethod(vm, m) =>
      [AText(vm.id), AField(vm.publicKey.x), AField(vm.publicKey.y), AU8(MapTag(m))]
    case RemoveSchnorrMethod(id) => [AText(id)]
    case SetRelation(r, id, m) => [AU8(RelationTag(r)), AText(id), AU8(SetTag(m))]
    case SetService(s, m) => [AText(s.id), AText(s.typ), AText(s.serviceEndpoint), AU8(MapTag(m))]
    case RemoveService(id) => [AText(id)]
    case Deactivate => [ABytes(Padded("no-args"))]
  }

  /** `controller_authorization_digest` and the eleven digests built on it. */
  function AuthorizationDigest(crypto: Crypto, contractId: Bytes32, expectedVersion: nat, call: Call): Digest {
    Digest(
      crypto.hash([ABytes(Padded("midnight-did-ctrl-sig:v1"))]),
      crypto.hash([ABytes(contractId), AU64(expectedVersion)]),
      crypto.hash([ABytes(Padded(OperationName(call)))]),
      crypto.hash(ArgumentAtoms(call)))
  }

  // ---------------------------------------------------------------------------
  // What a circuit accepts and does
  // ---------------------------------------------------------------------------

  predicate SupportedOkpCurve(c: CurveType) { c.Ed25519? || c.X25519? || c.BLS12381G1? || c.BLS12381G2? }

  predicate SupportedEcCurve(c: CurveType) { c.P256? || c.Secp256k1? }

  /** The method type and key profile that the contract stores. */
  predicate Supported(vm: LedgerMethod) {
    && vm.typ.JsonWebKey?
    && ((vm.publicKeyJwk.kty.OKP? && SupportedOkpCurve(vm.publicKeyJwk.crv))
        || (vm.publicKeyJwk.kty.EC? && SupportedEcCurve(vm.publicKeyJwk.crv)))
  }

  predicate MethodExistsIn(l: Ledger, id: string) { id in l.methods || id in l.schnorrMethods }

  predicate IsSigning(relation: Relation) { !relation.UndefinedRelation? && !relation.KeyAgreement? }

  /** `id` belongs to one of the five relations. */
  ghost predicate Referenced(l: Ledger, id: string) {
    exists relation :: id in Members(l, relation)
  }

  /** A method on the curve may be listed under the relation: X25519 keys agree and do not sign. */
  predicate CurveSuits(crv: CurveType, relation: Relation) {
    relation.KeyAgreement? <==> crv.X25519?
  }

  /** The key whose signature authorizes a call. */
  function AuthorityKey(l: Ledger, call: Call): Point {
    if call.RecoverControllerKey? then l.recoveryKey else l.controllerKey
  }

  /** The request names the current version and is signed by the authority over its digest. */
  predicate Authorized(crypto: Crypto, l: Ledger, r: Request) {
    && r.expectedVersion == l.version
    && crypto.verify(AuthorizationDigest(crypto, l.id, r.expectedVersion, r.call), r.signature,
                     AuthorityKey(l, r.call))
  }

  /** The state-dependent conditions of each circuit, apart from authorization and activity. */
  ghost predicate Permits(l: Ledger, call: Call) {
    match call
    case RotateControllerKey(k) => k != l.controllerKey && k != l.recoveryKey
    case RecoverControllerKey(k) => k != l.controllerKey && k != l.recoveryKey
    case SetAlsoKnownAs(value, m) => (m.InsertMember? && value !in l.alsoKnownAs) || (m.RemoveMember? && value in l.alsoKnownAs)
    case SetVerificationMethod(vm, m) =>
      && Supported(vm)
      && (|| (m.InsertEntry? && !MethodExistsIn(l, vm.id))
          || (m.UpdateEntry? && vm.id in l.methods
              && forall r :: vm.id in Members(l, r) ==> CurveSuits(vm.publicKeyJwk.crv, r)))
    case RemoveVerificationMethod(id) => id in l.methods && !Referenced(l, id)
    case SetSchnorrMethod(vm, m) =>
      (m.InsertEntry? && !MethodExistsIn(l, vm.id)) || (m.UpdateEntry? && vm.id in l.schnorrMethods)
    case RemoveSchnorrMethod(id) => id in l.schnorrMethods && !Referenced(l, id)
    case SetRelation(r, id, m) =>
      && MethodExistsIn(l, id) && !r.UndefinedRelation?
      && (|| (m.RemoveMember? && id in Members(l, r))
          || (m.InsertMember? && id !in Members(l, r)
              && (r.KeyAgreement? ==> id in l.methods)
              && (id in l.methods ==> CurveSuits(l.methods[id].publicKeyJwk.crv, r))))
    case SetService(s, m) => (m.InsertEntry? && s.id !in l.services) || (m.UpdateEntry? && s.id in l.services)
    case RemoveService(id) => id in l.services
    case Deactivate => true
  }

  /** The change that a circuit makes, apart from the counters and the timestamp. */
  function Effect(l: Ledger, call: Call): Ledger {
    match call
    case RotateControllerKey(k) => l.(controllerKey := k)
    case RecoverControllerKey(k) => l.(controllerKey := k)
    case SetAlsoKnownAs(value, m) =>
      if m.InsertMember? then l.(alsoKnownAs := l.alsoKnownAs + {value})
      else l.(alsoKnownAs := l.alsoKnownAs - {value})
    case SetVerificationMethod(vm, _) => l.(methods := l.methods[vm.id := vm])
    case RemoveVerificationMethod(id) => l.(methods := l.methods - {id})
    case SetSchnorrMethod(vm, _) => l.(schnorrMethods := l.schnorrMethods[vm.id := vm])
    case RemoveSchnorrMethod(id) => l.(schnorrMethods := l.schnorrMethods - {id})
    case SetRelation(r, id, m) =>
      WithMembers(l, r, if m.InsertMember? then Members(l, r) + {id} else Members(l, r) - {id})
    case SetService(s, _) => l.(services := l.services[s.id := s])
    case RemoveService(id) => l.(services := l.services - {id})
    case Deactivate => l.(active := false, deactivated := true)
  }

  function Recorded(l: Ledger, timestamp: nat): Ledger {
    l.(version := l.version + 1, operationCount := l.operationCount + 1, updated := timestamp)
  }

  ghost predicate Accepts(crypto: Crypto, l: Ledger, r: Request) {
    Authorized(crypto, l, r) && l.active && Permits(l, r.call) && r.enoughGas
  }

  /** The ledger after an accepted request. */
  function After(l: Ledger, r: Request): Ledger { Recorded(Effect(l, r.call), r.timestamp) }

  /** The ledger that the constructor produces for two distinct keys. */
  function Genesis(controllerKey: Point, recoveryKey: Point, self: Bytes32, timestamp: nat): Ledger {
    Ledger(2, controllerKey, recoveryKey, self, {}, 0, timestamp, timestamp, false, true, 0,
           map[], map[], {}, {}, {}, {}, {}, map[])
  }

  // ---------------------------------------------------------------------------
  // Why a request fails
  // ---------------------------------------------------------------------------

  predicate HasUndefinedMapMutation(call: Call) {
    || (call.SetVerificationMethod? && call.mapMutation.UndefinedMap?)
    || (call.SetSchnorrMethod? && call.mapMutation.UndefinedMap?)
    || (call.SetService? && call.mapMutation.UndefinedMap?)
  }

  predicate HasUndefinedSetMutation(call: Call) {
    || (call.SetAlsoKnownAs? && call.setMutation.UndefinedSet?)
    || (call.SetRelation? && call.setMutation.UndefinedSet?)
  }

  /** The method that a call wants to exist is not in the map in which it is looked up. */
  predicate LacksMethod(l: Ledger, call: Call) {
    match call
    case SetVerificationMethod(vm, m) => Supported(vm) && m.UpdateEntry? && vm.id !in l.methods
    case RemoveVerificationMethod(id) => id !in l.methods
    case SetSchnorrMethod(vm, m) => m.UpdateEntry? && vm.id !in l.schnorrMethods
    case RemoveSchnorrMethod(id) => id !in l.schnorrMethods
    case SetRelation(_, id, m) => !m.UndefinedSet? && !MethodExistsIn(l, id)
    case _ => false
  }

  predicate RepeatsMethod(l: Ledger, call: Call) {
    match call
    case SetVerificationMethod(vm, m) => Supported(vm) && m.InsertEntry? && MethodExistsIn(l, vm.id)
    case SetSchnorrMethod(vm, m) => m.InsertEntry? && MethodExistsIn(l, vm.id)
    case _ => false
  }

  /** An update of an existing key to a new curve, which its relations have to suit. */
  predicate IsUpdateOf(l: Ledger, call: Call) {
    call.SetVerificationMethod? && Supported(call.method_) && call.mapMutation.UpdateEntry?
    && call.method_.id in l.methods
  }

  /** A new relation entry for a known method under a defined relation. */
  predicate IsNewEntry(l: Ledger, call: Call) {
    call.SetRelation? && call.setMutation.InsertMember? && MethodExistsIn(l, call.id)
    && !call.relation.UndefinedRelation? && call.id !in Members(l, call.relation)
  }

  predicate IsRemovalOf(l: Ledger, call: Call) {
    || (call.RemoveVerificationMethod? && call.id in l.methods)
    || (call.RemoveSchnorrMethod? && call.id in l.schnorrMethods)
  }

  /** The exact condition under which a request fails with an error: the first check that it does
      not pass is the one the error names. */
  ghost predicate Blames(crypto: Crypto, l: Ledger, r: Request, e: Error) {
    var call := r.call;
    match e
    case StaleControllerVersion => r.expectedVersion != l.version && !call.RecoverControllerKey?
    case StaleRecoveryVersion => r.expectedVersion != l.version && call.RecoverControllerKey?
    case BadSignature => r.expectedVersion == l.version && !Authorized(crypto, l, r)
    case NotActive => Authorized(crypto, l, r) && !l.active && !call.Deactivate?
    case AlreadyInactive => Authorized(crypto, l, r) && !l.active && call.Deactivate?
    case OutOfGas => Authorized(crypto, l, r) && l.active && Permits(l, call) && !r.enoughGas
    case _ => Authorized(crypto, l, r) && l.active && BlamesState(l, call, e)
  }

  ghost predicate BlamesState(l: Ledger, call: Call, e: Error) {
    match e
    case ControllerKeyUnchanged =>
      (call.RotateControllerKey? || call.RecoverControllerKey?) && call.newKey == l.controllerKey
    case ControllerKeyIsRecoveryKey =>
      && (call.RotateControllerKey? || call.RecoverControllerKey?)
      && call.newKey != l.controllerKey && call.newKey == l.recoveryKey
    case MapMutationUndefined => HasUndefinedMapMutation(call)
    case SetMutationUndefined => HasUndefinedSetMutation(call)
    case AliasExists => call.SetAlsoKnownAs? && call.setMutation.InsertMember? && call.value in l.alsoKnownAs
    case AliasMissing => call.SetAlsoKnownAs? && call.setMutation.RemoveMember? && call.value !in l.alsoKnownAs
    case UnsupportedMethodType =>
      call.SetVerificationMethod? && !call.mapMutation.UndefinedMap? && !call.method_.typ.JsonWebKey?
    case UnsupportedOkpCurve =>
      && call.SetVerificationMethod? && !call.mapMutation.UndefinedMap? && call.method_.typ.JsonWebKey?
      && call.method_.publicKeyJwk.kty.OKP? && !SupportedOkpCurve(call.method_.publicKeyJwk.crv)
    case UnsupportedEcCurve =>
      && call.SetVerificationMethod? && !call.mapMutation.UndefinedMap? && call.method_.typ.JsonWebKey?
      && call.method_.publicKeyJwk.kty.EC? && !SupportedEcCurve(call.method_.publicKeyJwk.crv)
    case UnsupportedKeyType =>
      && call.SetVerificationMethod? && !call.mapMutation.UndefinedMap? && call.method_.typ.JsonWebKey?
      && !call.method_.publicKeyJwk.kty.OKP? && !call.method_.publicKeyJwk.kty.EC?
    case MethodMissing => LacksMethod(l, call)
    case MethodExists => RepeatsMethod(l, call)
    case StillReferenced(relation) =>
      && IsRemovalOf(l, call) && call.id in Members(l, relation)
      && forall earlier :: RelationTag(earlier) < RelationTag(relation) ==> call.id !in Members(l, earlier)
    case RelationUndefined =>
      && call.SetRelation? && !call.setMutation.UndefinedSet? && MethodExistsIn(l, call.id)
      && call.relation.UndefinedRelation?
    case RelationExists =>
      && call.SetRelation? && call.setMutation.InsertMember? && MethodExistsIn(l, call.id)
      && call.id in Members(l, call.relation)
    case RelationMissing =>
      && call.SetRelation? && call.setMutation.RemoveMember? && MethodExistsIn(l, call.id)
      && !call.relation.UndefinedRelation? && call.id !in Members(l, call.relation)
    case AgreementMethodRequired =>
      IsNewEntry(l, call) && call.relation.KeyAgreement? && call.id !in l.methods
    case AgreementCurveRequired =>
      && IsNewEntry(l, call) && call.relation.KeyAgreement? && call.id in l.methods
      && !l.methods[call.id].publicKeyJwk.crv.X25519?
    case AgreementCurveCannotSign =>
      && IsNewEntry(l, call) && IsSigning(call.relation) && call.id in l.methods
      && l.methods[call.id].publicKeyJwk.crv.X25519?
    case ExistingAgreementNeedsCurve =>
      && IsUpdateOf(l, call) && call.method_.id in l.keyAgreement
      && !call.method_.publicKeyJwk.crv.X25519?
    case ExistingSigningForbidsCurve =>
      && IsUpdateOf(l, call) && call.method_.publicKeyJwk.crv.X25519?
      && exists relation :: IsSigning(relation) && call.method_.id in Members(l, relation)
    case ServiceMissing =>
      || (call.SetService? && call.mapMutation.UpdateEntry? && call.service.id !in l.services)
      || (call.RemoveService? && call.id !in l.services)
    case ServiceExists => call.SetService? && call.mapMutation.InsertEntry? && call.service.id in l.services
    case _ => false
  }

  /** The errors that a request can fail with. */
  ghost function Faults(crypto: Crypto, l: Ledger, r: Request): iset<Error> {
    iset e | Blames(crypto, l, r, e)
  }

  ghost function StateFaults(l: Ledger, call: Call): iset<Error> {
    iset e | BlamesState(l, call, e)
  }

  /** What running a request yields: the new ledger, or the error of the first failed check. */
  ghost predicate Outcome(crypto: Crypto, l: Ledger, r: Request, result: Result<Ledger, Error>) {
    if Accepts(crypto, l, r) then result == Ok(After(l, r))
    else result.Err? && result.error in Faults(crypto, l, r)
  }
}
