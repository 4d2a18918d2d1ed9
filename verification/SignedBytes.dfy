/** The bytes that a controller signs, written out: which leaves each of the eleven calls hashes, in
    which order, and under which key the contract accepts the signature. */
module SignedBytes {
  import opened Prelude
  import opened DidTypes
  import opened Contract

  // ---------------------------------------------------------------------------
  // Names and tags
  // ---------------------------------------------------------------------------

  const DOMAIN: Bytes32 :=
    [109, 105, 100, 110, 105, 103, 104, 116, 45, 100, 105, 100, 45, 99, 116, 114,
     108, 45, 115, 105, 103, 58, 118, 49, 0, 0, 0, 0, 0, 0, 0, 0]

  const ROTATE_CONTROLLER_KEY: Bytes32 :=
    [114, 111, 116, 97, 116, 101, 67, 111, 110, 116, 114, 111, 108, 108, 101, 114,
     75, 101, 121, 0, 0, 0, 0, 0, 0, 0, 0, 0, 0, 0, 0, 0]

  const RECOVER_CONTROLLER_KEY: Bytes32 :=
    [114, 101, 99, 111, 118, 101, 114, 67, 111, 110, 116, 114, 111, 108, 108, 101,
     114, 75, 101, 121, 0, 0, 0, 0, 0, 0, 0, 0, 0, 0, 0, 0]

  const SET_ALSO_KNOWN_AS: Bytes32 :=
    [115, 101, 116, 65, 108, 115, 111, 75, 110, 111, 119, 110, 65, 115, 0, 0,
     0, 0, 0, 0, 0, 0, 0, 0, 0, 0, 0, 0, 0, 0, 0, 0]

  const SET_VERIFICATION_METHOD: Bytes32 :=
    [115, 101, 116, 86, 101, 114, 105, 102, 105, 99, 97, 116, 105, 111, 110, 77,
     101, 116, 104, 111, 100, 0, 0, 0, 0, 0, 0, 0, 0, 0, 0, 0]

  const REMOVE_VERIFICATION_METHOD: Bytes32 :=
    [114, 101, 109, 111, 118, 101, 86, 101, 114, 105, 102, 105, 99, 97, 116, 105,
     111, 110, 77, 101, 116, 104, 111, 100, 0, 0, 0, 0, 0, 0, 0, 0]

  const SET_SCHNORR_METHOD: Bytes32 :=
    [115, 101, 116, 83, 99, 104, 110, 111, 114, 114, 74, 117, 98, 106, 117, 98,
     86, 77, 0, 0, 0, 0, 0, 0, 0, 0, 0, 0, 0, 0, 0, 0]

  const REMOVE_SCHNORR_METHOD: Bytes32 :=
    [114, 101, 109, 111, 118, 101, 83, 99, 104, 110, 111, 114, 114, 74, 117, 98,
     106, 117, 98, 86, 77, 0, 0, 0, 0, 0, 0, 0, 0, 0, 0, 0]

  const SET_RELATION: Bytes32 :=
    [115, 101, 116, 86, 77, 82, 101, 108, 97, 116, 105, 111, 110, 0, 0, 0,
     0, 0, 0, 0, 0, 0, 0, 0, 0, 0, 0, 0, 0, 0, 0, 0]

  const SET_SERVICE: Bytes32 :=
    [115, 101, 116, 83, 101, 114, 118, 105, 99, 101, 0, 0, 0, 0, 0, 0,
     0, 0, 0, 0, 0, 0, 0, 0, 0, 0, 0, 0, 0, 0, 0, 0]

  const REMOVE_SERVICE: Bytes32 :=
    [114, 101, 109, 111, 118, 101, 83, 101, 114, 118, 105, 99, 101, 0, 0, 0,
     0, 0, 0, 0, 0, 0, 0, 0, 0, 0, 0, 0, 0, 0, 0, 0]

  const DEACTIVATE: Bytes32 :=
    [100, 101, 97, 99, 116, 105, 118, 97, 116, 101, 0, 0, 0, 0, 0, 0,
     0, 0, 0, 0, 0, 0, 0, 0, 0, 0, 0, 0, 0, 0, 0, 0]

  const NO_ARGS: Bytes32 :=
    [110, 111, 45, 97, 114, 103, 115, 0, 0, 0, 0, 0, 0, 0, 0, 0,
     0, 0, 0, 0, 0, 0, 0, 0, 0, 0, 0, 0, 0, 0, 0, 0]

  /** The enumerations in the order of their numbers. */
  const METHOD_TYPES: seq<VerificationMethodType> := [UndefinedType, JsonWebKey]

  const KEY_TYPES: seq<KeyType> := [EC, RSA, Oct, OKP]

  const CURVES: seq<CurveType> := [Ed25519, X25519, Jubjub, P256, Secp256k1, BLS12381G1, BLS12381G2]

  const RELATION_NUMBERS: seq<Relation> :=
    [UndefinedRelation, Authentication, AssertionMethod, KeyAgreement, CapabilityInvocation, CapabilityDelegation]

  const MAP_MUTATIONS: seq<MapMutation> := [UndefinedMap, InsertEntry, UpdateEntry]

  const SET_MUTATIONS: seq<SetMutation> := [UndefinedSet, InsertMember, RemoveMember]

  /** `value` has the number `n`. */
  predicate Numbered<T(==)>(values: seq<T>, n: nat, value: T) {
    n < |values| && values[n] == value
  }

  lemma PaddedIs(name: string, bytes: Bytes32)
    requires |name| <= 32
    requires forall i :: 0 <= i < |name| ==> name[i] as int == bytes[i]
    requires forall i :: |name| <= i < 32 ==> bytes[i] == 0
    ensures Padded(name) == bytes
  {
  }

  // ---------------------------------------------------------------------------
  // Digests and acceptance
  // ---------------------------------------------------------------------------

  function SignedDigest(
    crypto: Crypto, contractId: Bytes32, version: nat, operation: Bytes32, arguments: seq<Atom>): Digest
  {
    Digest(
      crypto.hash([ABytes(DOMAIN)]),
      crypto.hash([ABytes(contractId), AU64(version)]),
      crypto.hash([ABytes(operation)]),
      crypto.hash(arguments))
  }

  /** The call is signed over these operation bytes and argument leaves, and a submission with the
      outcome `r` succeeds exactly when the request names the current version, carries a signature of
      `key` over that digest, and meets a ledger that is active and permits the call, within gas. */
  ghost predicate AcceptedUnder(
    crypto: Crypto, l: Ledger, q: Request, r: Result<Ledger, Error>,
    operation: Bytes32, arguments: seq<Atom>, key: Point)
  {
    var digest := SignedDigest(crypto, l.id, q.expectedVersion, operation, arguments);
    && AuthorizationDigest(crypto, l.id, q.expectedVersion, q.call) == digest
    && (r.Ok? == (q.expectedVersion == l.version && crypto.verify(digest, q.signature, key)
                  && l.active && Permits(l, q.call) && q.enoughGas))
  }

  lemma Signs(crypto: Crypto, l: Ledger, q: Request, r: Result<Ledger, Error>,
              name: string, operation: Bytes32, arguments: seq<Atom>, key: Point)
    requires Outcome(crypto, l, q, r)
    requires OperationName(q.call) == name && ArgumentAtoms(q.call) == arguments && AuthorityKey(l, q.call) == key
    requires |name| <= 32
    requires forall i :: 0 <= i < |name| ==> name[i] as int == operation[i]
    requires forall i :: |name| <= i < 32 ==> operation[i] == 0
    ensures AcceptedUnder(crypto, l, q, r, operation, arguments, key)
  {
    PaddedIs(name, operation);
    PaddedIs("midnight-did-ctrl-sig:v1", DOMAIN);
  }

  /** Rotation hashes both coordinates of the new key. */
  lemma RotateControllerKeyBytes(crypto: Crypto, l: Ledger, q: Request, r: Result<Ledger, Error>)
    requires q.call.RotateControllerKey? && Outcome(crypto, l, q, r)
    ensures AcceptedUnder(crypto, l, q, r, ROTATE_CONTROLLER_KEY,
              [AField(q.call.newKey.x), AField(q.call.newKey.y)], l.controllerKey)
  {
    Signs(crypto, l, q, r, "rotateControllerKey", ROTATE_CONTROLLER_KEY,
          [AField(q.call.newKey.x), AField(q.call.newKey.y)], l.controllerKey);
  }

  /** Recovery hashes the same leaves under its own name, and the recovery key signs it. */
  lemma RecoverControllerKeyBytes(crypto: Crypto, l: Ledger, q: Request, r: Result<Ledger, Error>)
    requires q.call.RecoverControllerKey? && Outcome(crypto, l, q, r)
    ensures AcceptedUnder(crypto, l, q, r, RECOVER_CONTROLLER_KEY,
              [AField(q.call.newKey.x), AField(q.call.newKey.y)], l.recoveryKey)
  {
    Signs(crypto, l, q, r, "recoverControllerKey", RECOVER_CONTROLLER_KEY,
          [AField(q.call.newKey.x), AField(q.call.newKey.y)], l.recoveryKey);
  }

  lemma SetAlsoKnownAsBytes(crypto: Crypto, l: Ledger, q: Request, r: Result<Ledger, Error>, mutation: nat)
    requires q.call.SetAlsoKnownAs? && Outcome(crypto, l, q, r)
    requires Numbered(SET_MUTATIONS, mutation, q.call.setMutation)
    ensures AcceptedUnder(crypto, l, q, r, SET_ALSO_KNOWN_AS,
              [AText(q.call.value), AU8(mutation)], l.controllerKey)
  {
    Signs(crypto, l, q, r, "setAlsoKnownAs", SET_ALSO_KNOWN_AS,
          [AText(q.call.value), AU8(mutation)], l.controllerKey);
  }

  /** A method is hashed field by field, enumerations as their numbers. */
  lemma SetVerificationMethodBytes(crypto: Crypto, l: Ledger, q: Request, r: Result<Ledger, Error>, typ: nat, kty: nat, crv: nat,
                                   mutation: nat)
    requires q.call.SetVerificationMethod? && Outcome(crypto, l, q, r)
    requires Numbered(METHOD_TYPES, typ, q.call.method_.typ)
    requires Numbered(KEY_TYPES, kty, q.call.method_.publicKeyJwk.kty)
    requires Numbered(CURVES, crv, q.call.method_.publicKeyJwk.crv)
    requires Numbered(MAP_MUTATIONS, mutation, q.call.mapMutation)
    ensures AcceptedUnder(crypto, l, q, r, SET_VERIFICATION_METHOD,
              [AText(q.call.method_.id), AU8(typ), AU8(kty), AU8(crv), AText(q.call.method_.publicKeyJwk.x),
               AText(q.call.method_.publicKeyJwk.y), AU8(mutation)], l.controllerKey)
  {
    Signs(crypto, l, q, r, "setVerificationMethod", SET_VERIFICATION_METHOD,
          [AText(q.call.method_.id), AU8(typ), AU8(kty), AU8(crv), AText(q.call.method_.publicKeyJwk.x),
           AText(q.call.method_.publicKeyJwk.y), AU8(mutation)], l.controllerKey);
  }

  lemma RemoveVerificationMethodBytes(crypto: Crypto, l: Ledger, q: Request, r: Result<Ledger, Error>)
    requires q.call.RemoveVerificationMethod? && Outcome(crypto, l, q, r)
    ensures AcceptedUnder(crypto, l, q, r, REMOVE_VERIFICATION_METHOD,
              [AText(q.call.id)], l.controllerKey)
  {
    Signs(crypto, l, q, r, "removeVerificationMethod", REMOVE_VERIFICATION_METHOD,
          [AText(q.call.id)], l.controllerKey);
  }

  lemma SetSchnorrMethodBytes(crypto: Crypto, l: Ledger, q: Request, r: Result<Ledger, Error>, mutation: nat)
    requires q.call.SetSchnorrMethod? && Outcome(crypto, l, q, r)
    requires Numbered(MAP_MUTATIONS, mutation, q.call.mapMutation)
    ensures AcceptedUnder(crypto, l, q, r, SET_SCHNORR_METHOD,
              [AText(q.call.schnorr.id), AField(q.call.schnorr.publicKey.x), AField(q.call.schnorr.publicKey.y),
               AU8(mutation)], l.controllerKey)
  {
    Signs(crypto, l, q, r, "setSchnorrJubjubVM", SET_SCHNORR_METHOD,
          [AText(q.call.schnorr.id), AField(q.call.schnorr.publicKey.x), AField(q.call.schnorr.publicKey.y),
           AU8(mutation)], l.controllerKey);
  }

  lemma RemoveSchnorrMethodBytes(crypto: Crypto, l: Ledger, q: Request, r: Result<Ledger, Error>)
    requires q.call.RemoveSchnorrMethod? && Outcome(crypto, l, q, r)
    ensures AcceptedUnder(crypto, l, q, r, REMOVE_SCHNORR_METHOD,
              [AText(q.call.id)], l.controllerKey)
  {
    Signs(crypto, l, q, r, "removeSchnorrJubjubVM", REMOVE_SCHNORR_METHOD,
          [AText(q.call.id)], l.controllerKey);
  }

  /** The relation comes before the method id. */
  lemma SetRelationBytes(crypto: Crypto, l: Ledger, q: Request, r: Result<Ledger, Error>, relation: nat, mutation: nat)
    requires q.call.SetRelation? && Outcome(crypto, l, q, r)
    requires Numbered(RELATION_NUMBERS, relation, q.call.relation)
    requires Numbered(SET_MUTATIONS, mutation, q.call.setMutation)
    ensures AcceptedUnder(crypto, l, q, r, SET_RELATION,
              [AU8(relation), AText(q.call.id), AU8(mutation)], l.controllerKey)
  {
    Signs(crypto, l, q, r, "setVMRelation", SET_RELATION,
          [AU8(relation), AText(q.call.id), AU8(mutation)], l.controllerKey);
  }

  lemma SetServiceBytes(crypto: Crypto, l: Ledger, q: Request, r: Result<Ledger, Error>, mutation: nat)
    requires q.call.SetService? && Outcome(crypto, l, q, r)
    requires Numbered(MAP_MUTATIONS, mutation, q.call.mapMutation)
    ensures AcceptedUnder(crypto, l, q, r, SET_SERVICE,
              [AText(q.call.service.id), AText(q.call.service.typ), AText(q.call.service.serviceEndpoint),
               AU8(mutation)], l.controllerKey)
  {
    Signs(crypto, l, q, r, "setService", SET_SERVICE,
          [AText(q.call.service.id), AText(q.call.service.typ), AText(q.call.service.serviceEndpoint),
           AU8(mutation)], l.controllerKey);
  }

  lemma RemoveServiceBytes(crypto: Crypto, l: Ledger, q: Request, r: Result<Ledger, Error>)
    requires q.call.RemoveService? && Outcome(crypto, l, q, r)
    ensures AcceptedUnder(crypto, l, q, r, REMOVE_SERVICE,
              [AText(q.call.id)], l.controllerKey)
  {
    Signs(crypto, l, q, r, "removeService", REMOVE_SERVICE,
          [AText(q.call.id)], l.controllerKey);
  }

  lemma NoArgsAreHashed()
    ensures ArgumentAtoms(Deactivate) == [ABytes(NO_ARGS)]
  {
    PaddedIs("no-args", NO_ARGS);
  }

  /** A call without arguments hashes a fixed word in their place. */
  lemma DeactivateBytes(crypto: Crypto, l: Ledger, q: Request, r: Result<Ledger, Error>)
    requires q.call.Deactivate? && Outcome(crypto, l, q, r)
    ensures AcceptedUnder(crypto, l, q, r, DEACTIVATE,
              [ABytes(NO_ARGS)], l.controllerKey)
  {
    NoArgsAreHashed();
    Signs(crypto, l, q, r, "deactivate", DEACTIVATE,
          [ABytes(NO_ARGS)], l.controllerKey);
  }
}
