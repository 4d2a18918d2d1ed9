/** The circuits of the contract, step by step: each takes a ledger as its context, rebinds the
    context after every ledger program, and hands back the last one or the error of a check. */
module Circuits {
  import opened Prelude
  import opened DidTypes
  import opened Contract

  /** The witness timestamp and the gas verdict of one run. */
  datatype Env = Env(timestamp: nat, enoughGas: bool)

  type LedgerResult = Result<Ledger, Error>

  // ---------------------------------------------------------------------------
  // Guards
  // ---------------------------------------------------------------------------

  /** The signature, the version and the digest that a circuit is called with are those of a request. */
  predicate Carries(crypto: Crypto, l: Ledger, q: Request, signature: Signature, expectedVersion: nat, digest: Digest) {
    && q.signature == signature && q.expectedVersion == expectedVersion
    && digest == AuthorizationDigest(crypto, l.id, expectedVersion, q.call)
  }

  /** `assert_controller`: of the requests that the controller signs, exactly the authorized ones get
      through, and the others fail with the one fault that they have. */
  method AssertController(crypto: Crypto, ctx: Ledger, signature: Signature, expectedVersion: nat, digest: Digest)
    returns (r: LedgerResult)
    ensures r.Ok? ==> r.value == ctx
    ensures forall q: Request :: Carries(crypto, ctx, q, signature, expectedVersion, digest) && !q.call.RecoverControllerKey? ==>
              && (r.Ok? <==> Authorized(crypto, ctx, q))
              && (r.Err? ==> r.error in Faults(crypto, ctx, q))
  {
    if expectedVersion != ctx.version {
      return Err(StaleControllerVersion);
    }
    if !crypto.verify(digest, signature, ctx.controllerKey) {
      return Err(BadSignature);
    }
    return Ok(ctx);
  }

  /** `assert_controller_can_update`: the same for circuits that need an active ledger. */
  method AssertControllerCanUpdate(
    crypto: Crypto, ctx: Ledger, signature: Signature, expectedVersion: nat, digest: Digest)
    returns (r: LedgerResult)
    ensures r.Ok? ==> r.value == ctx
    ensures forall q: Request :: Carries(crypto, ctx, q, signature, expectedVersion, digest)
                                 && !q.call.RecoverControllerKey? && !q.call.Deactivate? ==>
              && (r.Ok? <==> Authorized(crypto, ctx, q) && ctx.active)
              && (r.Err? ==> r.error in Faults(crypto, ctx, q))
  {
    var ctx1 :- AssertController(crypto, ctx, signature, expectedVersion, digest);
    if !ctx1.active {
      return Err(NotActive);
    }
    return Ok(ctx1);
  }

  /** `assert_recovery_can_update`: the same for the one circuit that the recovery key signs. */
  method AssertRecoveryCanUpdate(
    crypto: Crypto, ctx: Ledger, signature: Signature, expectedVersion: nat, digest: Digest)
    returns (r: LedgerResult)
    ensures r.Ok? ==> r.value == ctx
    ensures forall q: Request :: Carries(crypto, ctx, q, signature, expectedVersion, digest) && q.call.RecoverControllerKey? ==>
              && (r.Ok? <==> Authorized(crypto, ctx, q) && ctx.active)
              && (r.Err? ==> r.error in Faults(crypto, ctx, q))
  {
    if expectedVersion != ctx.version {
      return Err(StaleRecoveryVersion);
    }
    if !crypto.verify(digest, signature, ctx.recoveryKey) {
      return Err(BadSignature);
    }
    if !ctx.active {
      return Err(NotActive);
    }
    return Ok(ctx);
  }

  method AssertControllerKeyChanges(ctx: Ledger, newKey: Point) returns (r: LedgerResult)
    ensures r == if newKey == ctx.controllerKey then Err(ControllerKeyUnchanged) else Ok(ctx)
  {
    if newKey.x != ctx.controllerKey.x || newKey.y != ctx.controllerKey.y {
      return Ok(ctx);
    }
    return Err(ControllerKeyUnchanged);
  }

  method AssertControllerKeyDistinctFromRecovery(ctx: Ledger, newKey: Point) returns (r: LedgerResult)
    ensures r == if newKey == ctx.recoveryKey then Err(ControllerKeyIsRecoveryKey) else Ok(ctx)
  {
    if newKey.x != ctx.recoveryKey.x || newKey.y != ctx.recoveryKey.y {
      return Ok(ctx);
    }
    return Err(ControllerKeyIsRecoveryKey);
  }

  /** `record_update`: both counters and the timestamp, if the call's programs fit their gas. */
  method RecordUpdate(ctx: Ledger, env: Env) returns (r: LedgerResult)
    ensures r == if env.enoughGas then Ok(Recorded(ctx, env.timestamp)) else Err(OutOfGas)
  {
    if !env.enoughGas {
      return Err(OutOfGas);
    }
    var next := ctx.(operationCount := ctx.operationCount + 1);
    next := next.(version := next.version + 1);
    next := next.(updated := env.timestamp);
    return Ok(next);
  }

  method AssertMethodNotReferenced(ctx: Ledger, id: string) returns (r: LedgerResult)
    ensures r.Ok? <==> !Referenced(ctx, id)
    ensures r.Ok? ==> r.value == ctx
    ensures r.Err? ==>
              && r.error.StillReferenced? && id in Members(ctx, r.error.relation)
              && forall earlier :: RelationTag(earlier) < RelationTag(r.error.relation) ==>
                   id !in Members(ctx, earlier)
  {
    if id in ctx.authentication {
      assert id in Members(ctx, Authentication);
      return Err(StillReferenced(Authentication));
    }
    if id in ctx.assertionMethod {
      assert id in Members(ctx, AssertionMethod);
      return Err(StillReferenced(AssertionMethod));
    }
    if id in ctx.keyAgreement {
      assert id in Members(ctx, KeyAgreement);
      return Err(StillReferenced(KeyAgreement));
    }
    if id in ctx.capabilityInvocation {
      assert id in Members(ctx, CapabilityInvocation);
      return Err(StillReferenced(CapabilityInvocation));
    }
    if id in ctx.capabilityDelegation {
      assert id in Members(ctx, CapabilityDelegation);
      return Err(StillReferenced(CapabilityDelegation));
    }
    return Ok(ctx);
  }

  method AssertRelationCompatible(ctx: Ledger, relation: Relation, id: string) returns (r: LedgerResult)
    requires !relation.UndefinedRelation?
    ensures r == if relation.KeyAgreement? && id !in ctx.methods then Err(AgreementMethodRequired)
                 else if id !in ctx.methods || CurveSuits(ctx.methods[id].publicKeyJwk.crv, relation) then Ok(ctx)
                 else if relation.KeyAgreement? then Err(AgreementCurveRequired)
                 else Err(AgreementCurveCannotSign)
  {
    if relation == KeyAgreement {
      if id !in ctx.methods {
        return Err(AgreementMethodRequired);
      }
      if ctx.methods[id].publicKeyJwk.crv != X25519 {
        return Err(AgreementCurveRequired);
      }
    } else if relation == Authentication || relation == AssertionMethod
              || relation == CapabilityInvocation || relation == CapabilityDelegation {
      if !(id !in ctx.methods || ctx.methods[id].publicKeyJwk.crv != X25519) {
        return Err(AgreementCurveCannotSign);
      }
    }
    return Ok(ctx);
  }

  method AssertExistingRelationsCompatible(ctx: Ledger, id: string, crv: CurveType) returns (r: LedgerResult)
    ensures r.Ok? <==> forall relation :: id in Members(ctx, relation) ==> CurveSuits(crv, relation)
    ensures r.Ok? ==> r.value == ctx
    ensures r.Err? ==>
              || (r.error.ExistingAgreementNeedsCurve? && id in ctx.keyAgreement && !crv.X25519?)
              || (r.error.ExistingSigningForbidsCurve? && crv.X25519?
                  && exists relation :: IsSigning(relation) && id in Members(ctx, relation))
  {
    if id in ctx.keyAgreement {
      assert id in Members(ctx, KeyAgreement);
      if crv != X25519 {
        return Err(ExistingAgreementNeedsCurve);
      }
    }
    if id in ctx.authentication || id in ctx.assertionMethod
       || id in ctx.capabilityInvocation || id in ctx.capabilityDelegation {
      assert id in Members(ctx, Authentication) || id in Members(ctx, AssertionMethod)
          || id in Members(ctx, CapabilityInvocation) || id in Members(ctx, CapabilityDelegation);
      if !(crv != X25519) {
        return Err(ExistingSigningForbidsCurve);
      }
    }
    return Ok(ctx);
  }

  method AssertSupportedMethod(vm: LedgerMethod) returns (failure: Option<Error>)
    ensures failure.None? <==> Supported(vm)
    ensures failure.Some? ==>
              failure.value == if !vm.typ.JsonWebKey? then UnsupportedMethodType
                               else if vm.publicKeyJwk.kty.OKP? then UnsupportedOkpCurve
                               else if vm.publicKeyJwk.kty.EC? then UnsupportedEcCurve
                               else UnsupportedKeyType
  {
    var jwk := vm.publicKeyJwk;
    if vm.typ != JsonWebKey {
      return Some(UnsupportedMethodType);
    }
    if jwk.kty == OKP {
      if !(jwk.crv == Ed25519 || jwk.crv == X25519 || jwk.crv == BLS12381G1 || jwk.crv == BLS12381G2) {
        return Some(UnsupportedOkpCurve);
      }
    } else if jwk.kty == EC {
      if !(jwk.crv == P256 || jwk.crv == Secp256k1) {
        return Some(UnsupportedEcCurve);
      }
    } else {
      return Some(UnsupportedKeyType);
    }
    return None;
  }

  method RelationMember(ctx: Ledger, relation: Relation, id: string) returns (member: bool)
    ensures member <==> id in Members(ctx, relation)
  {
    if relation == Authentication {
      member := id in ctx.authentication;
    } else if relation == AssertionMethod {
      member := id in ctx.assertionMethod;
    } else if relation == KeyAgreement {
      member := id in ctx.keyAgreement;
    } else if relation == CapabilityInvocation {
      member := id in ctx.capabilityInvocation;
    } else if relation == CapabilityDelegation {
      member := id in ctx.capabilityDelegation;
    } else {
      member := false;
    }
  }

  method InsertRelation(ctx: Ledger, relation: Relation, id: string) returns (next: Ledger)
    ensures next == WithMembers(ctx, relation, Members(ctx, relation) + {id})
  {
    next := ctx;
    if relation == Authentication {
      next := next.(authentication := next.authentication + {id});
    } else if relation == AssertionMethod {
      next := next.(assertionMethod := next.assertionMethod + {id});
    } else if relation == KeyAgreement {
      next := next.(keyAgreement := next.keyAgreement + {id});
    } else if relation == CapabilityInvocation {
      next := next.(capabilityInvocation := next.capabilityInvocation + {id});
    } else if relation == CapabilityDelegation {
      next := next.(capabilityDelegation := next.capabilityDelegation + {id});
    }
  }

  method RemoveRelation(ctx: Ledger, relation: Relation, id: string) returns (next: Ledger)
    ensures next == WithMembers(ctx, relation, Members(ctx, relation) - {id})
  {
    next := ctx;
    if relation == Authentication {
      next := next.(authentication := next.authentication - {id});
    } else if relation == AssertionMethod {
      next := next.(assertionMethod := next.assertionMethod - {id});
    } else if relation == KeyAgreement {
      next := next.(keyAgreement := next.keyAgreement - {id});
    } else if relation == CapabilityInvocation {
      next := next.(capabilityInvocation := next.capabilityInvocation - {id});
    } else if relation == CapabilityDelegation {
      next := next.(capabilityDelegation := next.capabilityDelegation - {id});
    }
  }

  /** What the part of a circuit between authorization and bookkeeping yields. */
  ghost predicate Written(l: Ledger, call: Call, r: LedgerResult) {
    if Permits(l, call) then r == Ok(Effect(l, call)) else r.Err? && r.error in StateFaults(l, call)
  }

  /** What the checks of a circuit between authorization and its first write yield. */
  ghost predicate Checked(l: Ledger, call: Call, r: LedgerResult) {
    if Permits(l, call) then r == Ok(l) else r.Err? && r.error in StateFaults(l, call)
  }

  lemma Refuses(crypto: Crypto, l: Ledger, q: Request, e: Error)
    requires Authorized(crypto, l, q) && l.active && !Permits(l, q.call) && e in StateFaults(l, q.call)
    ensures Outcome(crypto, l, q, Err(e))
  {
  }

  lemma Finishes(crypto: Crypto, l: Ledger, q: Request)
    requires Authorized(crypto, l, q) && l.active && Permits(l, q.call)
    ensures Outcome(crypto, l, q, if q.enoughGas then Ok(After(l, q)) else Err(OutOfGas))
  {
  }

  lemma WrittenOutcome(crypto: Crypto, l: Ledger, q: Request, written: LedgerResult)
    requires Authorized(crypto, l, q) && l.active && Written(l, q.call, written)
    ensures written.Err? ==> Outcome(crypto, l, q, Err(written.error))
    ensures written.Ok? ==>
              Outcome(crypto, l, q, if q.enoughGas then Ok(Recorded(written.value, q.timestamp)) else Err(OutOfGas))
  {
    if Permits(l, q.call) {
      Finishes(crypto, l, q);
    } else {
      Refuses(crypto, l, q, written.error);
    }
  }

  lemma CheckedOutcome(crypto: Crypto, l: Ledger, q: Request, checked: LedgerResult)
    requires Authorized(crypto, l, q) && l.active && Checked(l, q.call, checked)
    ensures checked.Err? ==> Outcome(crypto, l, q, Err(checked.error))
    ensures checked.Ok? ==>
              checked.value == l && Outcome(crypto, l, q, if q.enoughGas then Ok(After(l, q)) else Err(OutOfGas))
  {
    if Permits(l, q.call) {
      Finishes(crypto, l, q);
    } else {
      Refuses(crypto, l, q, checked.error);
    }
  }

  // ---------------------------------------------------------------------------
  // Constructor and circuits
  // ---------------------------------------------------------------------------

  /** A ledger of contract version 2, active, at version 0, made at the timestamp, with nothing stored. */
  predicate IsFresh(l: Ledger, controllerKey: Point, recoveryKey: Point, self: Bytes32, timestamp: nat) {
    && l.contractVersion == 2
    && l.controllerKey == controllerKey && l.recoveryKey == recoveryKey && l.id == self
    && l.version == 0 && l.operationCount == 0
    && l.created == timestamp && l.updated == timestamp
    && l.active && !l.deactivated
    && l.alsoKnownAs == {} && l.methods == map[] && l.schnorrMethods == map[] && l.services == map[]
    && l.authentication == {} && l.assertionMethod == {} && l.keyAgreement == {}
    && l.capabilityInvocation == {} && l.capabilityDelegation == {}
  }

  /** `initial_state`: default cells, then the keys, flags, address and version, then the check
      that the two keys differ, then the timestamps. */
  method InitialState(controllerKey: Point, recoveryKey: Point, self: Bytes32, timestamp: nat)
    returns (r: LedgerResult)
    ensures r == if controllerKey == recoveryKey then Err(ControllerKeyIsRecoveryKey)
                 else Ok(Genesis(controllerKey, recoveryKey, self, timestamp))
    ensures r.Ok? ==> IsFresh(r.value, controllerKey, recoveryKey, self, timestamp)
  {
    var zero: Bytes32 := seq(32, _ => 0);
    var ctx := Ledger(0, Point(zero, zero), Point(zero, zero), zero, {}, 0, 0, 0, false, false, 0,
                      map[], map[], {}, {}, {}, {}, {}, map[]);
    ctx := ctx.(recoveryKey := recoveryKey);
    ctx := ctx.(controllerKey := controllerKey);
    ctx := ctx.(deactivated := false);
    ctx := ctx.(active := true);
    ctx := ctx.(id := self);
    ctx := ctx.(contractVersion := 2);
    ctx :- AssertControllerKeyDistinctFromRecovery(ctx, ctx.controllerKey);
    ctx := ctx.(created := timestamp);
    ctx := ctx.(updated := timestamp);
    return Ok(ctx);
  }

  /** The checks on a new controller key, which rotation and recovery share. */
  method CheckNewKey(ctx: Ledger, newKey: Point) returns (r: LedgerResult)
    ensures Checked(ctx, RotateControllerKey(newKey), r) && Checked(ctx, RecoverControllerKey(newKey), r)
  {
    var ctx1 :- AssertControllerKeyChanges(ctx, newKey);
    r := AssertControllerKeyDistinctFromRecovery(ctx1, newKey);
  }

  method RotateControllerKeyCircuit(
    crypto: Crypto, context: Ledger, newKey: Point, signature: Signature, expectedVersion: nat, env: Env)
    returns (r: LedgerResult)
    ensures Outcome(crypto, context,
              Request(RotateControllerKey(newKey), signature, expectedVersion, env.timestamp, env.enoughGas), r)
  {
    ghost var q := Request(RotateControllerKey(newKey), signature, expectedVersion, env.timestamp, env.enoughGas);
    var digest := AuthorizationDigest(crypto, context.id, expectedVersion, RotateControllerKey(newKey));
    assert Carries(crypto, context, q, signature, expectedVersion, digest);
    var ctx :- AssertControllerCanUpdate(crypto, context, signature, expectedVersion, digest);
    var checked := CheckNewKey(ctx, newKey);
    CheckedOutcome(crypto, context, q, checked);
    ctx :- checked;
    ctx :- RecordUpdate(ctx, env);
    ctx := ctx.(controllerKey := newKey);
    return Ok(ctx);
  }

  method RecoverControllerKeyCircuit(
    crypto: Crypto, context: Ledger, newKey: Point, signature: Signature, expectedVersion: nat, env: Env)
    returns (r: LedgerResult)
    ensures Outcome(crypto, context,
              Request(RecoverControllerKey(newKey), signature, expectedVersion, env.timestamp, env.enoughGas), r)
  {
    ghost var q := Request(RecoverControllerKey(newKey), signature, expectedVersion, env.timestamp, env.enoughGas);
    var digest := AuthorizationDigest(crypto, context.id, expectedVersion, RecoverControllerKey(newKey));
    assert Carries(crypto, context, q, signature, expectedVersion, digest);
    var ctx :- AssertRecoveryCanUpdate(crypto, context, signature, expectedVersion, digest);
    var checked := CheckNewKey(ctx, newKey);
    CheckedOutcome(crypto, context, q, checked);
    ctx :- checked;
    ctx :- RecordUpdate(ctx, env);
    ctx := ctx.(controllerKey := newKey);
    return Ok(ctx);
  }

  method SetAlsoKnownAsCircuit(
    crypto: Crypto, context: Ledger, value: string, mutation: SetMutation,
    signature: Signature, expectedVersion: nat, env: Env)
    returns (r: LedgerResult)
    ensures Outcome(crypto, context,
              Request(SetAlsoKnownAs(value, mutation), signature, expectedVersion, env.timestamp, env.enoughGas), r)
  {
    ghost var q := Request(SetAlsoKnownAs(value, mutation), signature, expectedVersion, env.timestamp, env.enoughGas);
    var digest := AuthorizationDigest(crypto, context.id, expectedVersion, SetAlsoKnownAs(value, mutation));
    assert Carries(crypto, context, q, signature, expectedVersion, digest);
    var ctx :- AssertControllerCanUpdate(crypto, context, signature, expectedVersion, digest);
    if !(mutation == InsertMember || mutation == RemoveMember) {
      return Err(SetMutationUndefined);
    }
    if mutation == InsertMember {
      if value in ctx.alsoKnownAs {
        return Err(AliasExists);
      }
      ctx := ctx.(alsoKnownAs := ctx.alsoKnownAs + {value});
    } else if mutation == RemoveMember {
      if value !in ctx.alsoKnownAs {
        return Err(AliasMissing);
      }
      ctx := ctx.(alsoKnownAs := ctx.alsoKnownAs - {value});
    }
    r := RecordUpdate(ctx, env);
  }

  /** The part of `set_verification_method` after authorization: the checks on the arguments and
      the ledger, then an update as a removal followed by an insertion. */
  method WriteVerificationMethod(context: Ledger, vm: LedgerMethod, mutation: MapMutation)
    returns (r: LedgerResult)
    ensures Written(context, SetVerificationMethod(vm, mutation), r)
  {
    if !(mutation == InsertEntry || mutation == UpdateEntry) {
      return Err(MapMutationUndefined);
    }
    var unsupported := AssertSupportedMethod(vm);
    if unsupported.Some? {
      return Err(unsupported.value);
    }
    var ctx := context;
    if mutation == UpdateEntry {
      if vm.id !in ctx.methods {
        return Err(MethodMissing);
      }
      ctx :- AssertExistingRelationsCompatible(ctx, vm.id, vm.publicKeyJwk.crv);
      ctx := ctx.(methods := ctx.methods - {vm.id});
    } else if mutation == InsertEntry {
      if vm.id in ctx.methods || vm.id in ctx.schnorrMethods {
        return Err(MethodExists);
      }
    }
    ctx := ctx.(methods := ctx.methods[vm.id := vm]);
    assert ctx.methods == context.methods[vm.id := vm];
    return Ok(ctx);
  }

  method SetVerificationMethodCircuit(
    crypto: Crypto, context: Ledger, vm: LedgerMethod, mutation: MapMutation,
    signature: Signature, expectedVersion: nat, env: Env)
    returns (r: LedgerResult)
    ensures Outcome(crypto, context,
              Request(SetVerificationMethod(vm, mutation), signature, expectedVersion, env.timestamp, env.enoughGas), r)
  {
    ghost var q := Request(SetVerificationMethod(vm, mutation), signature, expectedVersion, env.timestamp, env.enoughGas);
    var digest := AuthorizationDigest(crypto, context.id, expectedVersion, SetVerificationMethod(vm, mutation));
    assert Carries(crypto, context, q, signature, expectedVersion, digest);
    var ctx :- AssertControllerCanUpdate(crypto, context, signature, expectedVersion, digest);
    var written := WriteVerificationMethod(ctx, vm, mutation);
    WrittenOutcome(crypto, context, q, written);
    ctx :- written;
    r := RecordUpdate(ctx, env);
  }

  /** The checks of the circuit below. */
  method CheckRemoveVerificationMethod(ctx: Ledger, id: string) returns (r: LedgerResult)
    ensures Checked(ctx, RemoveVerificationMethod(id), r)
  {
    if id !in ctx.methods {
      return Err(MethodMissing);
    }
    r := AssertMethodNotReferenced(ctx, id);
  }

  method RemoveVerificationMethodCircuit(
    crypto: Crypto, context: Ledger, id: string, signature: Signature, expectedVersion: nat, env: Env)
    returns (r: LedgerResult)
    ensures Outcome(crypto, context,
              Request(RemoveVerificationMethod(id), signature, expectedVersion, env.timestamp, env.enoughGas), r)
  {
    ghost var q := Request(RemoveVerificationMethod(id), signature, expectedVersion, env.timestamp, env.enoughGas);
    var digest := AuthorizationDigest(crypto, context.id, expectedVersion, RemoveVerificationMethod(id));
    assert Carries(crypto, context, q, signature, expectedVersion, digest);
    var ctx :- AssertControllerCanUpdate(crypto, context, signature, expectedVersion, digest);
    var checked := CheckRemoveVerificationMethod(ctx, id);
    CheckedOutcome(crypto, context, q, checked);
    ctx :- checked;
    ctx :- RecordUpdate(ctx, env);
    ctx := ctx.(methods := ctx.methods - {id});
    return Ok(ctx);
  }

  /** The part of the circuit below after authorization. */
  method WriteSchnorrMethod(context: Ledger, vm: SchnorrMethod, mutation: MapMutation) returns (r: LedgerResult)
    ensures Written(context, SetSchnorrMethod(vm, mutation), r)
  {
    var ctx := context;
    if !(mutation == InsertEntry || mutation == UpdateEntry) {
      return Err(MapMutationUndefined);
    }
    if mutation == UpdateEntry {
      if vm.id !in ctx.schnorrMethods {
        return Err(MethodMissing);
      }
      ctx := ctx.(schnorrMethods := ctx.schnorrMethods - {vm.id});
    } else if mutation == InsertEntry {
      if vm.id in ctx.methods || vm.id in ctx.schnorrMethods {
        return Err(MethodExists);
      }
    }
    ctx := ctx.(schnorrMethods := ctx.schnorrMethods[vm.id := vm]);
    assert ctx.schnorrMethods == context.schnorrMethods[vm.id := vm];
    return Ok(ctx);
  }

  method SetSchnorrMethodCircuit(
    crypto: Crypto, context: Ledger, vm: SchnorrMethod, mutation: MapMutation,
    signature: Signature, expectedVersion: nat, env: Env)
    returns (r: LedgerResult)
    ensures Outcome(crypto, context,
              Request(SetSchnorrMethod(vm, mutation), signature, expectedVersion, env.timestamp, env.enoughGas), r)
  {
    ghost var q := Request(SetSchnorrMethod(vm, mutation), signature, expectedVersion, env.timestamp, env.enoughGas);
    var digest := AuthorizationDigest(crypto, context.id, expectedVersion, SetSchnorrMethod(vm, mutation));
    assert Carries(crypto, context, q, signature, expectedVersion, digest);
    var ctx :- AssertControllerCanUpdate(crypto, context, signature, expectedVersion, digest);
    var written := WriteSchnorrMethod(ctx, vm, mutation);
    WrittenOutcome(crypto, context, q, written);
    ctx :- written;
    r := RecordUpdate(ctx, env);
  }

  /** The checks of the circuit below. */
  method CheckRemoveSchnorrMethod(ctx: Ledger, id: string) returns (r: LedgerResult)
    ensures Checked(ctx, RemoveSchnorrMethod(id), r)
  {
    if id !in ctx.schnorrMethods {
      return Err(MethodMissing);
    }
    r := AssertMethodNotReferenced(ctx, id);
  }

  method RemoveSchnorrMethodCircuit(
    crypto: Crypto, context: Ledger, id: string, signature: Signature, expectedVersion: nat, env: Env)
    returns (r: LedgerResult)
    ensures Outcome(crypto, context,
              Request(RemoveSchnorrMethod(id), signature, expectedVersion, env.timestamp, env.enoughGas), r)
  {
    ghost var q := Request(RemoveSchnorrMethod(id), signature, expectedVersion, env.timestamp, env.enoughGas);
    var digest := AuthorizationDigest(crypto, context.id, expectedVersion, RemoveSchnorrMethod(id));
    assert Carries(crypto, context, q, signature, expectedVersion, digest);
    var ctx :- AssertControllerCanUpdate(crypto, context, signature, expectedVersion, digest);
    var checked := CheckRemoveSchnorrMethod(ctx, id);
    CheckedOutcome(crypto, context, q, checked);
    ctx :- checked;
    ctx :- RecordUpdate(ctx, env);
    ctx := ctx.(schnorrMethods := ctx.schnorrMethods - {id});
    return Ok(ctx);
  }

  /** `verify_schnorr_jubjub_digest_signature`, the one circuit that changes nothing. */
  method VerifyDigestSignatureCircuit(
    crypto: Crypto, context: Ledger, id: string, digest: Digest, signature: Signature)
    returns (r: LedgerResult)
    ensures r.Ok? <==> context.active && id in context.schnorrMethods
                       && crypto.verify(digest, signature, context.schnorrMethods[id].publicKey)
    ensures r.Ok? ==> r.value == context
    ensures r.Err? ==>
              r.error == if !context.active then NotActive
                         else if id !in context.schnorrMethods then MethodMissing
                         else BadSignature
  {
    if !context.active {
      return Err(NotActive);
    }
    if id !in context.schnorrMethods {
      return Err(MethodMissing);
    }
    var method_ := context.schnorrMethods[id];
    if !crypto.verify(digest, signature, method_.publicKey) {
      return Err(BadSignature);
    }
    return Ok(context);
  }

  /** The branch of `set_verification_method_relation` that adds an entry. */
  method WriteNewEntry(context: Ledger, relation: Relation, id: string) returns (r: LedgerResult)
    requires MethodExistsIn(context, id) && !relation.UndefinedRelation? && id !in Members(context, relation)
    ensures Written(context, SetRelation(relation, id, InsertMember), r)
  {
    var ctx :- AssertRelationCompatible(context, relation, id);
    ctx := InsertRelation(ctx, relation, id);
    return Ok(ctx);
  }

  /** The part of `set_verification_method_relation` after authorization. */
  method WriteRelation(context: Ledger, relation: Relation, id: string, mutation: SetMutation)
    returns (r: LedgerResult)
    ensures Written(context, SetRelation(relation, id, mutation), r)
  {
    if !(mutation == InsertMember || mutation == RemoveMember) {
      return Err(SetMutationUndefined);
    }
    var ctx := context;
    if !(id in ctx.methods || id in ctx.schnorrMethods) {
      return Err(MethodMissing);
    }
    if relation == UndefinedRelation {
      return Err(RelationUndefined);
    }
    var currentPresent := RelationMember(ctx, relation, id);
    if mutation == InsertMember {
      if currentPresent {
        return Err(RelationExists);
      }
      ctx :- WriteNewEntry(ctx, relation, id);
    } else if mutation == RemoveMember {
      if !currentPresent {
        return Err(RelationMissing);
      }
      ctx := RemoveRelation(ctx, relation, id);
    }
    return Ok(ctx);
  }

  method SetRelationCircuit(
    crypto: Crypto, context: Ledger, relation: Relation, id: string, mutation: SetMutation,
    signature: Signature, expectedVersion: nat, env: Env)
    returns (r: LedgerResult)
    ensures Outcome(crypto, context,
              Request(SetRelation(relation, id, mutation), signature, expectedVersion, env.timestamp, env.enoughGas), r)
  {
    ghost var q := Request(SetRelation(relation, id, mutation), signature, expectedVersion, env.timestamp, env.enoughGas);
    var digest := AuthorizationDigest(crypto, context.id, expectedVersion, SetRelation(relation, id, mutation));
    assert Carries(crypto, context, q, signature, expectedVersion, digest);
    var ctx :- AssertControllerCanUpdate(crypto, context, signature, expectedVersion, digest);
    var written := WriteRelation(ctx, relation, id, mutation);
    WrittenOutcome(crypto, context, q, written);
    ctx :- written;
    r := RecordUpdate(ctx, env);
  }

  /** The part of the circuit below after authorization. */
  method WriteService(context: Ledger, service: LedgerService, mutation: MapMutation) returns (r: LedgerResult)
    ensures Written(context, SetService(service, mutation), r)
  {
    var ctx := context;
    if !(mutation == InsertEntry || mutation == UpdateEntry) {
      return Err(MapMutationUndefined);
    }
    if mutation == UpdateEntry {
      if service.id !in ctx.services {
        return Err(ServiceMissing);
      }
      ctx := ctx.(services := ctx.services - {service.id});
    } else if mutation == InsertEntry {
      if service.id in ctx.services {
        return Err(ServiceExists);
      }
    }
    ctx := ctx.(services := ctx.services[service.id := service]);
    assert ctx.services == context.services[service.id := service];
    return Ok(ctx);
  }

  method SetServiceCircuit(
    crypto: Crypto, context: Ledger, service: LedgerService, mutation: MapMutation,
    signature: Signature, expectedVersion: nat, env: Env)
    returns (r: LedgerResult)
    ensures Outcome(crypto, context,
              Request(SetService(service, mutation), signature, expectedVersion, env.timestamp, env.enoughGas), r)
  {
    ghost var q := Request(SetService(service, mutation), signature, expectedVersion, env.timestamp, env.enoughGas);
    var digest := AuthorizationDigest(crypto, context.id, expectedVersion, SetService(service, mutation));
    assert Carries(crypto, context, q, signature, expectedVersion, digest);
    var ctx :- AssertControllerCanUpdate(crypto, context, signature, expectedVersion, digest);
    var written := WriteService(ctx, service, mutation);
    WrittenOutcome(crypto, context, q, written);
    ctx :- written;
    r := RecordUpdate(ctx, env);
  }

  method RemoveServiceCircuit(
    crypto: Crypto, context: Ledger, id: string, signature: Signature, expectedVersion: nat, env: Env)
    returns (r: LedgerResult)
    ensures Outcome(crypto, context,
              Request(RemoveService(id), signature, expectedVersion, env.timestamp, env.enoughGas), r)
  {
    ghost var q := Request(RemoveService(id), signature, expectedVersion, env.timestamp, env.enoughGas);
    var digest := AuthorizationDigest(crypto, context.id, expectedVersion, RemoveService(id));
    assert Carries(crypto, context, q, signature, expectedVersion, digest);
    var ctx :- AssertControllerCanUpdate(crypto, context, signature, expectedVersion, digest);
    if id !in ctx.services {
      return Err(ServiceMissing);
    }
    ctx :- RecordUpdate(ctx, env);
    ctx := ctx.(services := ctx.services - {id});
    return Ok(ctx);
  }

  method DeactivateCircuit(
    crypto: Crypto, context: Ledger, signature: Signature, expectedVersion: nat, env: Env)
    returns (r: LedgerResult)
    ensures Outcome(crypto, context,
              Request(Deactivate, signature, expectedVersion, env.timestamp, env.enoughGas), r)
  {
    ghost var q := Request(Deactivate, signature, expectedVersion, env.timestamp, env.enoughGas);
    var digest := AuthorizationDigest(crypto, context.id, expectedVersion, Deactivate);
    assert Carries(crypto, context, q, signature, expectedVersion, digest);
    var ctx :- AssertController(crypto, context, signature, expectedVersion, digest);
    if !ctx.active {
      return Err(AlreadyInactive);
    }
    ctx :- RecordUpdate(ctx, env);
    ctx := ctx.(active := false);
    ctx := ctx.(deactivated := true);
    return Ok(ctx);
  }

  /** Dispatch of a request to its circuit. */
  method Submit(crypto: Crypto, ctx: Ledger, q: Request) returns (r: LedgerResult)
    ensures Outcome(crypto, ctx, q, r)
  {
    var env := Env(q.timestamp, q.enoughGas);
    var signature, version := q.signature, q.expectedVersion;
    match q.call
    case RotateControllerKey(k) => r := RotateControllerKeyCircuit(crypto, ctx, k, signature, version, env);
    case RecoverControllerKey(k) => r := RecoverControllerKeyCircuit(crypto, ctx, k, signature, version, env);
    case SetAlsoKnownAs(v, m) => r := SetAlsoKnownAsCircuit(crypto, ctx, v, m, signature, version, env);
    case SetVerificationMethod(vm, m) => r := SetVerificationMethodCircuit(crypto, ctx, vm, m, signature, version, env);
    case RemoveVerificationMethod(id) => r := RemoveVerificationMethodCircuit(crypto, ctx, id, signature, version, env);
    case SetSchnorrMethod(vm, m) => r := SetSchnorrMethodCircuit(crypto, ctx, vm, m, signature, version, env);
    case RemoveSchnorrMethod(id) => r := RemoveSchnorrMethodCircuit(crypto, ctx, id, signature, version, env);
    case SetRelation(rel, id, m) => r := SetRelationCircuit(crypto, ctx, rel, id, m, signature, version, env);
    case SetService(s, m) => r := SetServiceCircuit(crypto, ctx, s, m, signature, version, env);
    case RemoveService(id) => r := RemoveServiceCircuit(crypto, ctx, id, signature, version, env);
    case Deactivate => r := DeactivateCircuit(crypto, ctx, signature, version, env);
  }
}
