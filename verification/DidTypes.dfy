/** The enumerations shared by the documents, the API layer and the contract. */
module DidTypes {

  datatype VerificationMethodType = UndefinedType | JsonWebKey

  datatype KeyType = EC | RSA | Oct | OKP

  datatype CurveType = Ed25519 | X25519 | Jubjub | P256 | Secp256k1 | BLS12381G1 | BLS12381G2

  datatype Relation =
    | UndefinedRelation
    | Authentication
    | AssertionMethod
    | KeyAgreement
    | CapabilityInvocation
    | CapabilityDelegation

  /** The five defined relations in the order in which the API layer visits them. */
  const RELATIONS: seq<Relation> :=
    [Authentication, AssertionMethod, KeyAgreement, CapabilityInvocation, CapabilityDelegation]

  lemma RelationsAreAll(relation: Relation)
    ensures relation in RELATIONS <==> relation != UndefinedRelation
  {
    assert RELATIONS[0] == Authentication && RELATIONS[1] == AssertionMethod && RELATIONS[2] == KeyAgreement
        && RELATIONS[3] == CapabilityInvocation && RELATIONS[4] == CapabilityDelegation;
  }
}
