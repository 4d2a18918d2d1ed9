# Midnight DID: a verified model

This project models the parts of the Midnight DID implementation in which state, arithmetic and text
meet: the DID contract, the API operations that drive it, the way back from the ledger to a DID
document, the controller-key rotation protocol, and the codecs underneath.

* **Contract** (`Contract`, `Circuits`, `ContractSafety`, `ContractRefinement`, `SignedBytes`). `Contract` says in
  declarative terms which requests a ledger accepts, what they do and why a request fails. `Circuits`
  holds the circuits step by step, each proved against that specification. `ContractSafety` proves what
  every run keeps: the invariant over methods and relations, version accounting, digests that are never
  accepted twice, terminal deactivation, one component per call. `ContractRefinement` proves that the
  contract refines a small machine with one method map and one relation map, over whole runs. `SignedBytes`
  writes out, byte by byte and leaf by leaf, what is signed for each of the eleven calls.
* **API over the contract** (`LedgerUtils`, `Mappers`, `Snapshot`, `ApiOperations`). Ids, service types,
  the mapping of domain values to ledger values, and purge-then-remove as a loop of contract calls.
* **Resolution** (`Resolution`, `Reachable`, `ResolvedContents`, `DidDocument`, `DocumentNames`,
  `DidDocumentBuilder`, `Calendar`). The assembly of a document from a ledger view, the document validator
  and the builder, and the theorems that tie the layers together: which ledgers that API calls can reach
  resolve, and that the document then says, field by field, what the ledger holds. `DocumentNames` states
  what the validator reports in terms of the names behind the spellings of ids.
* **Rotation** (`PrivateState`, `Rotation`). The slot store and the rotation, recovery and
  pending-recovery operations, with a failure or a stop possible at every wait.
* **Codecs and strings** (`Hex`, `Base64Url`, `FieldElement`, `Mod1Frame`, `MidnightDid`, `Offchain`,
  `Text`). Base64url follows sections 3.5 and 5 of RFC 4648, timestamps section 5.6 of RFC 3339.

## Assumptions

* The transient hash and the Schnorr verifier are the functions of `Contract.Crypto`. Injectivity of the
  hash is a hypothesis of the digest lemmas only.
* serde_json, the URI normaliser and `Url::join` are the functions of `Foreign.Libraries`. Where a lemma
  needs it, it assumes that a printed JSON value parses back to itself, has no white space around it and
  starts with a bracket exactly when it is an array (`JsonRoundTrips`); the values are those that
  serde_json holds, with finite floats by their bits, and that `#` and a key fragment is a valid relative reference
  (`FragmentsJoin`).
* A live backend executes a call at the current version with an accepted signature
  (`ApiOperations.Backend`), and a ledger view lists each collection of the ledger once, with points as hex
  (`Snapshot.Projects`).
* The safety of rotation assumes that a rotation starts only when the Active slot holds the controller
  secret and no earlier submission is in flight, with a secret and a public key that belong together, that
  an error reported by the backend means that nothing was applied, and that a confirmation of finality is
  true (`Rotation.Honest`). A store call that fails, and a stop, may have taken effect or not; a submission
  that a stop cuts off may become final at any later time.
* Witness timestamps are arbitrary inputs; nothing orders them.

## Findings

Some properties hold only under a condition. For each the exact condition is proved.

* A removal through the API fails for a method of the other kind, but only after it has taken the id out
  of all relations (`RemovalIsExact`, `FailedRemovalPurges`).
* The API stores Schnorr-Jubjub ids that are no key ids, and single service types that start with `[`. One
  such call on a fresh contract leaves a ledger that does not resolve (`SchnorrRunDoesNotResolve`,
  `ServiceRunDoesNotResolve`). The condition on a call is exact (`SchnorrCallDecides`,
  `ServiceCallDecides`), and runs of calls that meet it always resolve (`ReadableRunResolves`).
* The bare id `#` is accepted, but its absolute form is not (`AbsoluteThenBound`).
* The builder rejects documents that are valid: its pre-screen compares ids letter by letter
  (`BuilderRejectsAValidDocument`).
* A long-form DID is accepted whatever its payload holds, as long as it hashes to the id
  (`AcceptedLongForms`, `AcceptedWithoutFrame`); which payloads decode is exact (`PayloadDecodes`).
* `initPrivateState` says that it persists the secret it creates; on a store without an address it returns
  one that is stored nowhere (`InitPrivateState`).
* If a backend reported an error for a rotation that took effect, the clean-up would lose the new secret
  (`AppliedErrorLosesSecret`). The same happens if a second rotation starts while the submission of the
  first is in flight (`LateAcceptanceLosesSecret`, `OverwritingInFlightIsSafeIff`).

## Model

| member | source | states |
|---|---|---|
| ContractSafety.RunKeeps | crates/midnight-did-runtime/src/contract/generated.rs:2759-3945 | after any requests in any order, accepted or not, method maps are disjoint and keyed by id, every relation entry names a method, keyAgreement entries are X25519 keys and signing entries are not, JWK profiles are supported, the two keys differ, active is not deactivated, version equals operation count |
| ContractSafety.GenesisKeeps | crates/midnight-did-runtime/src/contract/generated.rs:1586-1711 | a fresh contract with two distinct keys satisfies the invariant |
| ContractSafety.AcceptedKeeps | crates/midnight-did-runtime/src/contract/generated.rs:2759-3945 | each accepted circuit call keeps the invariant |
| ContractSafety.AgreementKeysDoNotSign | crates/midnight-did-runtime/src/contract/generated.rs:2500-2757 | inside the invariant a keyAgreement key is an OKP X25519 method and is in no signing relation |
| ContractSafety.RunCounts | crates/midnight-did-runtime/src/contract/generated.rs:2076-2112 | over a run version and operation count grow by the number of accepted requests; id, recovery key, creation time and contract version never change |
| ContractSafety.AcceptedVersion | crates/midnight-did-runtime/src/contract/generated.rs:1783-1840 | an accepted request names the number of requests accepted before it |
| ContractSafety.DigestDetermines | crates/midnight-did-runtime/src/contract/generated.rs:4122-4386 | with an injective hash the authorization digest determines contract, version, operation and arguments |
| ContractSafety.ArgumentsInjective | crates/midnight-did-runtime/src/contract/generated.rs:4165-4386 | the hashed arguments of calls of one circuit determine the call |
| ContractSafety.PaddedNameDeterminesCircuit | crates/midnight-did-runtime/src/contract/generated.rs:4122-4137 | the padded operation names of the eleven circuits are pairwise different |
| ContractSafety.ArgumentsAloneDoNotDetermine | crates/midnight-did-runtime/src/contract/generated.rs:4251-4268 | calls of different circuits can have the same hashed arguments, so the operation part of the digest is needed |
| SignedBytes.RotateControllerKeyBytes | crates/midnight-did-runtime/src/contract/generated.rs:4139-4184 | a rotation is signed over the 32 domain bytes, contract id and version, the 32 name bytes and the two coordinates, all written out; its submission succeeds exactly at the current version, with a signature of the controller key over that, on an active ledger that permits it |
| SignedBytes.RecoverControllerKeyBytes | crates/midnight-did-runtime/src/contract/generated.rs:4186-4205 | the same for recovery: its own name bytes, the same leaves, and the recovery key |
| SignedBytes.SetAlsoKnownAsBytes | crates/midnight-did-runtime/src/contract/generated.rs:4207-4227 | the same for aliases: text, then the number of the mutation |
| SignedBytes.SetVerificationMethodBytes | crates/midnight-did-runtime/src/contract/generated.rs:4229-4249 | the same for JWK methods: id, the numbers of type, key type and curve, both coordinates, mutation |
| SignedBytes.RemoveVerificationMethodBytes | crates/midnight-did-runtime/src/contract/generated.rs:4251-4267 | the same for their removal |
| SignedBytes.SetSchnorrMethodBytes | crates/midnight-did-runtime/src/contract/generated.rs:4269-4291 | the same for Schnorr-Jubjub methods: id, both coordinates, mutation |
| SignedBytes.RemoveSchnorrMethodBytes | crates/midnight-did-runtime/src/contract/generated.rs:4293-4309 | the same for their removal |
| SignedBytes.SetRelationBytes | crates/midnight-did-runtime/src/contract/generated.rs:4311-4333 | the same for relations: number of the relation, id, mutation |
| SignedBytes.SetServiceBytes | crates/midnight-did-runtime/src/contract/generated.rs:4335-4353 | the same for services: id, type, endpoint, mutation |
| SignedBytes.RemoveServiceBytes | crates/midnight-did-runtime/src/contract/generated.rs:4355-4371 | the same for their removal |
| SignedBytes.DeactivateBytes | crates/midnight-did-runtime/src/contract/generated.rs:4373-4386 | the same for deactivation, which hashes the padded word no-args as its arguments |
| ContractSafety.AcceptedDigestsDistinct | crates/midnight-did-runtime/src/contract/generated.rs:1783-1840 | two accepted requests of a run never authorize the same digest: no signature is accepted twice |
| ContractSafety.InactiveForever | crates/midnight-did-runtime/src/contract/generated.rs:1842-1962 | on an inactive ledger no request is ever accepted and no run changes anything |
| ContractSafety.DeactivatedIffAccepted | crates/midnight-did-runtime/src/contract/generated.rs:3871-3945 | a contract is inactive after a run exactly when a deactivate request was accepted in it |
| ContractSafety.AcceptedChangesOneComponent | crates/midnight-did-runtime/src/contract/generated.rs:2888-3945 | an accepted call changes its own component, and does so unless it overwrites a map entry; every other component stays, counters and timestamp move |
| ContractSafety.SupportedProfiles | crates/midnight-did-runtime/src/contract/generated.rs:4404-4433 | the supported key profiles, one by one |
| ContractSafety.RelationCallWrites | crates/midnight-did-runtime/src/contract/generated.rs:3509-3654 | a relation call changes the cell that its relation names and none of the other four |
| ContractSafety.FaultIsUnique | crates/midnight-did-runtime/src/contract/generated.rs:2759-3945 | a request fails for at most one reason |
| ContractSafety.AcceptedHasNoFault | crates/midnight-did-runtime/src/contract/generated.rs:2759-3945 | an accepted request fits none of the error conditions |
| ContractRefinement.RunsRefine | crates/midnight-did-runtime/src/contract/generated.rs:2759-3945 | over whole runs the contract and a machine with one method map and one relation map accept the same requests and stay in corresponding states |
| ContractRefinement.StepRefines | crates/midnight-did-runtime/src/contract/generated.rs:2759-3945 | one request: the contract accepts it exactly when the small machine does, with corresponding results |
| ContractRefinement.PermitsIsAllowed | crates/midnight-did-runtime/src/contract/generated.rs:2376-2757 | the guards of the circuits, found in two maps and five sets, are the guards of the small machine |
| ContractRefinement.EffectIsDo | crates/midnight-did-runtime/src/contract/generated.rs:2225-2374 | remove-then-insert updates and relation writes picked by tag are single map updates of the small machine |
| ContractRefinement.RelationInvariantIsOneRule | crates/midnight-did-runtime/src/contract/generated.rs:2500-2757 | the invariant on relations is one rule: X25519 keys agree, every other key signs |
| Circuits.InitialState | crates/midnight-did-runtime/src/contract/generated.rs:1586-1711 | the constructor fails exactly when both keys are the same, and otherwise yields a ledger of contract version 2, active, at version 0, made at the timestamp, with nothing stored |
| Circuits.AssertController | crates/midnight-did-runtime/src/contract/generated.rs:1783-1840 | of the requests that the controller signs exactly the authorized ones pass, with the ledger unchanged; the others fail with the one fault that the request has |
| Circuits.AssertControllerCanUpdate | crates/midnight-did-runtime/src/contract/generated.rs:1842-1884 | of the requests that need an active ledger exactly the authorized ones on an active ledger pass; the others fail with the one fault that the request has |
| Circuits.AssertRecoveryCanUpdate | crates/midnight-did-runtime/src/contract/generated.rs:1886-1962 | the same for the request that the recovery key signs |
| Circuits.AssertControllerKeyChanges | crates/midnight-did-runtime/src/contract/generated.rs:1964-2018 | fails exactly for the current controller key |
| Circuits.AssertControllerKeyDistinctFromRecovery | crates/midnight-did-runtime/src/contract/generated.rs:2020-2074 | fails exactly for the recovery key |
| Circuits.RecordUpdate | crates/midnight-did-runtime/src/contract/generated.rs:2076-2112 | both counters and the timestamp, or out of gas |
| Circuits.RelationMember | crates/midnight-did-runtime/src/contract/generated.rs:2114-2223 | membership in the set picked by the tag |
| Circuits.InsertRelation | crates/midnight-did-runtime/src/contract/generated.rs:2225-2301 | adds the id to the set picked by the tag and nothing else |
| Circuits.RemoveRelation | crates/midnight-did-runtime/src/contract/generated.rs:2303-2374 | removes the id from the set picked by the tag and nothing else |
| Circuits.AssertMethodNotReferenced | crates/midnight-did-runtime/src/contract/generated.rs:2376-2498 | fails exactly for referenced ids and names the first relation that lists the id |
| Circuits.AssertRelationCompatible | crates/midnight-did-runtime/src/contract/generated.rs:2500-2625 | which new relation entries the curve of a method forbids |
| Circuits.AssertExistingRelationsCompatible | crates/midnight-did-runtime/src/contract/generated.rs:2627-2757 | succeeds exactly when every relation that lists the id suits the new curve |
| Circuits.AssertSupportedMethod | crates/midnight-did-runtime/src/contract/generated.rs:4404-4433 | succeeds exactly for supported type, key type and curve |
| Circuits.RotateControllerKeyCircuit | crates/midnight-did-runtime/src/contract/generated.rs:2759-2822 | accepts exactly the permitted requests, yields the specified ledger, else the error of the failed check |
| Circuits.RecoverControllerKeyCircuit | crates/midnight-did-runtime/src/contract/generated.rs:2824-2886 | the same for recovery |
| Circuits.SetAlsoKnownAsCircuit | crates/midnight-did-runtime/src/contract/generated.rs:2888-3008 | the same for aliases |
| Circuits.SetVerificationMethodCircuit | crates/midnight-did-runtime/src/contract/generated.rs:3010-3139 | the same for JWK methods |
| Circuits.RemoveVerificationMethodCircuit | crates/midnight-did-runtime/src/contract/generated.rs:3141-3219 | the same for their removal |
| Circuits.SetSchnorrMethodCircuit | crates/midnight-did-runtime/src/contract/generated.rs:3221-3338 | the same for Schnorr-Jubjub methods |
| Circuits.RemoveSchnorrMethodCircuit | crates/midnight-did-runtime/src/contract/generated.rs:3340-3418 | the same for their removal |
| Circuits.VerifyDigestSignatureCircuit | crates/midnight-did-runtime/src/contract/generated.rs:3420-3507 | the read-only circuit succeeds exactly on an active ledger with a known key and a valid signature, and changes nothing |
| Circuits.SetRelationCircuit | crates/midnight-did-runtime/src/contract/generated.rs:3509-3654 | the same for relations |
| Circuits.SetServiceCircuit | crates/midnight-did-runtime/src/contract/generated.rs:3656-3792 | the same for services |
| Circuits.RemoveServiceCircuit | crates/midnight-did-runtime/src/contract/generated.rs:3794-3869 | the same for their removal |
| Circuits.DeactivateCircuit | crates/midnight-did-runtime/src/contract/generated.rs:3871-3945 | the same for deactivation |
| Circuits.Submit | crates/midnight-did-runtime/src/contract/generated.rs:2759-3945 | every request, whatever its circuit, has the specified outcome; the bytes under its signature are those of SignedBytes |
| ApiOperations.RemovalIsExact | crates/midnight-did-api/src/verification_method_operations.rs:122-187 | on an active ledger purge-then-remove succeeds exactly when the method is of the removed kind; the result is the ledger without it and without its id in all five relations, in memberships + 1 versions; a failed removal leaves the purge, so it leaves the ledger alone exactly when the id is not referenced |
| ApiOperations.PurgeIsTotal | crates/midnight-did-api/src/verification_method_operations.rs:122-148 | every removal call of the purge is accepted in turn, and together they clear the id from the five relations |
| ApiOperations.MembershipCountIs | crates/midnight-did-api/src/verification_method_operations.rs:58-72 | the number of purge calls is the number of relations that list the id |
| ApiOperations.RemovalWhenInactive | crates/midnight-did-api/src/verification_method_operations.rs:177-187 | on an inactive ledger a removal changes nothing |
| ApiOperations.FailedRemovalPurges | crates/midnight-did-api/src/verification_method_operations.rs:177-187 | a ledger inside the invariant on which a failed removal empties authentication |
| ApiOperations.RelationAddThenRemove | crates/midnight-did-api/src/verification_method_operations.rs:242-273 | removing a relation entry undoes adding it, at the price of two versions |
| ApiOperations.AddIsAccepted | crates/midnight-did-api/src/verification_method_operations.rs:152-161 | a valid method with a Midnight profile bound to the DID is added exactly when the DID is active and the id is free in both maps |
| ApiOperations.RemovePresentRelations | crates/midnight-did-api/src/verification_method_operations.rs:122-137 | the loop submits the calls for the member entries in order and stops at the first failure |
| ApiOperations.PurgeFromAllRelations | crates/midnight-did-api/src/verification_method_operations.rs:142-149 | the purge of the memberships of the ledger that it reads |
| ApiOperations.RemoveMethod | crates/midnight-did-api/src/verification_method_operations.rs:177-226 | both removals: an error of the id leaves the ledger alone, otherwise purge, then the removal call, for the id that the given one is normalised to |
| ApiOperations.RemovalBySpelling | crates/midnight-did-api/src/verification_method_operations.rs:177-226 | a fragment, with a hash in front, or behind the DID and a hash, whitespace around it or not, removes the same method: on an active ledger exactly when it is there, and then it is in no map and no relation |
| ApiOperations.AddRelation | crates/midnight-did-api/src/verification_method_operations.rs:242-256 | looks before it calls; a repeated entry never reaches the contract |
| ApiOperations.RemoveRelation | crates/midnight-did-api/src/verification_method_operations.rs:258-273 | looks before it calls; a missing entry never reaches the contract |
| ApiOperations.MembershipCallsArePurgeCalls | crates/midnight-did-api/src/verification_method_operations.rs:58-72 | memberships read from a view are the memberships of the ledger |
| ApiOperations.Backend.SubmitTx | crates/midnight-did-runtime/src/contract_call.rs:488-560 | the executing interpretation of a call: the circuit at the current version with an accepted signature |
| Snapshot.ContainsIsMembership | crates/midnight-did-runtime/src/contract_call.rs:438-454 | membership in a relation of the view is membership in the ledger |
| Snapshot.Read | crates/midnight-did-runtime/src/contract_call.rs:393-434 | every ledger has a view |
| LedgerUtils.BoundIdShape | crates/midnight-did-domain/src/ledger_utils.rs:154-204 | every stored id has a leading hash, is trim-stable and is a fixed point of the normaliser under any subject |
| LedgerUtils.BoundIdAccepts | crates/midnight-did-domain/src/ledger_utils.rs:154-204 | exactly which values the normaliser accepts |
| LedgerUtils.NormalizeFragmentIdShape | crates/midnight-did-domain/src/ledger_utils.rs:131-140 | the plain normaliser gives ledger ids and is idempotent |
| LedgerUtils.BoundIdOfText | crates/midnight-did-domain/src/ledger_utils.rs:154-204 | the value or the error for every text without a fragment of its own, by its first characters |
| LedgerUtils.BoundIdOfReference | crates/midnight-did-domain/src/ledger_utils.rs:154-204 | the value or the error for text in front of a hash: the fragment, if the front is the subject or no DID |
| LedgerUtils.SpellingsOfId | crates/midnight-did-domain/src/ledger_utils.rs:154-204 | the three spellings of one id are normalised to the same id |
| LedgerUtils.NormalizeFragmentIdOfText | crates/midnight-did-domain/src/ledger_utils.rs:131-140 | the value of the plain normaliser from the text in front of the first hash and after it |
| LedgerUtils.FragmentIdOfText | crates/midnight-did-api/src/resolution.rs:265-280 | how references and names are read |
| LedgerUtils.FragmentIdOfDid | crates/midnight-did-api/src/resolution.rs:265-280 | a DID without a fragment is read with its last piece as the fragment |
| LedgerUtils.AbsoluteReferenceIs | crates/midnight-did-api/src/resolution.rs:284-291 | DID URLs are absolute, any other id is put behind the DID |
| LedgerUtils.FragmentIdIdempotent | crates/midnight-did-api/src/resolution.rs:265-280 | reading an id twice is reading it once |
| LedgerUtils.LedgerIdReads | crates/midnight-did-api/src/resolution.rs:265-291 | a stored id is read unchanged and made absolute by the DID in front |
| LedgerUtils.AbsoluteThenBound | crates/midnight-did-api/src/resolution.rs:284-291 | normalising the absolute form of a stored id against its DID gives the id back exactly when it is not the bare hash |
| LedgerUtils.ServiceTypeAccepts | crates/midnight-did-domain/src/ledger_utils.rs:226-256 | which service types are stored |
| LedgerUtils.ServiceTypeStoredAs | crates/midnight-did-domain/src/ledger_utils.rs:226-256 | the text that a service type is stored as, or why it is refused |
| LedgerUtils.TypeReadTrimmed | crates/midnight-did-api/src/resolution.rs:306-331 | whitespace around a stored service type does not matter, and there is no empty one |
| LedgerUtils.DistinctCountMeaning | crates/midnight-did-domain/src/ledger_utils.rs:244-249 | comparing lengths after sorting and dropping repeats tells whether entries are distinct |
| LedgerUtils.ServiceTypeRoundTrip | crates/midnight-did-api/src/resolution.rs:306-331 | a stored service type is read back in normal form exactly when it is not a single type that starts with a bracket |
| Mappers.SubjectIsDid | crates/midnight-did-api/src/subject.rs:32-34 | the subject of a contract is a DID that parses to its network and its address |
| Mappers.MappedMethod | crates/midnight-did-api/src/ledger_mappers.rs:185-205 | a valid method with a Midnight profile owned by the DID is mapped exactly when its id is bound to the DID, and the contract supports what is mapped |
| Mappers.MappedFields | crates/midnight-did-api/src/ledger_mappers.rs:185-205 | what is stored of a method: the normalised id, and key type, curve and both coordinates of the given key |
| Mappers.MappedPoint | crates/midnight-did-api/src/ledger_mappers.rs:209-219 | a Schnorr-Jubjub method is stored under its normalised id with the given point |
| Mappers.MappedService | crates/midnight-did-api/src/ledger_mappers.rs:222-231 | a service is stored under its normalised id, with its type as text and its normalised endpoint as JSON |
| Mappers.RefusedMethods | crates/midnight-did-api/src/ledger_mappers.rs:185-205 | which methods are refused with which error |
| Mappers.MidnightProfiles | crates/midnight-did-api/src/ledger_mappers.rs:143-177 | the key profiles that the API layer stores, one by one |
| Mappers.MappedJwk | crates/midnight-did-api/src/ledger_mappers.rs:95-134 | a mapped key is complete: coordinates of its profile, a second one exactly for EC keys |
| Mappers.ValidJwkMaps | crates/midnight-did-api/src/ledger_mappers.rs:95-177 | the checks of the domain imply the checks of the mapper |
| Mappers.MappedKeyId | crates/midnight-did-api/src/ledger_mappers.rs:185-205 | the stored id of a valid method is a hash and a key fragment |
| Reachable.ReachableResolves | crates/midnight-did-api/src/resolution.rs:78-191 | from the constructor through any API-built requests the ledger resolves exactly when its Schnorr ids are key ids and its service types read back, and the document then validates exactly when the entries of each endpoint are distinct |
| ResolvedContents.ResolveReachable | crates/midnight-did-api/src/resolution.rs:78-191 | resolving a ledger that API calls have reached: exactly when it succeeds, and that the document has the DID as id and only controller, lists exactly the aliases, one method for each stored key and point and no other, exactly the members of each relation and exactly the stored services |
| ResolvedContents.ResolvedMirrors | crates/midnight-did-api/src/resolution.rs:78-191 | the same for every stored ledger that resolves |
| ResolvedContents.ListedMethodsStored | crates/midnight-did-api/src/resolution.rs:88-119 | every method of the document is that of a stored key or point, with its coordinates |
| ResolvedContents.StoredServiceIs | crates/midnight-did-api/src/resolution.rs:295-358 | what a stored service that reads back is read as: id behind the DID, its type, its endpoint in normal form |
| Reachable.ReachableMetadata | crates/midnight-did-api/src/resolution.rs:194-210 | the metadata of a reachable ledger: deactivated exactly when a deactivate request was accepted, the number of accepted requests as version, the constructor time as created, the time of the last accepted request as updated |
| Reachable.RunStores | crates/midnight-did-api/src/ledger_mappers.rs:185-231 | runs of API-built requests keep what resolution needs of stored values |
| Reachable.ReadyResolves | crates/midnight-did-api/src/resolution.rs:78-191 | which stored ledgers resolve |
| Reachable.ResolvedIsConsistent | crates/midnight-did-domain/src/did_document.rs:1000-1107 | method ids and relations of a resolved document never fail validation |
| Reachable.JwkRoundTrip | crates/midnight-did-api/src/resolution.rs:219-232 | storing a key and reading it back loses extension members and nothing else |
| Reachable.PointRoundTrip | crates/midnight-did-api/src/resolution.rs:235-261 | a point read back from hex is the same point and a valid Jubjub key |
| Reachable.EndpointRoundTrip | crates/midnight-did-api/src/resolution.rs:333-358 | a stored endpoint is read back as its normalised form |
| Reachable.ServiceRoundTrip | crates/midnight-did-api/src/resolution.rs:295-304 | a stored service comes back with its type in normal form exactly when the type does not look like a list |
| Reachable.ReadableRunResolves | crates/midnight-did-api/src/resolution.rs:78-191 | if every call of a run names Schnorr keys by key ids and services by types that do not look like lists, the ledger at the end resolves |
| Reachable.SchnorrCallDecides | crates/midnight-did-api/src/ledger_mappers.rs:209-219 | right after an accepted call that sets a Schnorr key on a readable ledger, the ledger resolves exactly when the id is a key id |
| Reachable.ServiceCallDecides | crates/midnight-did-api/src/ledger_mappers.rs:222-231 | right after an accepted call that sets a service on a readable ledger, it resolves with the service as meant exactly when the type does not look like a list |
| Reachable.SchnorrRunDoesNotResolve | crates/midnight-did-api/src/ledger_mappers.rs:209-219 | one accepted API call on a fresh contract after which no view of the ledger resolves: a Schnorr key under an id with a space |
| Reachable.ServiceRunDoesNotResolve | crates/midnight-did-domain/src/ledger_utils.rs:226-256 | the same for a service whose single type is one bracket |
| Reachable.UncheckedSchnorrId | crates/midnight-did-api/src/ledger_mappers.rs:209-219 | the API stores a Schnorr id that is no key id |
| Reachable.UncheckedServiceType | crates/midnight-did-domain/src/ledger_utils.rs:226-256 | the single type that is one bracket is stored and does not read back |
| Resolution.LedgerStateToDidDocument | crates/midnight-did-api/src/resolution.rs:78-191 | exactly the resolvable views resolve, to the document that the view stands for; the others fail with the first failure in the order of the assembly; what the document says about the ledger is stated by ResolvedContents |
| Resolution.ResolveJwkMethods | crates/midnight-did-api/src/resolution.rs:88-103 | the loop over JWK methods: valid keys and ids, no repeated fragment id; otherwise the first entry that fails, with its fault |
| Resolution.ResolveSchnorrMethods | crates/midnight-did-api/src/resolution.rs:104-119 | the loop over Schnorr-Jubjub methods, against the ids already seen; otherwise the first entry that fails, with its fault |
| Resolution.AssertTargets | crates/midnight-did-api/src/resolution.rs:122-138 | every member names a seen method, or the first that does not |
| Resolution.MapRelation | crates/midnight-did-api/src/resolution.rs:140-155 | every member is a key id, or the first that is not; an empty relation is left out |
| Resolution.ResolveServices | crates/midnight-did-api/src/resolution.rs:157-166 | every service reads back, in order, or the first that does not, with its fault |
| Resolution.LedgerJwkToDomain | crates/midnight-did-api/src/resolution.rs:219-232 | an empty second coordinate is none, OKP keys must have none, and the key is valid; otherwise which of these fails, with all issues |
| Resolution.SchnorrToJwk | crates/midnight-did-api/src/resolution.rs:235-261 | decoded and padded coordinates always make a valid key; otherwise the first coordinate that does not decode |
| Resolution.LedgerStateToMetadata | crates/midnight-did-api/src/resolution.rs:194-210 | times in ISO form, missing exactly for zero and from year 10000 on; the deactivated flag; the version in decimal |
| Resolution.EndpointRead | crates/midnight-did-api/src/resolution.rs:333-358 | how a stored endpoint text is read, by the JSON value that it is or is not |
| Resolution.EntriesRead | crates/midnight-did-api/src/resolution.rs:340-352 | a JSON list is a list of entries exactly when it holds only strings and objects, one entry each |
| Resolution.CoordinateIs | crates/midnight-did-api/src/resolution.rs:247-261 | a coordinate is the bytes of its hex text with zero bytes behind them, or the fault |
| Resolution.DecimalReads | crates/midnight-did-api/src/resolution.rs:203 | a version id is the version in decimal: its digits stand for the number, without a leading zero |
| Resolution.DecimalTells | crates/midnight-did-api/src/resolution.rs:203 | different versions have different version ids |
| DidDocument.Validate | crates/midnight-did-domain/src/did_document.rs:1000-1107 | the reported issues are exactly those that hold, in document order, each once; none exactly when method ids and service ids are distinct, relations are duplicate-free lists of known methods and endpoint entries are distinct |
| DocumentNames.ReportsByName | crates/midnight-did-domain/src/did_document.rs:1000-1107 | the validator reports exactly what the names behind the ids and the entries of endpoints deserve: methods and relation entries that repeat a name, entries that name no method, services that repeat an id, endpoint entries that repeat one in normal form |
| DocumentNames.SpellingsReportAlike | crates/midnight-did-domain/src/did_document.rs:1007-1016 | documents that spell the same names get the same report: bare, behind a hash, or behind the DID |
| DocumentNames.SameNameSameKey | crates/midnight-did-domain/src/did_document.rs:1007-1016 | two ids compare equal exactly when they spell the same name |
| DocumentNames.SomeName | crates/midnight-did-domain/src/did_document.rs:1007-1016 | every id spells some name |
| DocumentNames.EndpointRepeats | crates/midnight-did-domain/src/did_document.rs:1077-1099 | an endpoint entry is a repetition exactly when it equals an earlier one in normal form |
| DocumentNames.ReportOrder | crates/midnight-did-domain/src/did_document.rs:1000-1107 | the order of a report, section by section |
| DidDocument.InOrderIsUnique | crates/midnight-did-domain/src/did_document.rs:1000-1107 | document order and the members determine the issue list |
| DidDocument.NoClaimIffConsistent | crates/midnight-did-domain/src/did_document.rs:1000-1107 | no issue holds exactly of consistent documents |
| DidDocument.CheckRelation | crates/midnight-did-domain/src/did_document.rs:1029-1062 | exactly the repeated and the dangling entries of one relation, in order, each once |
| DidDocument.CheckMethods | crates/midnight-did-domain/src/did_document.rs:1008-1027 | exactly the repeated canonical method ids, in order, each once |
| DidDocument.CheckServices | crates/midnight-did-domain/src/did_document.rs:1064-1099 | exactly the repeated service ids and endpoint entries, in order, each once |
| DidDocument.CollectIssues | crates/midnight-did-domain/src/did_document.rs:575-624 | exactly the issues that hold of the key, in the order of the checks, each once; none exactly for valid keys |
| DidDocument.ProfileTable | crates/midnight-did-domain/src/did_document.rs:402-421 | the coordinate lengths of the checked profiles, one by one |
| DidDocument.CoordinateDecodes | crates/midnight-did-domain/src/did_document.rs:402-421 | a coordinate decodes exactly when it is the canonical text of that many bytes |
| DidDocument.NewVerificationMethod | crates/midnight-did-domain/src/did_document.rs:695-748 | accepts exactly valid key ids, controllers and keys; otherwise the first of the three that is not valid, with all issues of the key |
| DidDocument.DidUrlMeaning | crates/midnight-did-domain/src/did_document.rs:181-183 | a DID URL is the scheme did, a colon, and one more colon after it |
| DidDocument.RelativeReferenceMeaning | crates/midnight-did-domain/src/did_document.rs:140-157 | a relative reference is trimmed text without a scheme and no network path, which url joins |
| DidDocument.ServiceAccepts | crates/midnight-did-domain/src/did_document.rs:827-880 | which services are accepted, and that only the endpoint changes, to its normal form |
| DidDocument.AbsoluteKeyId | crates/midnight-did-domain/src/did_document.rs:159-201 | a DID followed by a hash and text is a key id exactly when the text is a key fragment |
| DidDocument.FragmentReference | crates/midnight-did-domain/src/did_document.rs:140-201 | a hash and a key fragment is a key id |
| DidDocumentBuilder.Build | crates/midnight-did-domain/src/did_document.rs:1549-1644 | succeeds exactly for a DID subject, relations that name methods verbatim and a consistent document; which error otherwise, with exactly the issues of the pre-screen or of the validator |
| DidDocumentBuilder.BuiltHasDraftFields | crates/midnight-did-domain/src/did_document.rs:1598-1644 | what is built has the fields of the draft, empty lists left out and endpoints in normal form |
| DidDocumentBuilder.Screen | crates/midnight-did-domain/src/did_document.rs:1552-1595 | exactly the repeated ids and unknown references, in order, each once |
| DidDocumentBuilder.ScreenLeavesNoDanglingEntry | crates/midnight-did-domain/src/did_document.rs:1549-1644 | after the pre-screen the validator finds no dangling entry and no repeated service id |
| DidDocumentBuilder.BuilderRejectsAValidDocument | crates/midnight-did-domain/src/did_document.rs:1549-1644 | the pre-screen is stricter than the validator |
| Calendar.FormatIso8601 | crates/midnight-did-api/src/resolution.rs:374-426 | none exactly from year 10000 on, else the one valid date and time that lies at that second |
| Calendar.PrintedReads | crates/midnight-did-api/src/resolution.rs:374-426 | what is printed, read back: the digits at their places name the one date and time at that second |
| Calendar.RenderReads | crates/midnight-did-api/src/resolution.rs:415-426 | the layout of the text: which digits stand for which field, and the separators |
| Calendar.MonthLengths | crates/midnight-did-api/src/resolution.rs:396-413 | the length of each month in common and in leap years |
| Calendar.KnownSeconds | crates/midnight-did-api/src/resolution.rs:374-426 | the dates of some seconds |
| Calendar.LaterPrintsLarger | crates/midnight-did-api/src/resolution.rs:374-426 | of two dates and times the later one prints lexicographically larger |
| Calendar.LaterInputPrintsLarger | crates/midnight-did-api/src/resolution.rs:374-426 | of two formatter inputs that print, the larger one prints lexicographically larger, and different inputs print different texts |
| Calendar.DaysClosedForm | crates/midnight-did-api/src/resolution.rs:374-430 | counting days year by year is the leap-year formula |
| Calendar.TimestampToIso | crates/midnight-did-api/src/resolution.rs:362-369 | none exactly for zero and from year 10000 on, else the date and time of the whole seconds |
| Rotation.RunsAreSafe | crates/midnight-did-api/src/controller_operations.rs:46-130 | over any number of rotations, recoveries and pending recoveries, with failures and stops at every wait and cut-off submissions that settle late, the controller secret is in the Active or Pending slot |
| Rotation.StepKeeps | crates/midnight-did-api/src/controller_operations.rs:46-130 | where the secret is at each wait, step by step |
| Rotation.OperationIsSafe | crates/midnight-did-api/src/controller_operations.rs:46-130 | however one operation ends, the secret is safe if it was kept at the start |
| Rotation.RecoveryRun | crates/midnight-did-api/src/controller_operations.rs:98-130 | recovery from any state of the store: if the chain has the new key or may still take it, its secret is in a slot; until acceptance is reported the Active slot is as before |
| Rotation.SavingPendingIsSafeIff | crates/midnight-did-api/src/controller_operations.rs:60 | saving the new secret is safe exactly when Active holds the controller secret or the new secret is it |
| Rotation.AcceptanceIsSafeIff | crates/midnight-did-api/src/controller_operations.rs:62-69 | acceptance is safe exactly when the submitted key belongs to the new or the old secret |
| Rotation.ClearingIsSafeIff | crates/midnight-did-api/src/controller_operations.rs:64-68 | clearing after an error is safe exactly when Active holds the controller secret |
| Rotation.AppliedErrorLosesSecret | crates/midnight-did-api/src/controller_operations.rs:62-69 | an error report for a rotation that took effect loses the secret |
| Rotation.OverwritingInFlightIsSafeIff | crates/midnight-did-api/src/controller_operations.rs:60 | saving a new secret while a key is in flight is safe against its late acceptance exactly when Active holds its secret or the new secret is it |
| Rotation.LateAcceptanceLosesSecret | crates/midnight-did-api/src/controller_operations.rs:60-80 | a second rotation started while the first is in flight can lose the secret |
| Rotation.PendingRecoveryIsSafeIff | crates/midnight-did-api/src/private_state.rs:305-318 | promoting the pending secret is safe exactly when it is the controller secret |
| Rotation.RotateControllerKey | crates/midnight-did-api/src/controller_operations.rs:46-130 | which reply is given and what is left in each slot and on the chain, decided by the address of the store and the fates of the calls; with working calls and acceptance: rotated, Active the new secret, nothing pending, the new key on the chain; with a refusal: as before with nothing pending; the steps are a run of the machine |
| Rotation.Abandon | crates/midnight-did-api/src/controller_operations.rs:64-68 | the best-effort clean-up after an error report: when the process stops, and what is left |
| Rotation.Promote | crates/midnight-did-api/src/controller_operations.rs:71-80 | promotion to Active and clean-up: when it is done, when orphaned with the secret pending, when stopped, and what is left |
| Rotation.RecoverPending | crates/midnight-did-api/src/private_state.rs:305-318 | which reply is given and what is left, decided by the confirmation, the Pending slot and the fates of the calls; with working calls the pending secret becomes the Active one and nothing is pending |
| Rotation.Chain.Submit | crates/midnight-did-api/src/controller_operations.rs:62-69 | the contract call by its fate: final, a true error, or no reply with the submission final or in flight |
| Rotation.Chain.SettleLate | crates/midnight-did-api/src/controller_operations.rs:62-69 | a submission in flight becomes final or is dropped |
| PrivateState.InitPrivateState | crates/midnight-did-api/src/private_state.rs:260-275 | an existing secret is returned and never overwritten; otherwise the generated one is returned and is in the Active slot, except on an unbound store; exactly when each reply is given |
| PrivateState.RestorePrivateState | crates/midnight-did-api/src/private_state.rs:218-227 | reads the slot, with the reply of the fate of the call; an unbound store reads as empty |
| PrivateState.RequirePrivateState | crates/midnight-did-api/src/private_state.rs:231-239 | succeeds exactly on a bound store with a secret in the slot, if the call works; which error otherwise |
| PrivateState.SavePrivateState | crates/midnight-did-api/src/private_state.rs:242-251 | writes one slot exactly when the call lands on a bound store, with the reply of its fate, and leaves the other slot |
| PrivateState.ClearPending | crates/midnight-did-api/src/private_state.rs:287-292 | empties the pending slot exactly when the call lands on a bound store, with the reply of its fate, and leaves the other slot |
| PrivateState.Store.Get | crates/midnight-did-api/src/private_state.rs:189-192 | reads a slot with the reply of the fate of the call, or reports the missing address |
| PrivateState.Store.Set | crates/midnight-did-api/src/private_state.rs:194-198 | writes a slot exactly when the call lands, with the reply of its fate, or reports the missing address and changes nothing |
| PrivateState.Store.Remove | crates/midnight-did-api/src/private_state.rs:200-204 | empties a slot exactly when the call lands, with the reply of its fate, or reports the missing address and changes nothing |
| Mod1Frame.DecodeMeaning | crates/midnight-did-method/src/offchain.rs:305-347 | bytes decode to chunks exactly when the chunks fit and frame to those bytes |
| Mod1Frame.FrameHeader | crates/midnight-did-method/src/offchain.rs:305-317 | the header: MOD1 and the number of chunks, most significant byte first |
| Mod1Frame.BodyOfChunk | crates/midnight-did-method/src/offchain.rs:305-317 | a chunk: its length, most significant byte first, and its bytes |
| Mod1Frame.HeaderErrors | crates/midnight-did-method/src/offchain.rs:320-334 | why a header is refused, in the order of the checks |
| Mod1Frame.TrailingBytesRefused | crates/midnight-did-method/src/offchain.rs:342-347 | a frame with bytes behind it is refused for them |
| Mod1Frame.CountGuardIsHarmless | crates/midnight-did-method/src/offchain.rs:320-334 | the guard on the chunk count rejects nothing that the loop would accept |
| Mod1Frame.CompactValueToBytes | crates/midnight-did-method/src/offchain.rs:305-317 | the frame, or an overflow exactly when a count does not fit 32 bits |
| Mod1Frame.CompactValueFromBytes | crates/midnight-did-method/src/offchain.rs:320-347 | the decoder, with its errors, reading in bounds |
| Mod1Frame.ReadU32 | crates/midnight-did-method/src/offchain.rs:292-302 | four big-endian bytes, or a short frame |
| Base64Url.DecodeExactMeaning | crates/midnight-did-domain/src/crypto_codecs.rs:131-147 | decodes exactly the unpadded encodings of non-empty byte strings of the expected length |
| Base64Url.DecodeExactErrors | crates/midnight-did-domain/src/crypto_codecs.rs:131-147 | which error is reported; only zero trailing bits are canonical |
| Base64Url.EncodeDecode | crates/midnight-did-domain/src/crypto_codecs.rs:82-112 | which texts decode, and that re-encoding gives the text back exactly when trailing bits are zero |
| Base64Url.DecodeEncode | crates/midnight-did-domain/src/crypto_codecs.rs:82-112 | decoding an encoding gives the bytes back |
| Base64Url.EncodeShape | crates/midnight-did-domain/src/crypto_codecs.rs:82-87 | symbols only, never one over a multiple of four |
| Base64Url.SymbolTable | crates/midnight-did-domain/src/crypto_codecs.rs:71-87 | the 64 symbols in the order of their values |
| Base64Url.EncodePlaces | crates/midnight-did-domain/src/crypto_codecs.rs:82-87 | each group of four symbols is the 24-bit number of its three bytes, and a short tail is filled with zero bits |
| Base64Url.PaddingIsIgnored | crates/midnight-did-domain/src/crypto_codecs.rs:97-112 | padding added before decoding never changes the result |
| FieldElement.EncodeFieldElement | crates/midnight-did-domain/src/crypto_codecs.rs:175-185 | the loop yields the encoding of the shortest form of the number |
| FieldElement.FieldElementRoundTrip | crates/midnight-did-domain/src/crypto_codecs.rs:167-185 | decoding keeps the number and has no redundant leading zero |
| FieldElement.BigEndianPlaces | crates/midnight-did-domain/src/crypto_codecs.rs:167-185 | the number of a byte string by the places of its bytes |
| FieldElement.SameEncodingSameNumber | crates/midnight-did-domain/src/crypto_codecs.rs:175-185 | two inputs encode equally exactly when their numbers are equal |
| FieldElement.DecodeThenEncode | crates/midnight-did-domain/src/crypto_codecs.rs:167-185 | re-encoding decoded text gives the text back exactly when its bytes have no redundant leading zero |
| Hex.DecodeEncode | crates/midnight-did-method/src/hex_ext.rs:86-97 | decoding printed hex gives the bytes back |
| Hex.DigitTable | crates/midnight-did-method/src/hex_ext.rs:86-97 | the sixteen digits in the order of their values |
| Hex.EncodePlaces | crates/midnight-did-method/src/hex_ext.rs:86-97 | two digits a byte, the high half first |
| Hex.EncodeDecode | crates/midnight-did-method/src/hex_ext.rs:86-97 | which texts decode; printing gives the text in lower case |
| MidnightDid.PrintThenParse | crates/midnight-did-method/src/midnight_did.rs:208-263 | printing then parsing gives network and id back, for every network and id |
| MidnightDid.PrintedDid | crates/midnight-did-method/src/midnight_did.rs:71-81 | the printed string for each network |
| MidnightDid.ParseStringErrors | crates/midnight-did-method/src/midnight_did.rs:213-242 | which error a refused string gets |
| MidnightDid.ParseThenPrint | crates/midnight-did-method/src/midnight_did.rs:208-263 | printing the parse of an accepted four-part string lower-cases its hex and changes nothing else |
| MidnightDid.AcceptedStrings | crates/midnight-did-method/src/midnight_did.rs:213-242 | exactly the short and the long forms are accepted |
| MidnightDid.FromHexOfHex | crates/midnight-did-method/src/hex_ext.rs:86-97 | a printed 32-byte id parses to itself |
| Offchain.CreateThenParse | crates/midnight-did-method/src/offchain.rs:504-542 | a created long form parses to its payload and the hash of its frame, and the payload decodes to the state when the serializer round-trips |
| Offchain.PrintedLongForm | crates/midnight-did-method/src/offchain.rs:487-513 | the long form as text |
| Offchain.LongFormErrors | crates/midnight-did-method/src/offchain.rs:516-542 | which error a DID string that is no certifying long form gets |
| Offchain.WellShapedTable | crates/midnight-did-method/src/offchain.rs:444-476 | the limits in numbers and the admitted key profiles |
| Offchain.LongFormExtendsShortForm | crates/midnight-did-method/src/offchain.rs:493-513 | creating succeeds exactly when encoding does, and gives the short form followed by the payload |
| Offchain.ParseThenPrint | crates/midnight-did-method/src/offchain.rs:516-542 | printing hash and payload of an accepted long form gives exactly the input |
| Offchain.AcceptedLongForms | crates/midnight-did-method/src/offchain.rs:516-542 | the accepted long forms are exactly those that certify some non-empty bytes |
| Offchain.PayloadDecodes | crates/midnight-did-method/src/offchain.rs:429-442 | exactly which payloads decode: frames of chunks that fit, that the serializer reads, with a well-shaped state |
| Offchain.AcceptedWithoutFrame | crates/midnight-did-method/src/offchain.rs:516-542 | an accepted long form whose payload is no frame |
| Offchain.EncodeThenDecode | crates/midnight-did-method/src/offchain.rs:416-442 | which states encode, and that decoding gives the state back |
| Offchain.FromBase64UrlMeaning | crates/midnight-did-method/src/offchain.rs:389-405 | decodes exactly the canonical encodings of non-empty bytes |
| Offchain.ValidateStateShape | crates/midnight-did-method/src/offchain.rs:444-476 | the loops find the first fault in order |
| Offchain.CountFaults | crates/midnight-did-method/src/offchain.rs:444-459 | which fault a state gets for its numbers, in the order of the checks |
| Offchain.FromBase64UrlErrors | crates/midnight-did-method/src/offchain.rs:389-405 | which error a payload gets that is not canonical |
| Offchain.ShapeFaultMeaning | crates/midnight-did-method/src/offchain.rs:444-476 | no fault exactly for well-shaped states |

## Left out

- The stack programs of the circuits (`OpProgramVerify`, `OpProgramGather`), their index paths and costs: each is the read or write of one cell, set or map, and whether a call fits its gas is one input of the request.
- u64 wrap-around of `version` and `operation_count`: what the runtime does on overflow is not part of this repository, so both are unbounded.
- `Aligned`, `FieldRepr`, `BinaryHashRepr` and `Value` conversions: a hashed value is the sequence of its typed leaves.
- Schnorr verification, Jubjub arithmetic, Blake2s and the transient hash: uninterpreted.
- Resolution.LedgerStateToDidDocument: errors are told apart by what fails and where, not by their message text; the `@context` and `extra` members, which are constants, are not modelled.
- Resolution.ResolveServices: the different reasons for which a stored type or endpoint does not parse are one fault each.
- DidDocument.Validate: issues are told apart by what they say and about which entry, not by their message text; the context and unknown members of a document are left out.
- Snapshot.Read: the order of a `BTreeMap` is not modelled, every result holds for any order; `id_hex`, `controller_public_key_hex` and `contract_version` are left out because no modelled operation reads them.
- ApiOperations.Backend.SubmitTx: the wire envelope and the finalized transaction data are left out.
- Rotation.Chain.Submit: whether the contract accepts the new key, and whether a submission in flight becomes final, are arbitrary outcomes; which keys and versions it accepts is stated in `Contract`.
- PrivateState.Store.Set: the mutex and concurrent callers are left out.
- Offchain.CreateThenParse: the chunk serializer is a parameter, as in the source, where it is a trait without an implementation.
- Text.TrimIsTrimmed: strings are sequences of characters, so byte lengths of non-ASCII text are not modelled.
- Values that skip the validating constructors through serde are not modelled: in `Reachable` a domain value is one that its constructor accepts.
- Network mapping, relationship masks, key-kind tags and the ledger enum conversions: finite tables without anything hard to prove.
- Adding and updating methods, services and aliases through the API: one mapping and one contract call each; `AddIsAccepted` and `ReachableResolves` cover what the mappings promise.
- `LiveBackend` (unimplemented in the source), `RecordingBackend`, the UniFFI bindings and the command line.
- The DID document of an off-chain state and its metadata: a field-by-field projection.
