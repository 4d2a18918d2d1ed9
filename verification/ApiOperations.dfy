/** The API operations on verification methods and relations, run against the contract. */
module ApiOperations {
  import opened Prelude
  import opened DidTypes
  import opened Contract
  import opened ContractSafety
  import opened LedgerUtils
  import opened Mappers
  import opened Snapshot
  import opened Text
  import Circuits
  import DidDocument
  import Foreign
  import MidnightDid

  /** When each version of the ledger is made; nothing is known about these times. */
  type Clock = nat -> nat

  // ---------------------------------------------------------------------------
  // What a sequence of contract calls does
  // ---------------------------------------------------------------------------

  /** One call with an accepted signature at the current version. */
  ghost function Exec(clock: Clock, l: Ledger, call: Call): Option<Ledger> {
    if l.active && Permits(l, call) then Some(Recorded(Effect(l, call), clock(l.version))) else None
  }

  /** Calls in order up to the first that fails. */
  ghost function ExecAll(clock: Clock, l: Ledger, calls: seq<Call>): (Ledger, bool)
    decreases |calls|
  {
    if calls == [] then (l, true)
    else match Exec(clock, l, calls[0])
      case None => (l, false)
      case Some(n) => ExecAll(clock, n, calls[1..])
  }

  lemma {:induction false} ExecAllConcat(clock: Clock, l: Ledger, a: seq<Call>, b: seq<Call>)
    ensures var (n, ok) := ExecAll(clock, l, a);
            ExecAll(clock, l, a + b) == if ok then ExecAll(clock, n, b) else (n, false)
    decreases |a|
  {
    if a == [] {
      assert a + b == b;
    } else {
      assert (a + b)[0] == a[0] && (a + b)[1..] == a[1..] + b;
      match Exec(clock, l, a[0])
      case None =>
      case Some(n) => ExecAllConcat(clock, n, a[1..], b);
    }
  }

  lemma ExecKeeps(clock: Clock, l: Ledger, call: Call)
    requires Inv(l) && Exec(clock, l, call).Some?
    ensures Inv(Exec(clock, l, call).value)
  {
    var accepting := Crypto(_ => 0, (_, _, _) => true);
    AcceptedKeeps(accepting, l, Request(call, [], l.version, clock(l.version), true));
  }

  // ---------------------------------------------------------------------------
  // Purging a method from its relations
  // ---------------------------------------------------------------------------

  /** The removal calls for the relations that list the id, in order. */
  function PurgeCalls(l: Ledger, id: string, relations: seq<Relation>): seq<Call> {
    if relations == [] then []
    else
      (if id in Members(l, relations[0]) then [SetRelation(relations[0], id, RemoveMember)] else [])
        + PurgeCalls(l, id, relations[1..])
  }

  function ClearedFrom(l: Ledger, id: string, relations: seq<Relation>): Ledger
    decreases |relations|
  {
    if relations == [] then l
    else ClearedFrom(WithMembers(l, relations[0], Members(l, relations[0]) - {id}), id, relations[1..])
  }

  /** The ledger without the id in any relation. */
  function Cleared(l: Ledger, id: string): Ledger {
    l.(authentication := l.authentication - {id},
       assertionMethod := l.assertionMethod - {id},
       keyAgreement := l.keyAgreement - {id},
       capabilityInvocation := l.capabilityInvocation - {id},
       capabilityDelegation := l.capabilityDelegation - {id})
  }

  /** The bookkeeping of `k` accepted calls. */
  function Bumped(clock: Clock, l: Ledger, k: nat): Ledger {
    if k == 0 then l
    else l.(version := l.version + k, operationCount := l.operationCount + k, updated := clock(l.version + k - 1))
  }

  /** The number of relations that list the id. */
  function MembershipCount(l: Ledger, id: string): nat { |PurgeCalls(l, id, RELATIONS)| }

  lemma {:induction false} PurgeCallsFrame(l: Ledger, n: Ledger, id: string, relations: seq<Relation>)
    requires forall r :: r in relations ==> Members(l, r) == Members(n, r)
    ensures PurgeCalls(l, id, relations) == PurgeCalls(n, id, relations)
  {
    if relations != [] {
      assert relations[0] in relations;
      assert forall r :: r in relations[1..] ==> r in relations;
      PurgeCallsFrame(l, n, id, relations[1..]);
    }
  }

  lemma RecordedCommutes(l: Ledger, relation: Relation, ids: set<string>, timestamp: nat)
    ensures WithMembers(Recorded(l, timestamp), relation, ids) == Recorded(WithMembers(l, relation, ids), timestamp)
    ensures Members(Recorded(l, timestamp), relation) == Members(l, relation)
  {
  }

  lemma {:induction false} ClearedVersion(l: Ledger, id: string, relations: seq<Relation>)
    ensures ClearedFrom(l, id, relations).version == l.version
    decreases |relations|
  {
    if relations != [] {
      var cut := WithMembers(l, relations[0], Members(l, relations[0]) - {id});
      assert cut.version == l.version;
      ClearedVersion(cut, id, relations[1..]);
    }
  }

  lemma {:induction false} ClearedRecorded(l: Ledger, id: string, relations: seq<Relation>, timestamp: nat)
    ensures ClearedFrom(Recorded(l, timestamp), id, relations) == Recorded(ClearedFrom(l, id, relations), timestamp)
    decreases |relations|
  {
    if relations != [] {
      var r := relations[0];
      var cut := WithMembers(l, r, Members(l, r) - {id});
      RecordedCommutes(l, r, Members(l, r) - {id}, timestamp);
      ClearedStep(l, id, relations);
      ClearedStep(Recorded(l, timestamp), id, relations);
      ClearedRecorded(cut, id, relations[1..], timestamp);
    }
  }

  lemma ClearedStep(l: Ledger, id: string, relations: seq<Relation>)
    requires relations != []
    ensures ClearedFrom(l, id, relations)
         == ClearedFrom(WithMembers(l, relations[0], Members(l, relations[0]) - {id}), id, relations[1..])
  {
  }

  lemma BumpedRecorded(clock: Clock, l: Ledger, k: nat)
    ensures Bumped(clock, Recorded(l, clock(l.version)), k) == Bumped(clock, l, k + 1)
  {
  }

  /** On an active ledger inside the invariant every removal call is accepted in turn. */
  lemma {:induction false} PurgeRuns(clock: Clock, l: Ledger, id: string, relations: seq<Relation>)
    requires Inv(l) && l.active && Distinct(relations) && UndefinedRelation !in relations
    ensures ExecAll(clock, l, PurgeCalls(l, id, relations))
         == (Bumped(clock, ClearedFrom(l, id, relations), |PurgeCalls(l, id, relations)|), true)
    decreases |relations|
  {
    if relations != [] {
      var r, rest := relations[0], relations[1..];
      var cut := WithMembers(l, r, Members(l, r) - {id});
      assert r in relations && r !in rest;
      assert forall s :: s in rest ==> s in relations;
      if id in Members(l, r) {
        var call := SetRelation(r, id, RemoveMember);
        RemovalAccepted(clock, l, r, id);
        var n := Exec(clock, l, call).value;
        ExecKeeps(clock, l, call);
        OthersStay(l, n, r, id, rest);
        PurgeCallsFrame(l, n, id, rest);
        PurgeRuns(clock, n, id, rest);
        ClearedRecorded(cut, id, rest, clock(l.version));
        ClearedVersion(cut, id, rest);
        BumpedRecorded(clock, ClearedFrom(cut, id, rest), |PurgeCalls(n, id, rest)|);
        assert PurgeCalls(l, id, relations)[0] == call;
        assert PurgeCalls(l, id, relations)[1..] == PurgeCalls(n, id, rest);
      } else {
        assert Members(l, r) - {id} == Members(l, r);
        assert cut == l;
        PurgeRuns(clock, l, id, rest);
        assert PurgeCalls(l, id, relations) == PurgeCalls(l, id, rest);
      }
    }
  }

  lemma RemovalAccepted(clock: Clock, l: Ledger, relation: Relation, id: string)
    requires Inv(l) && l.active && id in Members(l, relation)
    ensures Exec(clock, l, SetRelation(relation, id, RemoveMember))
         == Some(Recorded(WithMembers(l, relation, Members(l, relation) - {id}), clock(l.version)))
    ensures WithMembers(l, relation, Members(l, relation) - {id}).version == l.version
    ensures Exec(clock, l, SetRelation(relation, id, RemoveMember)).value.active
  {
    assert EntryKept(l, relation, id);
  }

  lemma OthersStay(l: Ledger, n: Ledger, relation: Relation, id: string, rest: seq<Relation>)
    requires relation !in rest
    requires exists t :: n == Recorded(WithMembers(l, relation, Members(l, relation) - {id}), t)
    ensures forall s :: s in rest ==> Members(l, s) == Members(n, s)
  {
    forall s | s in rest ensures Members(l, s) == Members(n, s) {
      MembersOfWith(l, relation, Members(l, relation) - {id}, s);
    }
  }

  lemma ClearedIs(l: Ledger, id: string)
    ensures ClearedFrom(l, id, RELATIONS) == Cleared(l, id)
    ensures Distinct(RELATIONS) && UndefinedRelation !in RELATIONS
  {
    var rs := RELATIONS;
    assert rs[1..] == [AssertionMethod, KeyAgreement, CapabilityInvocation, CapabilityDelegation];
    assert rs[2..] == [KeyAgreement, CapabilityInvocation, CapabilityDelegation];
    assert rs[3..] == [CapabilityInvocation, CapabilityDelegation];
    assert rs[4..] == [CapabilityDelegation];
    var a := l.(authentication := l.authentication - {id});
    var b := a.(assertionMethod := a.assertionMethod - {id});
    var c := b.(keyAgreement := b.keyAgreement - {id});
    var d := c.(capabilityInvocation := c.capabilityInvocation - {id});
    assert ClearedFrom(l, id, rs) == ClearedFrom(a, id, rs[1..]);
    assert ClearedFrom(a, id, rs[1..]) == ClearedFrom(b, id, rs[2..]) by { assert rs[1..][1..] == rs[2..]; }
    assert ClearedFrom(b, id, rs[2..]) == ClearedFrom(c, id, rs[3..]) by { assert rs[2..][1..] == rs[3..]; }
    assert ClearedFrom(c, id, rs[3..]) == ClearedFrom(d, id, rs[4..]) by { assert rs[3..][1..] == rs[4..]; }
    assert ClearedFrom(d, id, rs[4..]) == Cleared(l, id);
  }

  lemma PurgeIsTotal(clock: Clock, l: Ledger, id: string)
    requires Inv(l) && l.active
    ensures ExecAll(clock, l, PurgeCalls(l, id, RELATIONS))
         == (Bumped(clock, Cleared(l, id), MembershipCount(l, id)), true)
  {
    ClearedIs(l, id);
    PurgeRuns(clock, l, id, RELATIONS);
  }

  /** The relations among these that list the id. */
  function Listing(l: Ledger, id: string, relations: seq<Relation>): set<Relation> {
    set r | r in relations && id in Members(l, r)
  }

  lemma ListingStep(l: Ledger, id: string, relations: seq<Relation>)
    requires relations != [] && relations[0] !in relations[1..]
    ensures var r, tail := relations[0], Listing(l, id, relations[1..]);
            r !in tail && Listing(l, id, relations) == if id in Members(l, r) then {r} + tail else tail
  {
    assert relations == [relations[0]] + relations[1..];
  }

  lemma {:induction false} PurgeCallCount(l: Ledger, id: string, relations: seq<Relation>)
    requires Distinct(relations)
    ensures |PurgeCalls(l, id, relations)| == |Listing(l, id, relations)|
    decreases |relations|
  {
    if relations == [] {
      assert Listing(l, id, relations) == {};
    } else {
      PurgeCallCount(l, id, relations[1..]);
      ListingStep(l, id, relations);
    }
  }

  /** One call for each relation that lists the id, so none exactly when it is not referenced. */
  lemma MembershipCountIs(l: Ledger, id: string)
    ensures MembershipCount(l, id) == |Listing(l, id, RELATIONS)|
    ensures MembershipCount(l, id) == 0 <==> !Referenced(l, id)
    ensures Cleared(l, id) == l <==> !Referenced(l, id)
  {
    ClearedIs(l, id);
    PurgeCallCount(l, id, RELATIONS);
    var listing := Listing(l, id, RELATIONS);
    if Referenced(l, id) {
      var r :| id in Members(l, r);
      RelationsAreAll(r);
      assert r in listing;
      assert id !in Members(Cleared(l, id), r);
    } else {
      assert listing == {};
      NotReferencedMembers(l, id);
    }
  }

  lemma NotReferencedMembers(l: Ledger, id: string)
    requires !Referenced(l, id)
    ensures Cleared(l, id) == l
  {
    forall r ensures id !in Members(l, r) {
    }
    assert id !in Members(l, Authentication) && id !in Members(l, AssertionMethod) && id !in Members(l, KeyAgreement)
        && id !in Members(l, CapabilityInvocation) && id !in Members(l, CapabilityDelegation);
    assert l.authentication - {id} == l.authentication && l.assertionMethod - {id} == l.assertionMethod
        && l.keyAgreement - {id} == l.keyAgreement && l.capabilityInvocation - {id} == l.capabilityInvocation
        && l.capabilityDelegation - {id} == l.capabilityDelegation;
  }

  // ---------------------------------------------------------------------------
  // Removing a method
  // ---------------------------------------------------------------------------

  function RemoveCall(id: string, schnorr: bool): Call {
    if schnorr then RemoveSchnorrMethod(id) else RemoveVerificationMethod(id)
  }

  /** The calls that the removal of a method of either kind submits. */
  function RemovalCalls(l: Ledger, id: string, schnorr: bool): seq<Call> {
    PurgeCalls(l, id, RELATIONS) + [RemoveCall(id, schnorr)]
  }

  predicate HasMethod(l: Ledger, id: string, schnorr: bool) {
    if schnorr then id in l.schnorrMethods else id in l.methods
  }

  function WithoutMethod(l: Ledger, id: string, schnorr: bool): Ledger {
    if schnorr then l.(schnorrMethods := l.schnorrMethods - {id}) else l.(methods := l.methods - {id})
  }

  /** Purge-then-remove on an active ledger. It succeeds exactly when the method is of the kind that
      is removed, and then the ledger has lost that method and its id in all five relations and
      nothing else, in one version per membership and one more. Otherwise it fails at the last
      call with the memberships already gone: a method of the other kind stays, but loses them. */
  lemma RemovalIsExact(clock: Clock, l: Ledger, id: string, schnorr: bool)
    requires Inv(l) && l.active
    ensures var (n, ok) := ExecAll(clock, l, RemovalCalls(l, id, schnorr));
            && (ok <==> HasMethod(l, id, schnorr))
            && n == (if ok then Bumped(clock, WithoutMethod(Cleared(l, id), id, schnorr), MembershipCount(l, id) + 1)
                     else Bumped(clock, Cleared(l, id), MembershipCount(l, id)))
            && (!ok ==> (n == l <==> !Referenced(l, id)))
  {
    var k := MembershipCount(l, id);
    var purged := Bumped(clock, Cleared(l, id), k);
    PurgeIsTotal(clock, l, id);
    ExecAllConcat(clock, l, PurgeCalls(l, id, RELATIONS), [RemoveCall(id, schnorr)]);
    PurgedIsUnreferenced(clock, l, id);
    LastRemoval(clock, purged, id, schnorr);
    BumpedRemoval(clock, Cleared(l, id), k, id, schnorr);
    MembershipCountIs(l, id);
    assert k > 0 ==> purged.version != l.version;
  }

  lemma LastRemoval(clock: Clock, p: Ledger, id: string, schnorr: bool)
    requires p.active && !Referenced(p, id)
    ensures ExecAll(clock, p, [RemoveCall(id, schnorr)])
         == if HasMethod(p, id, schnorr) then (Recorded(WithoutMethod(p, id, schnorr), clock(p.version)), true)
            else (p, false)
  {
    assert [RemoveCall(id, schnorr)][1..] == [];
  }

  lemma BumpedRemoval(clock: Clock, l: Ledger, k: nat, id: string, schnorr: bool)
    ensures var p := Bumped(clock, l, k);
            Recorded(WithoutMethod(p, id, schnorr), clock(p.version))
            == Bumped(clock, WithoutMethod(l, id, schnorr), k + 1)
  {
    BumpedCommutes(clock, l, k, id, schnorr);
    BumpedOneMore(clock, WithoutMethod(l, id, schnorr), k);
  }

  lemma BumpedCommutes(clock: Clock, l: Ledger, k: nat, id: string, schnorr: bool)
    ensures WithoutMethod(Bumped(clock, l, k), id, schnorr) == Bumped(clock, WithoutMethod(l, id, schnorr), k)
    ensures Bumped(clock, l, k).version == l.version + k
    ensures WithoutMethod(l, id, schnorr).version == l.version
  {
  }

  lemma BumpedOneMore(clock: Clock, l: Ledger, k: nat)
    ensures Recorded(Bumped(clock, l, k), clock(l.version + k)) == Bumped(clock, l, k + 1)
  {
  }

  lemma PurgedIsUnreferenced(clock: Clock, l: Ledger, id: string)
    ensures !Referenced(Bumped(clock, Cleared(l, id), MembershipCount(l, id)), id)
  {
    var n := Bumped(clock, Cleared(l, id), MembershipCount(l, id));
    forall r ensures id !in Members(n, r) {
    }
  }

  /** On an inactive ledger the removal fails at its first call. */
  lemma RemovalWhenInactive(clock: Clock, l: Ledger, id: string, schnorr: bool)
    requires !l.active
    ensures ExecAll(clock, l, RemovalCalls(l, id, schnorr)) == (l, false)
  {
    assert RemovalCalls(l, id, schnorr) != [];
  }

  /** A failed removal can leave a trace: removing a Schnorr key as if it were a JWK key fails and
      takes the key out of authentication. */
  lemma FailedRemovalPurges(clock: Clock, p: Point, q: Point, self: Bytes32)
    requires p != q
    ensures var id := "#s";
            var l := Genesis(p, q, self, 0).(schnorrMethods := map[id := SchnorrMethod(id, p)], authentication := {id});
            var (n, ok) := ExecAll(clock, l, RemovalCalls(l, id, false));
            Inv(l) && !ok && n.authentication == {} && id in n.schnorrMethods
  {
    var id := "#s";
    var l := Genesis(p, q, self, 0).(schnorrMethods := map[id := SchnorrMethod(id, p)], authentication := {id});
    forall r, m | m in Members(l, r) ensures EntryKept(l, r, m) {
    }
    RemovalIsExact(clock, l, id, false);
  }

  /** Adding a relation entry and taking it out again undoes it, at the price of two versions. */
  lemma RelationAddThenRemove(clock: Clock, l: Ledger, relation: Relation, id: string)
    requires Inv(l) && Exec(clock, l, SetRelation(relation, id, InsertMember)).Some?
    ensures var n := Exec(clock, l, SetRelation(relation, id, InsertMember)).value;
            Exec(clock, n, SetRelation(relation, id, RemoveMember)) == Some(Bumped(clock, l, 2))
  {
    var add := SetRelation(relation, id, InsertMember);
    var n := Exec(clock, l, add).value;
    ExecKeeps(clock, l, add);
    var old_ := Members(l, relation);
    MembersOfWith(l, relation, old_ + {id}, relation);
    assert Members(n, relation) == old_ + {id};
    assert old_ + {id} - {id} == old_;
    RelationFrame(l, add);
    RemovalAccepted(clock, n, relation, id);
    RestoredMembers(l, relation, id, clock(l.version));
  }

  lemma RestoredMembers(l: Ledger, relation: Relation, id: string, timestamp: nat)
    ensures WithMembers(Recorded(WithMembers(l, relation, Members(l, relation) + {id}), timestamp), relation,
                        Members(l, relation))
         == Recorded(l, timestamp)
  {
  }

  /** The checks of the layers agree: a valid domain method with a Midnight profile and bound to the
      DID is added exactly when the DID is active and its id is free among both kinds of methods. */
  lemma AddIsAccepted(clock: Clock, lib: Foreign.Libraries, l: Ledger, subject: string, m: DidDocument.VerificationMethod)
    requires DidDocument.IsValidMethod(lib, m) && HasMidnightProfile(m.publicKeyJwk) && m.typ.JsonWebKey?
    requires m.controller == subject && NormalizeBoundFragmentId(m.id, subject).Ok?
    ensures VerificationMethodToLedger(subject, m).Ok?
    ensures Exec(clock, l, SetVerificationMethod(VerificationMethodToLedger(subject, m).value, InsertEntry)).Some?
        <==> l.active && !MethodExistsIn(l, NormalizeBoundFragmentId(m.id, subject).value)
  {
    MappedMethod(lib, subject, m);
  }

  // ---------------------------------------------------------------------------
  // The operations
  // ---------------------------------------------------------------------------

  /** A deployed contract seen through a backend that executes each call at the current version with
      an accepted signature. */
  class Backend {
    const hash: seq<Atom> -> Field
    const clock: Clock
    const subject: string
    var ledger: Ledger

    constructor (hash: seq<Atom> -> Field, clock: Clock, address: Bytes32, network: MidnightDid.Network, ledger: Ledger)
      ensures this.ledger == ledger && this.clock == clock && subject == DidSubject(address, network)
    {
      this.hash := hash;
      this.clock := clock;
      this.subject := DidSubject(address, network);
      this.ledger := ledger;
    }

    /** `submit_tx` for one call. */
    method SubmitTx(call: Call) returns (r: Result<(), ApiError>)
      modifies this
      ensures Exec(clock, old(ledger), call) == if r.Ok? then Some(ledger) else None
      ensures r.Err? ==> ledger == old(ledger) && r.error == ContractFailed
    {
      var accepting := Crypto(hash, (_, _, _) => true);
      var outcome := Circuits.Submit(accepting, ledger, Request(call, [], ledger.version, clock(ledger.version), true));
      if outcome.Err? {
        return Err(ContractFailed);
      }
      ledger := outcome.value;
      return Ok(());
    }

    /** `read_snapshot`. */
    method ReadSnapshot() returns (s: Snapshot)
      ensures Projects(ledger, s)
    {
      s := Read(ledger);
    }
  }

  /** `verification_method_relation_memberships`. */
  function Memberships(s: Snapshot, id: string): seq<(Relation, bool)> {
    seq(|RELATIONS|, i requires 0 <= i < |RELATIONS| => (RELATIONS[i], RelationContains(s, RELATIONS[i], id)))
  }

  /** The calls for the entries that are members. */
  function MembershipCalls(entries: seq<(Relation, bool)>, id: string): seq<Call> {
    if entries == [] then []
    else
      (if entries[0].1 then [SetRelation(entries[0].0, id, RemoveMember)] else []) + MembershipCalls(entries[1..], id)
  }

  lemma {:induction false} MembershipCallsArePurgeCalls(
    l: Ledger, s: Snapshot, id: string, entries: seq<(Relation, bool)>, relations: seq<Relation>)
    requires Projects(l, s) && |entries| == |relations|
    requires forall i :: 0 <= i < |entries| ==> entries[i] == (relations[i], RelationContains(s, relations[i], id))
    ensures MembershipCalls(entries, id) == PurgeCalls(l, id, relations)
    decreases |entries|
  {
    if entries != [] {
      ContainsIsMembership(l, s, relations[0], id);
      MembershipCallsArePurgeCalls(l, s, id, entries[1..], relations[1..]);
    }
  }

  /** `remove_present_verification_method_relations`. */
  method RemovePresentRelations(contract: Backend, entries: seq<(Relation, bool)>, id: string)
    returns (r: Result<(), ApiError>)
    modifies contract
    ensures (contract.ledger, r.Ok?) == ExecAll(contract.clock, old(contract.ledger), MembershipCalls(entries, id))
  {
    ghost var all := ExecAll(contract.clock, contract.ledger, MembershipCalls(entries, id));
    assert entries[0..] == entries;
    for i := 0 to |entries|
      invariant ExecAll(contract.clock, contract.ledger, MembershipCalls(entries[i..], id)) == all
    {
      var (relation, member) := entries[i];
      assert entries[i..][1..] == entries[i + 1..];
      if member {
        ghost var rest := MembershipCalls(entries[i + 1..], id);
        var call := SetRelation(relation, id, RemoveMember);
        assert MembershipCalls(entries[i..], id)[0] == call && MembershipCalls(entries[i..], id)[1..] == rest;
        var outcome := contract.SubmitTx(call);
        if outcome.Err? {
          return Err(outcome.error);
        }
      } else {
        assert MembershipCalls(entries[i..], id) == MembershipCalls(entries[i + 1..], id);
      }
    }
    return Ok(());
  }

  /** `purge_verification_method_from_all_relations`. */
  method PurgeFromAllRelations(contract: Backend, id: string) returns (r: Result<(), ApiError>)
    modifies contract
    ensures (contract.ledger, r.Ok?)
         == ExecAll(contract.clock, old(contract.ledger), PurgeCalls(old(contract.ledger), id, RELATIONS))
  {
    var state := contract.ReadSnapshot();
    MembershipCallsArePurgeCalls(contract.ledger, state, id, Memberships(state, id), RELATIONS);
    r := RemovePresentRelations(contract, Memberships(state, id), id);
  }

  /** What removing a method by some id yields: an error of the id, or the outcome of the calls for the
      id that it is normalised to. */
  ghost predicate RemovalOutcome(
    clock: Clock, subject: string, l: Ledger, methodId: string, schnorr: bool, n: Ledger, r: Result<(), ApiError>)
  {
    match NormalizeBoundFragmentId(methodId, subject)
    case Err(e) => r == Err(LedgerId(e)) && n == l
    case Ok(id) => (n, r.Ok?) == ExecAll(clock, l, RemovalCalls(l, id, schnorr))
  }

  /** A fragment, with a hash in front, or behind the DID and a hash, and with whitespace around it or
      not, names the same method: on an active ledger the removal succeeds exactly when the method is
      there, and takes it and its entries in all relations out. */
  lemma RemovalBySpelling(
    clock: Clock, subject: string, l: Ledger, methodId: string, fragment: string, schnorr: bool,
    n: Ledger, r: Result<(), ApiError>)
    requires Inv(l) && l.active && "did:" <= subject && '#' !in subject
    requires IsBare(fragment) && '#' !in fragment && Trimmed(fragment)
    requires Trim(methodId) in {fragment, "#" + fragment, subject + "#" + fragment}
    requires RemovalOutcome(clock, subject, l, methodId, schnorr, n, r)
    ensures var id := "#" + fragment;
            && (r.Ok? <==> id in if schnorr then l.schnorrMethods.Keys else l.methods.Keys)
            && (r.Ok? ==> id !in n.methods && id !in n.schnorrMethods && !Referenced(n, id))
            && (r.Ok? ==> n.version == l.version + |Listing(l, id, RELATIONS)| + 1)
  {
    var id := "#" + fragment;
    SpellingsOfId(methodId, subject, fragment);
    RemovalIsExact(clock, l, id, schnorr);
    MembershipCountIs(l, id);
    if r.Ok? {
      RemovedIsGone(clock, l, id, schnorr);
    }
  }

  lemma RemovedIsGone(clock: Clock, l: Ledger, id: string, schnorr: bool)
    requires Inv(l) && HasMethod(l, id, schnorr)
    ensures var n := Bumped(clock, WithoutMethod(Cleared(l, id), id, schnorr), MembershipCount(l, id) + 1);
            && id !in n.methods && id !in n.schnorrMethods && !Referenced(n, id)
            && n.version == l.version + MembershipCount(l, id) + 1
  {
    var n := Bumped(clock, WithoutMethod(Cleared(l, id), id, schnorr), MembershipCount(l, id) + 1);
    forall relation ensures id !in Members(n, relation) {
    }
  }

  /** `remove_verification_method` and `remove_schnorr_jubjub_verification_method`, which differ in
      the last call only. */
  method RemoveMethod(contract: Backend, methodId: string, schnorr: bool) returns (r: Result<(), ApiError>)
    modifies contract
    ensures RemovalOutcome(contract.clock, contract.subject, old(contract.ledger), methodId, schnorr, contract.ledger, r)
  {
    var id :- OfLedgerUtils(NormalizeBoundFragmentId(methodId, contract.subject));
    ExecAllConcat(contract.clock, contract.ledger, PurgeCalls(contract.ledger, id, RELATIONS), [RemoveCall(id, schnorr)]);
    assert [RemoveCall(id, schnorr)][1..] == [];
    var _ :- PurgeFromAllRelations(contract, id);
    r := contract.SubmitTx(RemoveCall(id, schnorr));
  }

  /** `add_verification_method_relation`: it looks before it calls, so a repeated entry never
      reaches the contract. */
  method AddRelation(contract: Backend, relation: Relation, methodId: string) returns (r: Result<(), ApiError>)
    modifies contract
    ensures var normalized := NormalizeBoundFragmentId(methodId, contract.subject);
            var l := old(contract.ledger);
            if normalized.Err? then r == Err(LedgerId(normalized.error)) && contract.ledger == l
            else if normalized.value in Members(l, relation) then
              r == Err(ApiError.RelationAlreadyContains(relation)) && contract.ledger == l
            else
              (contract.ledger, r.Ok?)
              == ExecAll(contract.clock, l, [SetRelation(relation, normalized.value, InsertMember)])
  {
    var id :- OfLedgerUtils(NormalizeBoundFragmentId(methodId, contract.subject));
    var state := contract.ReadSnapshot();
    ContainsIsMembership(contract.ledger, state, relation, id);
    if RelationContains(state, relation, id) {
      return Err(ApiError.RelationAlreadyContains(relation));
    }
    assert [SetRelation(relation, id, InsertMember)][1..] == [];
    r := contract.SubmitTx(SetRelation(relation, id, InsertMember));
  }

  /** `remove_verification_method_relation`. */
  method RemoveRelation(contract: Backend, relation: Relation, methodId: string) returns (r: Result<(), ApiError>)
    modifies contract
    ensures var normalized := NormalizeBoundFragmentId(methodId, contract.subject);
            var l := old(contract.ledger);
            if normalized.Err? then r == Err(LedgerId(normalized.error)) && contract.ledger == l
            else if normalized.value !in Members(l, relation) then
              r == Err(ApiError.RelationMissing(relation)) && contract.ledger == l
            else
              (contract.ledger, r.Ok?)
              == ExecAll(contract.clock, l, [SetRelation(relation, normalized.value, RemoveMember)])
  {
    var id :- OfLedgerUtils(NormalizeBoundFragmentId(methodId, contract.subject));
    var state := contract.ReadSnapshot();
    ContainsIsMembership(contract.ledger, state, relation, id);
    if !RelationContains(state, relation, id) {
      return Err(ApiError.RelationMissing(relation));
    }
    assert [SetRelation(relation, id, RemoveMember)][1..] == [];
    r := contract.SubmitTx(SetRelation(relation, id, RemoveMember));
  }
}
