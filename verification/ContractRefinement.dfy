/** The contract as a refinement of a small machine with one method map and one relation map. */
module ContractRefinement {
  import opened Prelude
  import opened DidTypes
  import opened Contract
  import opened ContractSafety

  // ---------------------------------------------------------------------------
  // The small machine
  // ---------------------------------------------------------------------------

  datatype Key = Jwk(jwk: LedgerMethod) | Schnorr(schnorr: SchnorrMethod)

  /** The state that commands change: one map from ids to methods of either kind, and one map from
      relations to ids. */
  datatype State = State(
    controllerKey: Point,
    recoveryKey: Point,
    aliases: set<string>,
    methods: map<string, Key>,
    links: map<Relation, set<string>>,
    services: map<string, LedgerService>,
    active: bool)

  datatype Command =
    | ChangeController(key: Point)
    | AddAlias(alias: string)
    | DropAlias(alias: string)
    | AddMethod(method_: Key)
    | ReplaceMethod(method_: Key)
    | DropMethod(id: string, schnorr: bool)
    | Link(relation: Relation, id: string)
    | Unlink(relation: Relation, id: string)
    | AddService(service: LedgerService)
    | ReplaceService(service: LedgerService)
    | DropService(id: string)
    | Shut

  function IdOf(key: Key): string { if key.Jwk? then key.jwk.id else key.schnorr.id }

  /** The one rule about relations: X25519 keys agree, every other key signs. */
  predicate Suits(key: Key, relation: Relation) {
    relation.KeyAgreement? <==> key.Jwk? && key.jwk.publicKeyJwk.crv.X25519?
  }

  predicate Linked(s: State, id: string) {
    exists relation :: relation in s.links && id in s.links[relation]
  }

  predicate Storable(key: Key) { key.Jwk? ==> Supported(key.jwk) }

  predicate Allowed(s: State, c: Command) {
    match c
    case ChangeController(key) => key != s.controllerKey && key != s.recoveryKey
    case AddAlias(alias) => alias !in s.aliases
    case DropAlias(alias) => alias in s.aliases
    case AddMethod(key) => Storable(key) && IdOf(key) !in s.methods
    case ReplaceMethod(key) =>
      && Storable(key)
      && IdOf(key) in s.methods && s.methods[IdOf(key)].Jwk? == key.Jwk?
      && forall r :: r in s.links && IdOf(key) in s.links[r] ==> Suits(key, r)
    case DropMethod(id, schnorr) => id in s.methods && s.methods[id].Schnorr? == schnorr && !Linked(s, id)
    case Link(r, id) => r in s.links && id !in s.links[r] && id in s.methods && Suits(s.methods[id], r)
    case Unlink(r, id) => r in s.links && id in s.links[r]
    case AddService(service) => service.id !in s.services
    case ReplaceService(service) => service.id in s.services
    case DropService(id) => id in s.services
    case Shut => true
  }

  function Do(s: State, c: Command): State
    requires Allowed(s, c)
  {
    match c
    case ChangeController(key) => s.(controllerKey := key)
    case AddAlias(alias) => s.(aliases := s.aliases + {alias})
    case DropAlias(alias) => s.(aliases := s.aliases - {alias})
    case AddMethod(key) => s.(methods := s.methods[IdOf(key) := key])
    case ReplaceMethod(key) => s.(methods := s.methods[IdOf(key) := key])
    case DropMethod(id, _) => s.(methods := s.methods - {id})
    case Link(r, id) => s.(links := s.links[r := s.links[r] + {id}])
    case Unlink(r, id) => s.(links := s.links[r := s.links[r] - {id}])
    case AddService(service) => s.(services := s.services[service.id := service])
    case ReplaceService(service) => s.(services := s.services[service.id := service])
    case DropService(id) => s.(services := s.services - {id})
    case Shut => s.(active := false)
  }

  /** The whole relation invariant of the small machine. */
  ghost predicate LinksSuit(s: State) {
    forall r, id :: r in s.links && id in s.links[r] ==> id in s.methods && Suits(s.methods[id], r)
  }

  // ---------------------------------------------------------------------------
  // The abstraction
  // ---------------------------------------------------------------------------

  /** Both method maps as one; the two are kept disjoint. */
  function Merged(jwks: map<string, LedgerMethod>, schnorrs: map<string, SchnorrMethod>): map<string, Key> {
    map id | id in jwks.Keys + schnorrs.Keys ::
      if id in jwks then Jwk(jwks[id]) else Schnorr(schnorrs[id])
  }

  function LinkMap(l: Ledger): map<Relation, set<string>> {
    map r | r in RELATIONS :: Members(l, r)
  }

  function Abs(l: Ledger): State {
    State(l.controllerKey, l.recoveryKey, l.alsoKnownAs, Merged(l.methods, l.schnorrMethods), LinkMap(l), l.services, l.active)
  }

  function OfMap(m: MapMutation, insert: Command, update: Command): Option<Command> {
    match m
    case UndefinedMap => None
    case InsertEntry => Some(insert)
    case UpdateEntry => Some(update)
  }

  function OfSet(m: SetMutation, insert: Command, remove: Command): Option<Command> {
    match m
    case UndefinedSet => None
    case InsertMember => Some(insert)
    case RemoveMember => Some(remove)
  }

  /** The command that a call stands for; an undefined mutation stands for none. */
  function CommandOf(call: Call): Option<Command> {
    match call
    case RotateControllerKey(k) => Some(ChangeController(k))
    case RecoverControllerKey(k) => Some(ChangeController(k))
    case SetAlsoKnownAs(v, m) => OfSet(m, AddAlias(v), DropAlias(v))
    case SetVerificationMethod(vm, m) => OfMap(m, AddMethod(Jwk(vm)), ReplaceMethod(Jwk(vm)))
    case RemoveVerificationMethod(id) => Some(DropMethod(id, false))
    case SetSchnorrMethod(vm, m) => OfMap(m, AddMethod(Schnorr(vm)), ReplaceMethod(Schnorr(vm)))
    case RemoveSchnorrMethod(id) => Some(DropMethod(id, true))
    case SetRelation(r, id, m) => OfSet(m, Link(r, id), Unlink(r, id))
    case SetService(s, m) => OfMap(m, AddService(s), ReplaceService(s))
    case RemoveService(id) => Some(DropService(id))
    case Deactivate => Some(Shut)
  }

  lemma LinkMapIs(l: Ledger, relation: Relation)
    ensures relation in LinkMap(l) <==> !relation.UndefinedRelation?
    ensures relation in LinkMap(l) ==> LinkMap(l)[relation] == Members(l, relation)
  {
    RelationsAreAll(relation);
  }

  lemma LinkedIsReferenced(l: Ledger, id: string)
    ensures Linked(Abs(l), id) <==> Referenced(l, id)
  {
    forall r ensures r in LinkMap(l) <==> !r.UndefinedRelation? {
      LinkMapIs(l, r);
    }
    if Referenced(l, id) {
      var r :| id in Members(l, r);
      assert r in Abs(l).links && id in Abs(l).links[r];
    }
  }

  /** The three clauses of the concrete invariant on relations are the one rule of the small
      machine. */
  lemma RelationInvariantIsOneRule(l: Ledger)
    requires MethodsKept(l)
    ensures RelationsKept(l) <==> LinksSuit(Abs(l))
  {
    var s := Abs(l);
    forall r, id ensures (id in Members(l, r)) == (r in s.links && id in s.links[r]) {
      LinkMapIs(l, r);
    }
    forall r, id | id in Members(l, r)
      ensures EntryKept(l, r, id) <==> id in s.methods && Suits(s.methods[id], r)
    {
    }
    if LinksSuit(s) {
      forall r, id | id in Members(l, r) ensures EntryKept(l, r, id) {
        assert r in s.links && id in s.links[r];
      }
    }
  }

  // ---------------------------------------------------------------------------
  // Refinement
  // ---------------------------------------------------------------------------

  /** Inside the invariant a circuit permits a call exactly when the small machine allows its
      command. In particular an update of a Schnorr key needs no look at the relations, and removing
      a relation entry needs no look at the methods: the invariant already answers both. */
  lemma PermitsIsAllowed(l: Ledger, call: Call)
    requires Inv(l)
    ensures Permits(l, call) == (CommandOf(call).Some? && Allowed(Abs(l), CommandOf(call).value))
  {
    match call
    case SetVerificationMethod(vm, m) => JwkIsPermitted(l, vm, m);
    case SetSchnorrMethod(vm, m) => SchnorrIsPermitted(l, vm, m);
    case RemoveVerificationMethod(id) => RemovalIsPermitted(l, id);
    case RemoveSchnorrMethod(id) => RemovalIsPermitted(l, id);
    case SetRelation(r, id, m) => LinkIsPermitted(l, r, id, m);
    case _ => PlainIsPermitted(l, call);
  }

  lemma JwkIsPermitted(l: Ledger, vm: LedgerMethod, m: MapMutation)
    requires Inv(l)
    ensures var call := SetVerificationMethod(vm, m);
            Permits(l, call) == (CommandOf(call).Some? && Allowed(Abs(l), CommandOf(call).value))
  {
    ReplaceIsPermitted(l, Jwk(vm));
  }

  lemma SchnorrIsPermitted(l: Ledger, vm: SchnorrMethod, m: MapMutation)
    requires Inv(l)
    ensures var call := SetSchnorrMethod(vm, m);
            Permits(l, call) == (CommandOf(call).Some? && Allowed(Abs(l), CommandOf(call).value))
  {
    ReplaceIsPermitted(l, Schnorr(vm));
  }

  lemma RemovalIsPermitted(l: Ledger, id: string)
    requires Inv(l)
    ensures Permits(l, RemoveVerificationMethod(id)) == Allowed(Abs(l), DropMethod(id, false))
    ensures Permits(l, RemoveSchnorrMethod(id)) == Allowed(Abs(l), DropMethod(id, true))
  {
    LinkedIsReferenced(l, id);
  }

  /** Keys, aliases, services and activity. */
  predicate IsPlain(call: Call) {
    || call.RotateControllerKey? || call.RecoverControllerKey? || call.SetAlsoKnownAs?
    || call.SetService? || call.RemoveService? || call.Deactivate?
  }

  lemma PlainIsPermitted(l: Ledger, call: Call)
    requires IsPlain(call)
    ensures Permits(l, call) == (CommandOf(call).Some? && Allowed(Abs(l), CommandOf(call).value))
  {
  }

  lemma LinkIsPermitted(l: Ledger, relation: Relation, id: string, m: SetMutation)
    requires Inv(l)
    ensures var call := SetRelation(relation, id, m);
            Permits(l, call) == (CommandOf(call).Some? && Allowed(Abs(l), CommandOf(call).value))
  {
    LinkMapIs(l, relation);
    if id in Members(l, relation) {
      assert EntryKept(l, relation, id);
    }
  }

  lemma ReplaceIsPermitted(l: Ledger, key: Key)
    requires Inv(l)
    ensures Allowed(Abs(l), ReplaceMethod(key))
        <==> if key.Jwk? then Permits(l, SetVerificationMethod(key.jwk, UpdateEntry))
             else Permits(l, SetSchnorrMethod(key.schnorr, UpdateEntry))
  {
    var s, id := Abs(l), IdOf(key);
    forall r ensures (r in s.links && id in s.links[r]) == (id in Members(l, r)) {
      LinkMapIs(l, r);
    }
    if key.Schnorr? && id in l.schnorrMethods {
      forall r | id in Members(l, r) ensures Suits(key, r) {
        assert EntryKept(l, r, id);
      }
    }
  }

  /** What a permitted circuit does to the ledger is what the command does to the small machine. */
  lemma EffectIsDo(l: Ledger, call: Call)
    requires Inv(l) && Permits(l, call)
    ensures CommandOf(call).Some? && Allowed(Abs(l), CommandOf(call).value)
    ensures Abs(Effect(l, call)) == Do(Abs(l), CommandOf(call).value)
  {
    PermitsIsAllowed(l, call);
    PlainMoves(l, call);
    if call.SetRelation? {
      RelationFrame(l, call);
      RelationMoves(l, call);
    } else {
      SameLinks(l, call);
      MethodMoves(l, call);
    }
  }

  /** The components that both machines keep in the same form. */
  predicate SamePlain(n: Ledger, t: State) {
    && n.controllerKey == t.controllerKey && n.recoveryKey == t.recoveryKey
    && n.alsoKnownAs == t.aliases && n.services == t.services && n.active == t.active
  }

  lemma PlainMoves(l: Ledger, call: Call)
    requires Permits(l, call) && CommandOf(call).Some? && Allowed(Abs(l), CommandOf(call).value)
    ensures SamePlain(Effect(l, call), Do(Abs(l), CommandOf(call).value))
    ensures call.SetRelation? ==> Do(Abs(l), CommandOf(call).value).methods == Abs(l).methods
    ensures !call.SetRelation? ==> Do(Abs(l), CommandOf(call).value).links == Abs(l).links
  {
    if call.SetRelation? {
      LinkMovesOnlyLinks(l, call);
    }
  }

  lemma LinkMovesOnlyLinks(l: Ledger, call: Call)
    requires call.SetRelation? && CommandOf(call).Some? && Allowed(Abs(l), CommandOf(call).value)
    ensures SamePlain(Effect(l, call), Do(Abs(l), CommandOf(call).value))
  {
    RelationFrame(l, call);
  }

  lemma SameLinks(l: Ledger, call: Call)
    requires !call.SetRelation?
    ensures LinkMap(Effect(l, call)) == LinkMap(l)
  {
    forall r ensures Members(Effect(l, call), r) == Members(l, r) {
      OtherFrame(l, call, r);
    }
  }

  lemma RelationMoves(l: Ledger, call: Call)
    requires Inv(l) && Permits(l, call) && call.SetRelation?
    requires CommandOf(call).Some? && Allowed(Abs(l), CommandOf(call).value)
    ensures LinkMap(Effect(l, call)) == Do(Abs(l), CommandOf(call).value).links
  {
    LinkMapIs(l, call.relation);
    EffectOfRelation(l, call);
    LinkMapOfWith(l, call.relation, NewIds(l, call));
  }

  lemma LinkMapOfWith(l: Ledger, relation: Relation, ids: set<string>)
    requires !relation.UndefinedRelation?
    ensures LinkMap(WithMembers(l, relation, ids)) == LinkMap(l)[relation := ids]
  {
    var a, b := LinkMap(WithMembers(l, relation, ids)), LinkMap(l)[relation := ids];
    forall r ensures (r in a <==> r in b) && (r in a ==> a[r] == b[r]) {
      LinkMapIs(l, r);
      LinkMapIs(WithMembers(l, relation, ids), r);
      MembersOfWith(l, relation, ids, r);
    }
  }

  lemma MethodMoves(l: Ledger, call: Call)
    requires Inv(l) && Permits(l, call) && !call.SetRelation?
    requires CommandOf(call).Some? && Allowed(Abs(l), CommandOf(call).value)
    ensures var n := Effect(l, call);
            Merged(n.methods, n.schnorrMethods) == Do(Abs(l), CommandOf(call).value).methods
  {
    if call.SetVerificationMethod? || call.SetSchnorrMethod? {
      PutMoves(l, call);
    } else if call.RemoveVerificationMethod? || call.RemoveSchnorrMethod? {
      MergedDrop(l.methods, l.schnorrMethods, call.id);
    }
  }

  lemma PutMoves(l: Ledger, call: Call)
    requires Inv(l) && Permits(l, call) && (call.SetVerificationMethod? || call.SetSchnorrMethod?)
    requires CommandOf(call).Some? && Allowed(Abs(l), CommandOf(call).value)
    ensures var n := Effect(l, call);
            Merged(n.methods, n.schnorrMethods) == Do(Abs(l), CommandOf(call).value).methods
  {
    match call
    case SetVerificationMethod(vm, _) => MergedPut(l.methods, l.schnorrMethods, Jwk(vm));
    case SetSchnorrMethod(vm, _) => MergedPut(l.methods, l.schnorrMethods, Schnorr(vm));
    case _ =>
  }

  lemma MergedPut(jwks: map<string, LedgerMethod>, schnorrs: map<string, SchnorrMethod>, key: Key)
    ensures key.Jwk? ==> Merged(jwks[IdOf(key) := key.jwk], schnorrs) == Merged(jwks, schnorrs)[IdOf(key) := key]
    ensures key.Schnorr? && IdOf(key) !in jwks ==>
              Merged(jwks, schnorrs[IdOf(key) := key.schnorr]) == Merged(jwks, schnorrs)[IdOf(key) := key]
  {
  }

  lemma MergedDrop(jwks: map<string, LedgerMethod>, schnorrs: map<string, SchnorrMethod>, id: string)
    ensures id !in schnorrs ==> Merged(jwks - {id}, schnorrs) == Merged(jwks, schnorrs) - {id}
    ensures id !in jwks ==> Merged(jwks, schnorrs - {id}) == Merged(jwks, schnorrs) - {id}
  {
  }

  /** Requests on the small machine. It takes the version and the contract id from outside. */
  ghost function SmallStep(s: State, q: Request): State {
    if CommandOf(q.call).Some? && Allowed(s, CommandOf(q.call).value) then Do(s, CommandOf(q.call).value) else s
  }

  /** The request passes the checks that do not depend on what the command touches. */
  predicate Admitted(crypto: Crypto, s: State, id: Bytes32, version: nat, q: Request) {
    && s.active && q.enoughGas && q.expectedVersion == version
    && crypto.verify(AuthorizationDigest(crypto, id, version, q.call), q.signature,
                     if q.call.RecoverControllerKey? then s.recoveryKey else s.controllerKey)
  }

  datatype Counted = Counted(state: State, version: nat)

  ghost function SmallRun(crypto: Crypto, id: Bytes32, c: Counted, qs: seq<Request>): Counted {
    if qs == [] then c
    else
      var front := SmallRun(crypto, id, c, qs[..|qs| - 1]);
      var q := qs[|qs| - 1];
      if Admitted(crypto, front.state, id, front.version, q) && CommandOf(q.call).Some?
         && Allowed(front.state, CommandOf(q.call).value)
      then Counted(SmallStep(front.state, q), front.version + 1)
      else front
  }

  /** Refinement of whole runs: the contract and the small machine, started from corresponding
      states, accept the same requests and stay in corresponding states. */
  lemma {:induction false} RunsRefine(crypto: Crypto, l: Ledger, qs: seq<Request>)
    requires Inv(l)
    ensures var n := Run(crypto, l, qs);
            SmallRun(crypto, l.id, Counted(Abs(l), l.version), qs) == Counted(Abs(n), n.version)
  {
    if qs != [] {
      var front := qs[..|qs| - 1];
      RunsRefine(crypto, l, front);
      RunKeeps(crypto, l, front);
      RunCounts(crypto, l, front);
      StepRefines(crypto, Run(crypto, l, front), qs[|qs| - 1]);
    }
  }

  lemma StepRefines(crypto: Crypto, l: Ledger, q: Request)
    requires Inv(l)
    ensures Accepts(crypto, l, q)
        <==> Admitted(crypto, Abs(l), l.id, l.version, q) && CommandOf(q.call).Some?
             && Allowed(Abs(l), CommandOf(q.call).value)
    ensures Accepts(crypto, l, q) ==>
              Abs(After(l, q)) == SmallStep(Abs(l), q) && After(l, q).version == l.version + 1
  {
    PermitsIsAllowed(l, q.call);
    if Accepts(crypto, l, q) {
      EffectIsDo(l, q.call);
      EffectLeavesBookkeeping(l, q.call);
      var e, n := Effect(l, q.call), After(l, q);
      assert forall r :: Members(e, r) == Members(n, r);
      assert LinkMap(e) == LinkMap(n);
    }
  }
}
