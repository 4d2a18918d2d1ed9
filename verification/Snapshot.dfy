/** The plain-data view of the ledger that the API layer reads. */
module Snapshot {
  import opened Prelude
  import opened DidTypes
  import opened Contract
  import Hex

  datatype SchnorrEntry = SchnorrEntry(id: string, x: string, y: string)

  datatype Snapshot = Snapshot(
    active: bool,
    deactivated: bool,
    version: nat,
    operationCount: nat,
    createdMs: nat,
    updatedMs: nat,
    alsoKnownAs: seq<string>,
    methods: seq<(string, LedgerMethod)>,
    schnorrMethods: seq<(string, SchnorrEntry)>,
    authentication: seq<string>,
    assertionMethod: seq<string>,
    keyAgreement: seq<string>,
    capabilityInvocation: seq<string>,
    capabilityDelegation: seq<string>,
    services: seq<(string, LedgerService)>)

  /** `relation_set`, with the undefined relation as an empty list. */
  function RelationSet(s: Snapshot, relation: Relation): seq<string> {
    match relation
    case UndefinedRelation => []
    case Authentication => s.authentication
    case AssertionMethod => s.assertionMethod
    case KeyAgreement => s.keyAgreement
    case CapabilityInvocation => s.capabilityInvocation
    case CapabilityDelegation => s.capabilityDelegation
  }

  /** `relation_contains`. */
  predicate RelationContains(s: Snapshot, relation: Relation, id: string) { id in RelationSet(s, relation) }

  /** The list holds every member of the set once. */
  ghost predicate Lists(list: seq<string>, members: set<string>) {
    Distinct(list) && forall m :: m in list <==> m in members
  }

  /** The keys of a map iterated in some order. */
  function KeysOf<V>(entries: seq<(string, V)>): seq<string> {
    seq(|entries|, i requires 0 <= i < |entries| => entries[i].0)
  }

  ghost predicate ListsMap<V>(entries: seq<(string, V)>, m: map<string, V>) {
    Lists(KeysOf(entries), m.Keys) && forall e :: e in entries ==> e.0 in m && m[e.0] == e.1
  }

  function EntryOf(vm: SchnorrMethod): SchnorrEntry {
    SchnorrEntry(vm.id, Hex.Encode(vm.publicKey.x), Hex.Encode(vm.publicKey.y))
  }

  function EntriesOf(m: map<string, SchnorrMethod>): map<string, SchnorrEntry> {
    map id | id in m :: EntryOf(m[id])
  }

  /** What a reader of the ledger sees: every collection listed without repetition in an order of
      the reader's choice, and points as hex. */
  ghost predicate Projects(l: Ledger, s: Snapshot) {
    && s.active == l.active && s.deactivated == l.deactivated
    && s.version == l.version && s.operationCount == l.operationCount
    && s.createdMs == l.created && s.updatedMs == l.updated
    && Lists(s.alsoKnownAs, l.alsoKnownAs)
    && ListsMap(s.methods, l.methods)
    && ListsMap(s.schnorrMethods, EntriesOf(l.schnorrMethods))
    && (forall relation :: Lists(RelationSet(s, relation), Members(l, relation)))
    && ListsMap(s.services, l.services)
  }

  method Listed(members: set<string>) returns (list: seq<string>)
    ensures Lists(list, members)
  {
    list := [];
    var rest := members;
    while rest != {}
      invariant rest <= members && Distinct(list)
      invariant forall m :: m in list <==> m in members - rest
      decreases |rest|
    {
      var m :| m in rest;
      assert m !in list;
      list := list + [m];
      rest := rest - {m};
    }
  }

  method ListedMap<V>(m: map<string, V>) returns (entries: seq<(string, V)>)
    ensures ListsMap(entries, m)
  {
    var keys := Listed(m.Keys);
    entries := seq(|keys|, i requires 0 <= i < |keys| && keys[i] in m => (keys[i], m[keys[i]]));
    assert KeysOf(entries) == keys;
  }

  /** Every ledger can be read. */
  method Read(l: Ledger) returns (s: Snapshot)
    ensures Projects(l, s)
  {
    var alsoKnownAs := Listed(l.alsoKnownAs);
    var methods := ListedMap(l.methods);
    var schnorrMethods := ListedMap(EntriesOf(l.schnorrMethods));
    var authentication := Listed(l.authentication);
    var assertionMethod := Listed(l.assertionMethod);
    var keyAgreement := Listed(l.keyAgreement);
    var capabilityInvocation := Listed(l.capabilityInvocation);
    var capabilityDelegation := Listed(l.capabilityDelegation);
    var services := ListedMap(l.services);
    s := Snapshot(l.active, l.deactivated, l.version, l.operationCount, l.created, l.updated, alsoKnownAs,
                  methods, schnorrMethods, authentication, assertionMethod, keyAgreement,
                  capabilityInvocation, capabilityDelegation, services);
  }

  /** Membership in the view is membership in the ledger. */
  lemma ContainsIsMembership(l: Ledger, s: Snapshot, relation: Relation, id: string)
    requires Projects(l, s)
    ensures RelationContains(s, relation, id) <==> id in Members(l, relation)
  {
    assert Lists(RelationSet(s, relation), Members(l, relation));
  }
}
