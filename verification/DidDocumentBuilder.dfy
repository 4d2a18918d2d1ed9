/** The document builder: a pre-screen on raw ids followed by the document validator. */
module DidDocumentBuilder {
  import opened Prelude
  import opened DidTypes
  import opened Foreign
  import opened DidDocument

  datatype Draft = Draft(
    id: string,
    alsoKnownAs: Option<Ids>,
    controller: Option<Ids>,
    methods: seq<VerificationMethod>,
    authentication: Ids,
    assertionMethod: Ids,
    keyAgreement: Ids,
    capabilityInvocation: Ids,
    capabilityDelegation: Ids,
    services: seq<Service>)

  datatype ScreenIssue =
    | RepeatedMethod(index: nat)
    | RepeatedService(index: nat)
    | UnknownReference(relation: Relation, index: nat)

  datatype BuildError = BadSubject | Screened(found: seq<ScreenIssue>) | Invalid(issues: seq<Issue>)

  function NonEmpty<T(==)>(s: seq<T>): Option<seq<T>> { if s == [] then None else Some(s) }

  /** The document that a draft describes. */
  function DocumentOf(d: Draft): Document {
    Document(d.id, d.alsoKnownAs, d.controller, NonEmpty(d.methods),
             NonEmpty(d.authentication), NonEmpty(d.assertionMethod), NonEmpty(d.keyAgreement),
             NonEmpty(d.capabilityInvocation), NonEmpty(d.capabilityDelegation), NonEmpty(d.services))
  }

  /** Every relation entry is, letter for letter, the id of a method of the draft. */
  ghost predicate NamesMethodsVerbatim(d: Draft) {
    forall r, id :: id in RelationIds(DocumentOf(d), r) ==> id in MethodIds(DocumentOf(d))
  }

  ghost predicate PassesScreen(d: Draft) {
    && Distinct(MethodIds(DocumentOf(d)))
    && Distinct(ServiceIds(DocumentOf(d)))
    && NamesMethodsVerbatim(d)
  }

  /** What each issue of the pre-screen says about a document. */
  predicate ScreenClaim(doc: Document, issue: ScreenIssue) {
    match issue
    case RepeatedMethod(i) => RepeatsAt(MethodIds(doc), i)
    case RepeatedService(i) => RepeatsAt(ServiceIds(doc), i)
    case UnknownReference(r, i) => i < |RelationIds(doc, r)| && RelationIds(doc, r)[i] !in MethodIds(doc)
  }

  /** Methods first, then services, then the five relations. */
  function ScreenSection(issue: ScreenIssue): nat {
    match issue
    case RepeatedMethod(_) => 0
    case RepeatedService(_) => 1
    case UnknownReference(r, _) => 1 + RelationRank(r)
  }

  predicate ScreenEarlier(a: ScreenIssue, b: ScreenIssue) {
    ScreenSection(a) < ScreenSection(b) || (ScreenSection(a) == ScreenSection(b) && a.index < b.index)
  }

  predicate ScreenInOrder(issues: seq<ScreenIssue>) {
    forall i, j :: 0 <= i < j < |issues| ==> ScreenEarlier(issues[i], issues[j])
  }

  /** Where issues stand in the list: methods, services, then the relations one after the other. */
  lemma ScreenReportOrder(m: nat, n: nat, i: nat, j: nat)
    requires m < n && i < j < 5
    ensures var order := [Authentication, AssertionMethod, KeyAgreement, CapabilityInvocation, CapabilityDelegation];
            ScreenInOrder([RepeatedMethod(m), RepeatedMethod(n), RepeatedService(m), RepeatedService(n),
                           UnknownReference(order[i], m), UnknownReference(order[i], n),
                           UnknownReference(order[j], m), UnknownReference(order[j], n)])
  {
    var order := [Authentication, AssertionMethod, KeyAgreement, CapabilityInvocation, CapabilityDelegation];
    assert RelationRank(order[i]) == i + 1 && RelationRank(order[j]) == j + 1;
  }

  /** The issues that come before the entry `n` of a section. */
  ghost predicate ScreenFound(doc: Document, issues: seq<ScreenIssue>, section: nat, n: nat) {
    && ScreenInOrder(issues)
    && forall issue :: issue in issues <==>
         && ScreenClaim(doc, issue)
         && (ScreenSection(issue) < section || (ScreenSection(issue) == section && issue.index < n))
  }

  lemma ScreenFoundOne(doc: Document, issues: seq<ScreenIssue>, issue: ScreenIssue, claimed: bool)
    requires ScreenFound(doc, issues, ScreenSection(issue), issue.index) && claimed == ScreenClaim(doc, issue)
    requires issue.UnknownReference? ==> !issue.relation.UndefinedRelation?
    ensures ScreenFound(doc, if claimed then issues + [issue] else issues, ScreenSection(issue), issue.index + 1)
  {
    forall other | ScreenClaim(doc, other) && ScreenSection(other) == ScreenSection(issue) && other.index == issue.index
      ensures other == issue
    {
      SameScreenSection(doc, issue, other);
    }
    forall i | 0 <= i < |issues| ensures ScreenEarlier(issues[i], issue) {
      assert issues[i] in issues;
    }
  }

  lemma SameScreenSection(doc: Document, a: ScreenIssue, b: ScreenIssue)
    requires ScreenSection(a) == ScreenSection(b) && a.index == b.index && ScreenClaim(doc, b)
    requires a.UnknownReference? ==> !a.relation.UndefinedRelation?
    ensures a == b
  {
    if b.UnknownReference? {
      assert !b.relation.UndefinedRelation?;
    }
  }

  /** Past the last entry of a section the next one begins. */
  lemma ScreenSectionEnds(doc: Document, issues: seq<ScreenIssue>, section: nat, n: nat)
    requires ScreenFound(doc, issues, section, n)
    requires forall issue :: ScreenClaim(doc, issue) && ScreenSection(issue) == section ==> issue.index < n
    ensures ScreenFound(doc, issues, section + 1, 0)
  {
  }

  /** The loop that looks for repeated ids of methods or of services. */
  method ScreenRepeats(doc: Document, keys: Ids, services: bool, before: seq<ScreenIssue>)
    returns (issues: seq<ScreenIssue>, seen: set<string>)
    requires keys == if services then ServiceIds(doc) else MethodIds(doc)
    requires ScreenFound(doc, before, if services then 1 else 0, 0)
    ensures seen == Elems(keys)
    ensures ScreenFound(doc, issues, if services then 2 else 1, 0)
  {
    issues, seen := before, {};
    for i := 0 to |keys|
      invariant seen == Elems(keys[..i])
      invariant ScreenFound(doc, issues, if services then 1 else 0, i)
    {
      SeenStep(seen, keys, i);
      var issue := if services then RepeatedService(i) else RepeatedMethod(i);
      ScreenFoundOne(doc, issues, issue, keys[i] in seen);
      if keys[i] in seen {
        issues := issues + [issue];
      }
      seen := seen + {keys[i]};
    }
    assert keys[..|keys|] == keys;
    SectionOfRepeats(doc, services);
    ScreenSectionEnds(doc, issues, if services then 1 else 0, |keys|);
  }

  lemma SectionOfRepeats(doc: Document, services: bool)
    ensures forall issue :: ScreenClaim(doc, issue) && ScreenSection(issue) == (if services then 1 else 0) ==>
              issue.index < |if services then ServiceIds(doc) else MethodIds(doc)|
  {
    forall issue | ScreenClaim(doc, issue) && ScreenSection(issue) == (if services then 1 else 0)
      ensures issue.index < |if services then ServiceIds(doc) else MethodIds(doc)|
    {
      assert RelationIds(doc, UndefinedRelation) == [];
    }
  }

  /** The loop over the references of one relation. */
  method ScreenReferences(doc: Document, relation: Relation, ids: Ids, known: set<string>, before: seq<ScreenIssue>)
    returns (issues: seq<ScreenIssue>)
    requires !relation.UndefinedRelation? && ids == RelationIds(doc, relation) && known == Elems(MethodIds(doc))
    requires ScreenFound(doc, before, 1 + RelationRank(relation), 0)
    ensures ScreenFound(doc, issues, 2 + RelationRank(relation), 0)
  {
    issues := before;
    for i := 0 to |ids|
      invariant ScreenFound(doc, issues, 1 + RelationRank(relation), i)
    {
      ScreenFoundOne(doc, issues, UnknownReference(relation, i), ids[i] !in known);
      if ids[i] !in known {
        issues := issues + [UnknownReference(relation, i)];
      }
    }
    SectionOfRelation(doc, relation);
    ScreenSectionEnds(doc, issues, 1 + RelationRank(relation), |ids|);
  }

  lemma SectionOfRelation(doc: Document, relation: Relation)
    requires !relation.UndefinedRelation?
    ensures forall issue :: ScreenClaim(doc, issue) && ScreenSection(issue) == 1 + RelationRank(relation) ==>
              issue.index < |RelationIds(doc, relation)|
  {
    forall r | RelationRank(r) == RelationRank(relation) ensures r == relation {
    }
  }

  /** The pre-screen: exactly its issues, in order, each once. */
  method Screen(doc: Document) returns (issues: seq<ScreenIssue>)
    ensures ScreenInOrder(issues)
    ensures forall issue :: issue in issues <==> ScreenClaim(doc, issue)
  {
    var known: set<string>;
    issues, known := ScreenRepeats(doc, MethodIds(doc), false, []);
    var serviceIds: set<string>;
    issues, serviceIds := ScreenRepeats(doc, ServiceIds(doc), true, issues);
    issues := ScreenReferences(doc, Authentication, RelationIds(doc, Authentication), known, issues);
    issues := ScreenReferences(doc, AssertionMethod, RelationIds(doc, AssertionMethod), known, issues);
    issues := ScreenReferences(doc, KeyAgreement, RelationIds(doc, KeyAgreement), known, issues);
    issues := ScreenReferences(doc, CapabilityInvocation, RelationIds(doc, CapabilityInvocation), known, issues);
    issues := ScreenReferences(doc, CapabilityDelegation, RelationIds(doc, CapabilityDelegation), known, issues);
    forall issue ensures ScreenSection(issue) < 7 {
    }
  }

  /** A list that is left out when it is empty. */
  predicate Holds<T(==)>(field: Option<seq<T>>, list: seq<T>) {
    (list == [] ==> field == None) && (list != [] ==> field == Some(list))
  }

  predicate NormalizedService(lib: Libraries, given: Service, built: Service) {
    && built.id == given.id && built.typ == given.typ
    && match given.endpoint
       case Uri(u) => built.endpoint == Uri(lib.normalizeUri(u))
       case Object(m) => built.endpoint == Object(lib.normalizeObject(m))
       case Array(entries) =>
         && built.endpoint.Array? && |built.endpoint.entries| == |entries|
         && forall i :: 0 <= i < |entries| ==> NormalizedEntry(lib, entries[i], built.endpoint.entries[i])
  }

  predicate NormalizedEntry(lib: Libraries, given: EndpointEntry, built: EndpointEntry) {
    match given
    case UriEntry(u) => built == UriEntry(lib.normalizeUri(u))
    case ObjectEntry(m) => built == ObjectEntry(lib.normalizeObject(m))
  }

  /** The built document has the fields of the draft: empty lists are left out, and each service keeps its
      id and type and has its endpoint normalised. */
  ghost predicate BuiltFrom(lib: Libraries, d: Draft, doc: Document) {
    && doc.id == d.id && doc.alsoKnownAs == d.alsoKnownAs && doc.controller == d.controller
    && Holds(doc.verificationMethod, d.methods)
    && Holds(doc.authentication, d.authentication) && Holds(doc.assertionMethod, d.assertionMethod)
    && Holds(doc.keyAgreement, d.keyAgreement) && Holds(doc.capabilityInvocation, d.capabilityInvocation)
    && Holds(doc.capabilityDelegation, d.capabilityDelegation)
    && match doc.service
       case None => d.services == []
       case Some(services) =>
         && d.services != [] && |services| == |d.services|
         && forall i :: 0 <= i < |services| ==> NormalizedService(lib, d.services[i], services[i])
  }

  /** `DidDocumentBuilder::build`. */
  method Build(lib: Libraries, d: Draft) returns (r: Result<Document, BuildError>)
    ensures r.Ok? <==> IsDidString(d.id) && NamesMethodsVerbatim(d) && IsConsistent(lib, DocumentOf(d))
    ensures r.Ok? ==> r.value == WithNormalizedEndpoints(lib, DocumentOf(d))
    ensures r == Err(BadSubject) <==> !IsDidString(d.id)
    ensures r.Err? && r.error.Screened? <==> IsDidString(d.id) && !PassesScreen(d)
    ensures r.Err? && r.error.Screened? ==>
              && ScreenInOrder(r.error.found)
              && forall issue :: issue in r.error.found <==> ScreenClaim(DocumentOf(d), issue)
    ensures r.Err? && r.error.Invalid? ==>
              && r.error.issues != [] && InOrder(r.error.issues)
              && forall issue :: issue in r.error.issues <==> Claim(lib, WithNormalizedEndpoints(lib, DocumentOf(d)), issue)
  {
    ConsistentPassesScreen(lib, d);
    if !IsDidString(d.id) {
      return Err(BadSubject);
    }
    var found := Screen(DocumentOf(d));
    NoClaimIffPasses(d);
    if found != [] {
      assert found[0] in found;
      return Err(Screened(found));
    }
    var issues := Validate(lib, DocumentOf(d));
    if issues != [] {
      return Err(Invalid(issues));
    }
    return Ok(WithNormalizedEndpoints(lib, DocumentOf(d)));
  }

  /** What is built has the fields of the draft. */
  lemma BuiltHasDraftFields(lib: Libraries, d: Draft)
    ensures BuiltFrom(lib, d, WithNormalizedEndpoints(lib, DocumentOf(d)))
  {
    if d.services != [] {
      var services := WithNormalizedEndpoints(lib, DocumentOf(d)).service.value;
      forall i | 0 <= i < |services| ensures NormalizedService(lib, d.services[i], services[i]) {
      }
    }
  }

  lemma NoClaimIffPasses(d: Draft)
    ensures PassesScreen(d) == forall issue :: !ScreenClaim(DocumentOf(d), issue)
  {
    var doc := DocumentOf(d);
    DistinctIffNoRepeat(MethodIds(doc));
    DistinctIffNoRepeat(ServiceIds(doc));
    if forall issue :: !ScreenClaim(doc, issue) {
      forall i: nat ensures !RepeatsAt(MethodIds(doc), i) && !RepeatsAt(ServiceIds(doc), i) {
        assert !ScreenClaim(doc, RepeatedMethod(i)) && !ScreenClaim(doc, RepeatedService(i));
      }
      forall r, id | id in RelationIds(doc, r) ensures id in MethodIds(doc) {
        var i :| 0 <= i < |RelationIds(doc, r)| && RelationIds(doc, r)[i] == id;
        assert !ScreenClaim(doc, UnknownReference(r, i));
      }
    }
    if PassesScreen(d) {
      forall issue ensures !ScreenClaim(doc, issue) {
        if issue.UnknownReference? && issue.index < |RelationIds(doc, issue.relation)| {
          assert RelationIds(doc, issue.relation)[issue.index] in RelationIds(doc, issue.relation);
        }
      }
    }
  }

  lemma ConsistentPassesScreen(lib: Libraries, d: Draft)
    ensures IsConsistent(lib, DocumentOf(d)) && NamesMethodsVerbatim(d) ==> PassesScreen(d)
  {
    var ids := MethodIds(DocumentOf(d));
    if Distinct(Canonicals(d.id, ids)) {
      forall i, j | 0 <= i < j < |ids| ensures ids[i] != ids[j] {
        assert Canonicals(d.id, ids)[i] != Canonicals(d.id, ids)[j];
      }
    }
  }

  /** Once the pre-screen on raw ids has passed, the validator can no longer find a relation entry
      without a method, nor a repeated service id. */
  lemma ScreenLeavesNoDanglingEntry(lib: Libraries, d: Draft)
    requires PassesScreen(d)
    ensures forall issue :: Claim(lib, WithNormalizedEndpoints(lib, DocumentOf(d)), issue) ==>
              !issue.DanglingRelationEntry? && !issue.DuplicateServiceId?
  {
    var doc := DocumentOf(d);
    var n := WithNormalizedEndpoints(lib, doc);
    assert ServiceIds(n) == ServiceIds(doc) && MethodIds(n) == MethodIds(doc);
    DistinctIffNoRepeat(ServiceIds(doc));
    forall r, i: nat ensures !RelationClaim(n, r, i, false) {
      var ids := RelationIds(doc, r);
      assert RelationIds(n, r) == ids;
      if i < |ids| {
        CanonicalMember(doc.id, MethodIds(doc), ids[i]);
      }
    }
  }

  lemma CanonicalMember(did: string, ids: Ids, id: string)
    ensures id in ids ==> Canonical(did, id) in Canonicals(did, ids)
  {
    if k :| 0 <= k < |ids| && ids[k] == id {
      assert Canonicals(did, ids)[k] == Canonical(did, id);
    }
  }

  /** The pre-screen is stricter than the validator: a method listed under its absolute id and
      referred to by its fragment is a valid document that the builder turns down. */
  lemma BuilderRejectsAValidDocument(lib: Libraries, did: string, fragment: string, key: PublicKeyJwk)
    requires IsDidString(did)
    ensures exists d: Draft :: d.id == did && IsConsistent(lib, DocumentOf(d)) && !NamesMethodsVerbatim(d)
  {
    var absolute, relative := did + "#" + fragment, "#" + fragment;
    var d := Draft(did, None, None, [VerificationMethod(absolute, JsonWebKey, did, key)], [relative],
                   [], [], [], [], []);
    var doc := DocumentOf(d);
    assert relative[1..] == fragment && absolute[0] == 'd' && relative[0] == '#';
    assert Canonical(did, relative) == absolute && Canonical(did, absolute) == absolute;
    assert MethodIds(doc) == [absolute];
    OneEntryIsConsistent(lib, doc, absolute, relative);
    assert RelationIds(doc, Authentication) == [relative];
    assert relative in RelationIds(doc, Authentication) && relative !in MethodIds(doc);
  }

  /** A document with one method and one entry, which names it, is valid. */
  lemma OneEntryIsConsistent(lib: Libraries, doc: Document, method_: string, entry: string)
    requires MethodIds(doc) == [method_] && doc.authentication == Some([entry]) && doc.service.None?
    requires doc.assertionMethod.None? && doc.keyAgreement.None?
    requires doc.capabilityInvocation.None? && doc.capabilityDelegation.None?
    requires Canonical(doc.id, entry) == Canonical(doc.id, method_)
    ensures IsConsistent(lib, doc)
  {
    assert Canonicals(doc.id, MethodIds(doc)) == [Canonical(doc.id, method_)];
    forall r, id | id in RelationIds(doc, r)
      ensures Canonical(doc.id, id) in Canonicals(doc.id, MethodIds(doc))
    {
      assert RelationIds(doc, r) == if r.Authentication? then [entry] else [];
    }
  }
}
