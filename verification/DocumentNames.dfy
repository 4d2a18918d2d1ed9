/** What the document validator compares: the names behind the spellings of ids, and the entries behind
    their printed form. */
module DocumentNames {
  import opened Prelude
  import opened DidTypes
  import opened Foreign
  import opened DidDocument

  // ---------------------------------------------------------------------------
  // Names
  // ---------------------------------------------------------------------------

  /** What an id of a document names: a fragment of the document, or something elsewhere. */
  datatype Name = Here(fragment: string) | Elsewhere(url: string)

  /** A fragment is spelled behind the DID and a hash, behind a hash, or bare if it then starts neither
      like a DID nor with a hash. Any other DID URL spells itself. */
  predicate Spells(did: string, name: Name, id: string) {
    match name
    case Here(f) => id == did + "#" + f || id == "#" + f || (id == f && !("#" <= f) && !("did:" <= f))
    case Elsewhere(url) => id == url && "did:" <= url && !(did + "#" <= url)
  }

  /** Two ids compare equal in the validator exactly when they spell the same name. */
  lemma SameNameSameKey(did: string, a: string, m: Name, b: string, n: Name)
    requires "did:" <= did && Spells(did, m, a) && Spells(did, n, b)
    ensures Canonical(did, a) == Canonical(did, b) <==> m == n
  {
    KeyOfSpelling(did, m, a);
    KeyOfSpelling(did, n, b);
    if m.Here? && n.Here? && did + "#" + m.fragment == did + "#" + n.fragment {
      assert (did + "#" + m.fragment)[|did| + 1..] == m.fragment;
      assert (did + "#" + n.fragment)[|did| + 1..] == n.fragment;
    }
    assert forall f: string :: did + "#" <= did + "#" + f;
  }

  lemma KeyOfSpelling(did: string, name: Name, id: string)
    requires "did:" <= did && Spells(did, name, id)
    ensures Canonical(did, id) == match name case Here(f) => did + "#" + f case Elsewhere(url) => url
  {
    if name.Here? {
      assert (did + "#" + name.fragment)[..4] == did[..4];
      assert ("#" + name.fragment)[0] == '#' && ("#" + name.fragment)[1..] == name.fragment;
    }
  }

  /** Every id spells some name. */
  lemma SomeName(did: string, id: string) returns (name: Name)
    requires "did:" <= did
    ensures Spells(did, name, id)
  {
    if did + "#" <= id {
      name := Here(id[|did| + 1..]);
      assert id == did + "#" + id[|did| + 1..];
    } else if "did:" <= id {
      name := Elsewhere(id);
    } else if "#" <= id {
      name := Here(id[1..]);
      assert id == "#" + id[1..];
    } else {
      name := Here(id);
    }
  }

  ghost predicate AllSpell(did: string, names: seq<Name>, ids: Ids) {
    |names| == |ids| && forall i :: 0 <= i < |ids| ==> Spells(did, names[i], ids[i])
  }

  lemma RepeatsByName(did: string, names: seq<Name>, ids: Ids, i: nat)
    requires "did:" <= did && AllSpell(did, names, ids) && i < |ids|
    ensures RepeatsAt(Canonicals(did, ids), i) <==> names[i] in names[..i]
  {
    var keys := Canonicals(did, ids);
    forall k | 0 <= k < i ensures keys[k] == keys[i] <==> names[k] == names[i] {
      SameNameSameKey(did, ids[k], names[k], ids[i], names[i]);
    }
    if names[i] in names[..i] {
      var k :| 0 <= k < i && names[..i][k] == names[i];
      assert keys[..i][k] == keys[i];
    }
    if keys[i] in keys[..i] {
      var k :| 0 <= k < i && keys[..i][k] == keys[i];
      assert names[..i][k] == names[i];
    }
  }

  lemma MemberByName(did: string, names: seq<Name>, ids: Ids, id: string, name: Name)
    requires "did:" <= did && AllSpell(did, names, ids) && Spells(did, name, id)
    ensures Canonical(did, id) in Canonicals(did, ids) <==> name in names
  {
    var keys := Canonicals(did, ids);
    forall k | 0 <= k < |ids| ensures keys[k] == Canonical(did, id) <==> names[k] == name {
      SameNameSameKey(did, ids[k], names[k], id, name);
    }
    if name in names {
      var k :| 0 <= k < |ids| && names[k] == name;
      assert keys[k] in keys;
    }
    if Canonical(did, id) in keys {
      var k :| 0 <= k < |ids| && keys[k] == Canonical(did, id);
      assert names[k] in names;
    }
  }

  // ---------------------------------------------------------------------------
  // Reports
  // ---------------------------------------------------------------------------

  /** The names of the methods and of the relation entries of a document, list by list. */
  datatype DocumentView = DocumentView(
    methods: seq<Name>, authentication: seq<Name>, assertionMethod: seq<Name>, keyAgreement: seq<Name>,
    capabilityInvocation: seq<Name>, capabilityDelegation: seq<Name>)

  ghost predicate ListSpells(did: string, names: seq<Name>, list: Option<Ids>) {
    match list
    case None => names == []
    case Some(ids) => AllSpell(did, names, ids)
  }

  ghost predicate MethodsSpell(did: string, names: seq<Name>, methods: Option<seq<VerificationMethod>>) {
    match methods
    case None => names == []
    case Some(ms) => |names| == |ms| && forall i :: 0 <= i < |ms| ==> Spells(did, names[i], ms[i].id)
  }

  ghost predicate ViewOf(doc: Document, view: DocumentView) {
    && MethodsSpell(doc.id, view.methods, doc.verificationMethod)
    && ListSpells(doc.id, view.authentication, doc.authentication)
    && ListSpells(doc.id, view.assertionMethod, doc.assertionMethod)
    && ListSpells(doc.id, view.keyAgreement, doc.keyAgreement)
    && ListSpells(doc.id, view.capabilityInvocation, doc.capabilityInvocation)
    && ListSpells(doc.id, view.capabilityDelegation, doc.capabilityDelegation)
  }

  function Entries(view: DocumentView, relation: Relation): seq<Name> {
    match relation
    case UndefinedRelation => []
    case Authentication => view.authentication
    case AssertionMethod => view.assertionMethod
    case KeyAgreement => view.keyAgreement
    case CapabilityInvocation => view.capabilityInvocation
    case CapabilityDelegation => view.capabilityDelegation
  }

  /** Two entries of an endpoint are the same once normalised. */
  predicate SameEntry(lib: Libraries, a: EndpointEntry, b: EndpointEntry) {
    match (a, b)
    case (UriEntry(u), UriEntry(v)) => lib.normalizeUri(u) == lib.normalizeUri(v)
    case (ObjectEntry(m), ObjectEntry(n)) => lib.normalizeObject(m) == lib.normalizeObject(n)
    case _ => false
  }

  /** What each issue says about a document, in terms of names and entries. */
  ghost predicate Deserves(lib: Libraries, doc: Document, view: DocumentView, issue: Issue) {
    match issue
    case DuplicateMethodId(i) => i < |view.methods| && view.methods[i] in view.methods[..i]
    case DuplicateRelationEntry(r, i) => i < |Entries(view, r)| && Entries(view, r)[i] in Entries(view, r)[..i]
    case DanglingRelationEntry(r, i) =>
      && i < |Entries(view, r)| && Entries(view, r)[i] !in Entries(view, r)[..i]
      && Entries(view, r)[i] !in view.methods
    case DuplicateServiceId(i) =>
      && doc.service.Some? && i < |doc.service.value|
      && exists k :: 0 <= k < i && doc.service.value[k].id == doc.service.value[i].id
    case DuplicateEndpoint(s, i) =>
      && doc.service.Some? && s < |doc.service.value| && doc.service.value[s].endpoint.Array?
      && RepeatsEntry(lib, doc.service.value[s].endpoint.entries, i)
  }

  ghost predicate RepeatsEntry(lib: Libraries, entries: seq<EndpointEntry>, i: nat) {
    i < |entries| && exists k :: 0 <= k < i && SameEntry(lib, entries[k], entries[i])
  }

  lemma ViewLists(doc: Document, view: DocumentView, relation: Relation)
    requires ViewOf(doc, view)
    ensures AllSpell(doc.id, view.methods, MethodIds(doc))
    ensures AllSpell(doc.id, Entries(view, relation), RelationIds(doc, relation))
  {
  }

  lemma KeysOfEntries(lib: Libraries, a: EndpointEntry, b: EndpointEntry)
    requires lib.JsonRoundTrips()
    ensures EntryKey(lib, NormalizeEntry(lib, a)) == EntryKey(lib, NormalizeEntry(lib, b)) <==> SameEntry(lib, a, b)
  {
    PrintedEntry(lib, NormalizeEntry(lib, a));
    PrintedEntry(lib, NormalizeEntry(lib, b));
  }

  lemma PrintedEntry(lib: Libraries, e: EndpointEntry)
    requires lib.JsonRoundTrips()
    ensures lib.parseJson(EntryKey(lib, e)) == Some(if e.UriEntry? then JsonString(e.uri) else JsonObject(e.members))
  {
    assert lib.PrintsWell(if e.UriEntry? then JsonString(e.uri) else JsonObject(e.members));
  }

  lemma EndpointRepeats(lib: Libraries, e: ServiceEndpoint, i: nat)
    requires lib.JsonRoundTrips()
    ensures RepeatsAt(EndpointKeys(lib, NormalizeEndpoint(lib, e)), i) <==> e.Array? && RepeatsEntry(lib, e.entries, i)
  {
    var keys := EndpointKeys(lib, NormalizeEndpoint(lib, e));
    if e.Array? && i < |e.entries| {
      forall k | 0 <= k < i ensures keys[k] == keys[i] <==> SameEntry(lib, e.entries[k], e.entries[i]) {
        KeysOfEntries(lib, e.entries[k], e.entries[i]);
      }
      if RepeatsEntry(lib, e.entries, i) {
        var k :| 0 <= k < i && SameEntry(lib, e.entries[k], e.entries[i]);
        assert keys[..i][k] == keys[i];
      }
    }
  }

  lemma RepeatsByIndex(keys: Ids, i: nat)
    ensures RepeatsAt(keys, i) <==> i < |keys| && exists k :: 0 <= k < i && keys[k] == keys[i]
  {
    if k :| 0 <= k < i < |keys| && keys[k] == keys[i] {
      assert keys[..i][k] == keys[i];
    }
  }

  lemma ServiceRepeats(lib: Libraries, doc: Document, view: DocumentView, i: nat)
    ensures RepeatsAt(ServiceIds(doc), i) <==> Deserves(lib, doc, view, DuplicateServiceId(i))
  {
    var ids := ServiceIds(doc);
    RepeatsByIndex(ids, i);
    if doc.service.Some? {
      var services := doc.service.value;
      assert forall k :: 0 <= k < |services| ==> ids[k] == services[k].id;
    }
  }

  /** Normalising endpoints leaves every other claim alone. */
  lemma NormalizedClaim(lib: Libraries, doc: Document, issue: Issue)
    requires !issue.DuplicateEndpoint?
    ensures Claim(lib, WithNormalizedEndpoints(lib, doc), issue) == Claim(lib, doc, issue)
  {
    var n := WithNormalizedEndpoints(lib, doc);
    assert ServiceIds(n) == ServiceIds(doc) && MethodIds(n) == MethodIds(doc) && n.id == doc.id;
    if issue.DuplicateRelationEntry? || issue.DanglingRelationEntry? {
      assert RelationIds(n, issue.relation) == RelationIds(doc, issue.relation);
    }
  }

  lemma ClaimByName(lib: Libraries, doc: Document, view: DocumentView, issue: Issue)
    requires "did:" <= doc.id && ViewOf(doc, view) && !issue.DuplicateEndpoint?
    ensures Claim(lib, doc, issue) <==> Deserves(lib, doc, view, issue)
  {
    match issue
    case DuplicateMethodId(i) => MethodByName(doc, view, i);
    case DuplicateRelationEntry(r, i) => RelationByName(doc, view, r, i);
    case DanglingRelationEntry(r, i) => RelationByName(doc, view, r, i);
    case DuplicateServiceId(i) => ServiceRepeats(lib, doc, view, i);
  }

  lemma ClaimsByName(lib: Libraries, doc: Document, view: DocumentView, issue: Issue)
    requires lib.JsonRoundTrips() && "did:" <= doc.id && ViewOf(doc, view)
    ensures Claim(lib, WithNormalizedEndpoints(lib, doc), issue) <==> Deserves(lib, doc, view, issue)
  {
    if issue.DuplicateEndpoint? {
      EndpointByEntry(lib, doc, view, issue.service, issue.index);
    } else {
      NormalizedClaim(lib, doc, issue);
      ClaimByName(lib, doc, view, issue);
    }
  }

  lemma EndpointByEntry(lib: Libraries, doc: Document, view: DocumentView, s: nat, i: nat)
    requires lib.JsonRoundTrips()
    ensures Claim(lib, WithNormalizedEndpoints(lib, doc), DuplicateEndpoint(s, i))
        <==> Deserves(lib, doc, view, DuplicateEndpoint(s, i))
  {
    if doc.service.Some? && s < |doc.service.value| {
      EndpointRepeats(lib, doc.service.value[s].endpoint, i);
    }
  }

  lemma MethodByName(doc: Document, view: DocumentView, i: nat)
    requires "did:" <= doc.id && ViewOf(doc, view)
    ensures RepeatsAt(Canonicals(doc.id, MethodIds(doc)), i) <==> i < |view.methods| && view.methods[i] in view.methods[..i]
  {
    ViewLists(doc, view, UndefinedRelation);
    if i < |view.methods| {
      RepeatsByName(doc.id, view.methods, MethodIds(doc), i);
    }
  }

  lemma RelationByName(doc: Document, view: DocumentView, relation: Relation, i: nat)
    requires "did:" <= doc.id && ViewOf(doc, view)
    ensures var names := Entries(view, relation);
            && (RelationClaim(doc, relation, i, true) <==> i < |names| && names[i] in names[..i])
            && (RelationClaim(doc, relation, i, false) <==>
                i < |names| && names[i] !in names[..i] && names[i] !in view.methods)
  {
    var names, ids := Entries(view, relation), RelationIds(doc, relation);
    ViewLists(doc, view, relation);
    if i < |names| {
      RepeatsByName(doc.id, names, ids, i);
      MemberByName(doc.id, view.methods, MethodIds(doc), ids[i], names[i]);
    }
  }

  /** What the validator reports: exactly the issues that the names and entries of the document deserve.
      How an id is spelled makes no difference. */
  lemma ReportsByName(lib: Libraries, doc: Document, view: DocumentView, issues: seq<Issue>)
    requires lib.JsonRoundTrips() && "did:" <= doc.id && ViewOf(doc, view) && Reported(lib, doc, issues)
    ensures forall issue :: issue in issues <==> Deserves(lib, doc, view, issue)
  {
    forall issue ensures issue in issues <==> Deserves(lib, doc, view, issue) {
      ClaimsByName(lib, doc, view, issue);
    }
  }

  /** Documents that spell the same names and have the same services get the same report. */
  lemma SpellingsReportAlike(lib: Libraries, a: Document, b: Document, view: DocumentView,
                             issuesA: seq<Issue>, issuesB: seq<Issue>)
    requires lib.JsonRoundTrips() && "did:" <= a.id && ViewOf(a, view) && Reported(lib, a, issuesA)
    requires "did:" <= b.id && ViewOf(b, view) && Reported(lib, b, issuesB)
    requires a.service == b.service
    ensures issuesA == issuesB
  {
    ReportsByName(lib, a, view, issuesA);
    ReportsByName(lib, b, view, issuesB);
    forall issue ensures issue in issuesA <==> issue in issuesB {
      assert Deserves(lib, a, view, issue) == Deserves(lib, b, view, issue);
    }
    InOrderIsUnique(issuesA, issuesB);
  }

  /** Where issues stand in a report: methods, then the relations one after the other, then the services,
      each with its id before its endpoint entries. */
  lemma ReportOrder(m: nat, n: nat, i: nat, j: nat, p: nat, q: nat)
    requires m < n && i < j < 5
    ensures var order := [Authentication, AssertionMethod, KeyAgreement, CapabilityInvocation, CapabilityDelegation];
            && InOrder([DuplicateMethodId(m), DuplicateMethodId(n), DuplicateRelationEntry(order[i], p),
                        DanglingRelationEntry(order[j], q), DuplicateServiceId(m), DuplicateEndpoint(m, p),
                        DuplicateServiceId(n), DuplicateEndpoint(n, q)])
            && InOrder([DanglingRelationEntry(order[i], m), DuplicateRelationEntry(order[i], n)])
            && InOrder([DuplicateEndpoint(p, m), DuplicateEndpoint(p, n)])
  {
    var order := [Authentication, AssertionMethod, KeyAgreement, CapabilityInvocation, CapabilityDelegation];
    assert RelationRank(order[i]) == i + 1 && RelationRank(order[j]) == j + 1;
  }
}
