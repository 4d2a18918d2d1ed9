/** Ids and service types on their way to the ledger and back. */
module LedgerUtils {
  import opened Prelude
  import opened Text
  import opened DidTypes
  import opened Foreign
  import opened DidDocument

  datatype LedgerUtilsError =
    | EmptyId
    | NotARelativeOrDidUrl
    | EmptyFragment
    | SubjectMismatch
    | EmptyServiceType
    | InvalidServiceType
    | EmptyServiceTypeEntries
    | DuplicateServiceTypeEntries

  // ---------------------------------------------------------------------------
  // Ids
  // ---------------------------------------------------------------------------

  /** `normalize_fragment_id`. */
  function NormalizeFragmentId(value: string): string {
    var t := Trim(value);
    if "#" <= t then t
    else match Find(t, '#')
      case Some(i) => "#" + t[i + 1..]
      case None => "#" + t
  }

  /** `normalize_bound_fragment_id`. */
  function NormalizeBoundFragmentId(value: string, subject: string): Result<string, LedgerUtilsError> {
    var t := Trim(value);
    if t == "" then Err(EmptyId)
    else if "//" <= t then Err(NotARelativeOrDidUrl)
    else if "#" <= t then Ok(t)
    else if "did:" <= t then
      (match Find(t, '#')
       case Some(i) =>
         if 0 < i < |t| - 1 then
           if t[..i] != subject then Err(SubjectMismatch) else Ok("#" + t[i + 1..])
         else Err(EmptyFragment)
       case None => Err(EmptyFragment))
    else if "/" <= t || "." <= t || "?" <= t then Ok("#" + t)
    else if HasUriScheme(t) then Err(NotARelativeOrDidUrl)
    else Ok(NormalizeFragmentId(t))
  }

  /** `verification_method_fragment_id`. */
  function FragmentId(id: string): string {
    var raw := Trim(id);
    if "did:" <= raw then
      if '#' in raw then raw
      else
        var last := FindLast(raw, ':');
        raw + "#" + raw[(if last.Some? then last.value else |raw| - 1) + 1..]
    else if "#" <= raw || "/" <= raw || "." <= raw || "?" <= raw then raw
    else "#" + raw
  }

  /** `absolute_did_url_reference`. */
  function AbsoluteReference(did: string, id: string): string {
    var normalized := FragmentId(id);
    if "did:" <= normalized then normalized else did + normalized
  }

  /** A ledger id: trimmed and with a leading hash. */
  predicate IsLedgerId(s: string) { "#" <= s && Trimmed(s) }

  lemma HashIsNotSpace()
    ensures !IsWhitespace('#')
  {
  }

  lemma SuffixTrimmed(t: string, i: nat)
    requires Trimmed(t) && i <= |t|
    ensures IsLedgerId("#" + t[i..])
  {
    HashIsNotSpace();
    var s := "#" + t[i..];
    if i < |t| {
      assert s[|s| - 1] == t[|t| - 1];
    } else {
      assert s == "#";
    }
  }

  lemma NormalizeFragmentIdShape(value: string)
    ensures IsLedgerId(NormalizeFragmentId(value))
    ensures NormalizeFragmentId(NormalizeFragmentId(value)) == NormalizeFragmentId(value)
  {
    var t := Trim(value);
    TrimIsTrimmed(value);
    if !("#" <= t) {
      SuffixTrimmed(t, if Find(t, '#').Some? then Find(t, '#').value + 1 else 0);
    }
    TrimIsTrimmed(NormalizeFragmentId(value));
  }

  /** Text with a leading hash stays, text without a hash gets one, and of other text the part from its
      first hash on is left. */
  lemma NormalizeFragmentIdOfText(value: string, head: string, fragment: string)
    requires '#' !in head && (Trim(value) == head || Trim(value) == head + "#" + fragment)
    ensures NormalizeFragmentId(value) == if Trim(value) == head then "#" + head else "#" + fragment
  {
    var t := Trim(value);
    if t != head {
      assert t[..|head|] == head && t[|head|] == '#' && t[|head| + 1..] == fragment;
      FindIs(t, '#', |head|);
      assert head == "" ==> t == "#" + fragment;
    }
  }

  /** Every id that is stored has a leading hash, is trim-stable and is its own normal form under
      any subject. */
  lemma BoundIdShape(value: string, subject: string, other: string)
    requires NormalizeBoundFragmentId(value, subject).Ok?
    ensures var id := NormalizeBoundFragmentId(value, subject).value;
            && IsLedgerId(id) && Trim(id) == id
            && NormalizeBoundFragmentId(id, other) == Ok(id)
  {
    var t := Trim(value);
    var id := NormalizeBoundFragmentId(value, subject).value;
    TrimIsTrimmed(value);
    if "#" <= t {
    } else if "did:" <= t {
      SuffixTrimmed(t, Find(t, '#').value + 1);
    } else if "/" <= t || "." <= t || "?" <= t {
      SuffixTrimmed(t, 0);
    } else {
      NormalizeFragmentIdShape(t);
    }
    TrimIsTrimmed(id);
  }

  /** Which values are accepted: text that is no network path, is bound to the subject if it is a
      DID URL, and has no other scheme. */
  lemma BoundIdAccepts(value: string, subject: string)
    ensures NormalizeBoundFragmentId(value, subject).Ok? <==>
            var t := Trim(value);
            && t != "" && !("//" <= t)
            && (if "did:" <= t then '#' !in subject && subject + "#" < t else !HasUriScheme(t))
  {
    var t := Trim(value);
    if subject + "#" < t {
      assert t[|subject|] == '#' && t[..|subject|] == subject;
      if '#' !in subject {
        FindIs(t, '#', |subject|);
      }
    }
    if Find(t, '#').Some? {
      var i := Find(t, '#').value;
      assert t == t[..i] + "#" + t[i + 1..];
    }
  }

  /** The id that an accepted DID URL is reduced to is its fragment. */
  lemma BoundIdOfUrl(subject: string, fragment: string)
    requires "did:" <= subject && '#' !in subject && fragment != "" && Trimmed(subject + "#" + fragment)
    ensures NormalizeBoundFragmentId(subject + "#" + fragment, subject) == Ok("#" + fragment)
  {
    var t := subject + "#" + fragment;
    TrimIsTrimmed(t);
    assert t[..|subject|] == subject && t[|subject|] == '#' && t[|subject| + 1..] == fragment;
    FindIs(t, '#', |subject|);
    assert t[0] == 'd';
  }

  /** What a value without a fragment of its own is normalised to, or why it is refused. */
  lemma BoundIdOfText(value: string, subject: string)
    ensures var t, r := Trim(value), NormalizeBoundFragmentId(value, subject);
            && (t == "" ==> r == Err(EmptyId))
            && ("//" <= t ==> r == Err(NotARelativeOrDidUrl))
            && ("#" <= t ==> r == Ok(t))
            && (("/" <= t && !("//" <= t)) || "." <= t || "?" <= t ==> r == Ok("#" + t))
            && ("did:" <= t && '#' !in t ==> r == Err(EmptyFragment))
            && (HasUriScheme(t) && !("did:" <= t) ==> r == Err(NotARelativeOrDidUrl))
            && (IsBare(t) && '#' !in t ==> r == Ok("#" + t))
  {
    var t := Trim(value);
    TrimIsTrimmed(value);
    TrimIsTrimmed(t);
    if "did:" <= t {
      DidIsScheme(t);
    }
    assert HasUriScheme(t) ==> IsAlphabetic(t[0]);
  }

  /** Text that starts like a name: it is no reference by its first character and has no scheme. */
  predicate IsBare(t: string) {
    t != "" && t[0] != '#' && t[0] != '/' && t[0] != '.' && t[0] != '?' && !HasUriScheme(t)
  }

  /** What a value with text in front of its first hash is normalised to: the fragment counts, the rest
      has to be the subject if it is a DID. */
  lemma BoundIdOfReference(value: string, subject: string, head: string, fragment: string)
    requires Trim(value) == head + "#" + fragment && head != "" && '#' !in head
    ensures var r := NormalizeBoundFragmentId(value, subject);
            && ("did:" <= head ==>
                  r == if fragment == "" then Err(EmptyFragment)
                       else if head != subject then Err(SubjectMismatch)
                       else Ok("#" + fragment))
            && (IsBare(head + "#" + fragment) ==> r == Ok("#" + fragment))
  {
    var t := head + "#" + fragment;
    FirstHash(head, fragment);
    if "did:" <= t {
      DidIsScheme(t);
      BoundIdOfUrlAt(value, subject, |head|);
    } else if IsBare(t) {
      TrimIsTrimmed(value);
      TrimIsTrimmed(t);
      NormalizeFragmentIdOfText(t, head, fragment);
    }
  }

  lemma FirstHash(head: string, fragment: string)
    requires head != "" && '#' !in head
    ensures var t := head + "#" + fragment;
            && Find(t, '#') == Some(|head|) && t[..|head|] == head && t[|head| + 1..] == fragment && t[0] == head[0]
            && ("did:" <= t <==> "did:" <= head)
  {
    var t := head + "#" + fragment;
    assert t[..|head|] == head && t[|head|] == '#' && t[|head| + 1..] == fragment;
    FindIs(t, '#', |head|);
    assert "did:" <= head ==> t[..4] == head[..4];
    if "did:" <= t && |head| < 4 {
      assert false;
    }
  }

  lemma BoundIdOfUrlAt(value: string, subject: string, i: nat)
    requires var t := Trim(value); "did:" <= t && 0 < i < |t| && Find(t, '#') == Some(i)
    ensures var t, r := Trim(value), NormalizeBoundFragmentId(value, subject);
            r == if t[i + 1..] == "" then Err(EmptyFragment)
                 else if t[..i] != subject then Err(SubjectMismatch)
                 else Ok("#" + t[i + 1..])
  {
    assert Trim(value)[0] == 'd';
  }

  /** A fragment, with a hash in front, or behind the DID and a hash, is one and the same stored id. */
  lemma SpellingsOfId(value: string, subject: string, fragment: string)
    requires "did:" <= subject && '#' !in subject
    requires IsBare(fragment) && '#' !in fragment && Trimmed(fragment)
    requires Trim(value) in {fragment, "#" + fragment, subject + "#" + fragment}
    ensures NormalizeBoundFragmentId(value, subject) == Ok("#" + fragment)
  {
    BoundIdOfText(value, subject);
    if Trim(value) == subject + "#" + fragment {
      BoundIdOfReference(value, subject, subject, fragment);
    }
  }

  /** How a stored id is read: references stay as they are, a name gets a hash in front. */
  lemma FragmentIdOfText(id: string)
    ensures var t := Trim(id);
            && (t != "" && t[0] in ['#', '/', '.', '?'] ==> FragmentId(id) == t)
            && (t == "" || (t[0] !in ['#', '/', '.', '?'] && !("did:" <= t)) ==> FragmentId(id) == "#" + t)
            && ("did:" <= t && '#' in t ==> FragmentId(id) == t)
  {
    var t := Trim(id);
    if t != "" {
      assert ("#" <= t <==> t[0] == '#') && ("/" <= t <==> t[0] == '/');
      assert ("." <= t <==> t[0] == '.') && ("?" <= t <==> t[0] == '?');
    }
  }

  /** A DID without a fragment gets its last piece as the fragment. */
  lemma FragmentIdOfDid(id: string, head: string, name: string)
    requires Trim(id) == head + ":" + name && "did:" <= head + ":" && '#' !in head && '#' !in name && ':' !in name
    ensures FragmentId(id) == head + ":" + name + "#" + name
  {
    var t := head + ":" + name;
    assert t[|head|] == ':' && t[|head| + 1..] == name;
    assert t[..|head| + 1] == head + ":";
    FindLastIs(t, ':', |head|);
  }

  /** The absolute form: a DID URL is one already, any other id is put behind the DID. */
  lemma AbsoluteReferenceIs(did: string, id: string)
    ensures "did:" <= Trim(id) ==> AbsoluteReference(did, id) == FragmentId(id)
    ensures !("did:" <= Trim(id)) ==> AbsoluteReference(did, id) == did + FragmentId(id)
  {
    var t := Trim(id);
    if "did:" <= t && '#' !in t {
      assert t[3] == ':';
      var last := FindLast(t, ':').value;
      assert (t + "#" + t[last + 1..])[..4] == t[..4];
    } else if !("did:" <= t) {
      FragmentIdOfText(id);
      assert FragmentId(id) != "" ==> FragmentId(id)[0] in ['#', '/', '.', '?'];
    }
  }

  lemma MethodNameAppended(raw: string, from: nat)
    requires "did:" <= raw && Trimmed(raw) && from <= |raw|
    ensures var s := raw + "#" + raw[from..]; "did:" <= s && Trimmed(s) && '#' in s
  {
    var s := raw + "#" + raw[from..];
    assert s[|raw|] == '#' && s[0] == 'd';
    SuffixTrimmed(raw, from);
    assert s[|s| - 1] == ("#" + raw[from..])[|raw| - from];
  }

  /** Reading a stored id twice reads the same id. */
  lemma FragmentIdIdempotent(id: string)
    ensures FragmentId(FragmentId(id)) == FragmentId(id) && Trimmed(FragmentId(id))
  {
    var raw := Trim(id);
    TrimIsTrimmed(id);
    HashIsNotSpace();
    if "did:" <= raw {
      if '#' !in raw {
        assert raw[3] == ':';
        MethodNameAppended(raw, FindLast(raw, ':').value + 1);
      }
    } else if !("#" <= raw || "/" <= raw || "." <= raw || "?" <= raw) {
      SuffixTrimmed(raw, 0);
      assert raw[0..] == raw;
    }
    TrimIsTrimmed(FragmentId(id));
  }

  /** A stored id is read back unchanged and made absolute by putting the DID in front. */
  lemma LedgerIdReads(did: string, id: string)
    requires IsLedgerId(id)
    ensures FragmentId(id) == id && AbsoluteReference(did, id) == did + id
  {
    TrimIsTrimmed(id);
  }

  /** Making a stored id absolute and storing it again gives the id back, except for the bare `#`:
      that one is accepted on its own, but its absolute form has an empty fragment. */
  lemma AbsoluteThenBound(did: string, id: string)
    requires "did:" <= did && '#' !in did && IsLedgerId(id)
    ensures NormalizeBoundFragmentId(AbsoluteReference(did, id), did)
         == if id == "#" then Err(EmptyFragment) else Ok(id)
  {
    LedgerIdReads(did, id);
    HashIsNotSpace();
    var fragment := id[1..];
    assert id == "#" + fragment;
    assert did + id == did + "#" + fragment;
    var t := did + id;
    assert t[0] == 'd' && t[|t| - 1] == id[|id| - 1];
    if id == "#" {
      TrimIsTrimmed(t);
      assert t[..|did|] == did && t[|did|] == '#';
      FindIs(t, '#', |did|);
    } else {
      BoundIdOfUrl(did, fragment);
    }
  }

  // ---------------------------------------------------------------------------
  // Service types
  // ---------------------------------------------------------------------------

  function TrimAll(names: seq<string>): seq<string> {
    seq(|names|, i requires 0 <= i < |names| => Trim(names[i]))
  }

  /** How many entries are left after sorting and dropping repeats. */
  function DistinctCount(names: seq<string>): nat { |set n | n in names| }

  lemma {:induction false} DistinctCountMeaning(names: seq<string>)
    ensures DistinctCount(names) <= |names|
    ensures DistinctCount(names) == |names| <==> Distinct(names)
  {
    if names == [] {
      assert (set n | n in names) == {};
    } else {
      var last, front := names[|names| - 1], names[..|names| - 1];
      DistinctCountMeaning(front);
      assert names == front + [last];
      assert (set n | n in names) == (set n | n in front) + {last};
      if last in front {
        var i :| 0 <= i < |front| && front[i] == last;
        assert names[i] == names[|names| - 1];
        assert (set n | n in names) == (set n | n in front);
      }
    }
  }

  function StringList(names: seq<string>): Json {
    JsonArray(seq(|names|, i requires 0 <= i < |names| => JsonString(names[i])))
  }

  /** `service_type_to_ledger`. */
  function ServiceTypeToLedger(lib: Libraries, t: ServiceType): Result<string, LedgerUtilsError> {
    match t
    case One(s) => if Trim(s) == "" then Err(EmptyServiceType) else Ok(Trim(s))
    case Many(names) =>
      var normalized := TrimAll(names);
      if names == [] then Err(InvalidServiceType)
      else if "" in normalized then Err(EmptyServiceTypeEntries)
      else if DistinctCount(normalized) != |normalized| then Err(DuplicateServiceTypeEntries)
      else if |normalized| == 1 then Ok(normalized[0])
      else Ok(lib.printJson(StringList(normalized)))
  }

  /** Reading a JSON value as a list of strings. */
  function StringsOf(j: Json): Option<seq<string>> {
    if j.JsonArray? && forall item :: item in j.items ==> item.JsonString? then
      Some(seq(|j.items|, i requires 0 <= i < |j.items| && j.items[i].JsonString? => j.items[i].s))
    else None
  }

  /** `parse_service_type`, with its mapping errors as `None`. */
  function ParseServiceType(lib: Libraries, raw: string): Option<ServiceType> {
    var value := Trim(raw);
    if value == "" then None
    else if "[" <= value then
      match lib.parseJson(value)
      case None => None
      case Some(j) =>
        match StringsOf(j)
        case None => None
        case Some(parsed) =>
          var trimmed := TrimAll(parsed);
          if parsed == [] || "" in trimmed || DistinctCount(trimmed) != |trimmed| then None
          else Some(Many(trimmed))
    else Some(One(value))
  }

  /** Whitespace around a stored type does not matter, and there is no empty one. */
  lemma TypeReadTrimmed(lib: Libraries, raw: string)
    ensures ParseServiceType(lib, raw) == if Trim(raw) == "" then None else ParseServiceType(lib, Trim(raw))
  {
    TrimIsTrimmed(raw);
    TrimIsTrimmed(Trim(raw));
  }

  /** The type list as it is meant: trimmed, and a list of one as that one type. */
  function NormalType(t: ServiceType): ServiceType {
    match t
    case One(s) => One(Trim(s))
    case Many(names) => if |names| == 1 then One(Trim(names[0])) else Many(TrimAll(names))
  }

  /** A single type that reads like the start of a JSON array. */
  predicate LooksLikeList(t: ServiceType) { NormalType(t).One? && "[" <= NormalType(t).name }

  lemma TrimAllTwice(names: seq<string>)
    ensures TrimAll(TrimAll(names)) == TrimAll(names)
  {
    forall i | 0 <= i < |names| ensures Trim(Trim(names[i])) == Trim(names[i]) {
      TrimIsTrimmed(names[i]);
      TrimIsTrimmed(Trim(names[i]));
    }
  }

  /** Which service types are stored. */
  lemma ServiceTypeAccepts(lib: Libraries, t: ServiceType)
    ensures ServiceTypeToLedger(lib, t).Ok? <==>
            match NormalType(t)
            case One(s) => s != ""
            case Many(names) => names != [] && "" !in names && Distinct(names)
  {
    if t.Many? {
      DistinctCountMeaning(TrimAll(t.names));
      if |t.names| == 1 {
        assert TrimAll(t.names) == [Trim(t.names[0])];
      }
    }
  }

  /** What a service type is stored as, or why it is refused: a single type trimmed, a list of one as
      that type, a longer list as the JSON list of its trimmed entries. */
  lemma ServiceTypeStoredAs(lib: Libraries, t: ServiceType, names: seq<string>)
    requires t.Many? ==> |names| == |t.names| && forall i :: 0 <= i < |names| ==> names[i] == Trim(t.names[i])
    ensures var r := ServiceTypeToLedger(lib, t);
            match t
            case One(name) => r == if Trim(name) == "" then Err(EmptyServiceType) else Ok(Trim(name))
            case Many(_) =>
              r == if names == [] then Err(InvalidServiceType)
                   else if "" in names then Err(EmptyServiceTypeEntries)
                   else if !Distinct(names) then Err(DuplicateServiceTypeEntries)
                   else if |names| == 1 then Ok(names[0])
                   else Ok(lib.printJson(StringList(names)))
  {
    if t.Many? {
      assert TrimAll(t.names) == names;
      DistinctCountMeaning(names);
    }
  }

  /** An accepted service type is read back as its normal form exactly when it does not look like a
      list: the encoding of a single type `[…` is taken for JSON. */
  lemma ServiceTypeRoundTrip(lib: Libraries, t: ServiceType)
    requires lib.JsonRoundTrips() && ServiceTypeToLedger(lib, t).Ok?
    ensures ParseServiceType(lib, ServiceTypeToLedger(lib, t).value) == Some(NormalType(t)) <==> !LooksLikeList(t)
  {
    ServiceTypeAccepts(lib, t);
    if NormalType(t).One? {
      var s := NormalType(t).name;
      TrimIsTrimmed(if t.One? then t.name else t.names[0]);
      TrimIsTrimmed(s);
      if t.Many? {
        assert TrimAll(t.names)[0] == s;
      }
    } else {
      TrimAllTwice(t.names);
      ListRoundTrip(lib, TrimAll(t.names));
    }
  }

  lemma ListRoundTrip(lib: Libraries, names: seq<string>)
    requires lib.JsonRoundTrips() && TrimAll(names) == names
    requires names != [] && "" !in names && Distinct(names)
    ensures ParseServiceType(lib, lib.printJson(StringList(names))) == Some(Many(names))
  {
    var j := StringList(names);
    assert lib.PrintsWell(j);
    TrimIsTrimmed(lib.printJson(j));
    assert StringsOf(j).Some? && StringsOf(j).value == names;
    DistinctCountMeaning(names);
  }
}
