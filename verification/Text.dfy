/** The string operations of the Rust standard library that the DID code relies on. */
module Text {
  import opened Prelude

  /** The Unicode `White_Space` property, which `str::trim` strips. */
  predicate IsWhitespace(c: char) {
    || '\t' <= c <= '\r'
    || c == ' '
    || c == '\U{85}'
    || c == '\U{A0}'
    || c == '\U{1680}'
    || '\U{2000}' <= c <= '\U{200A}'
    || c == '\U{2028}'
    || c == '\U{2029}'
    || c == '\U{202F}'
    || c == '\U{205F}'
    || c == '\U{3000}'
  }

  predicate IsDigit(c: char) { '0' <= c <= '9' }

  predicate IsAlphabetic(c: char) { 'a' <= c <= 'z' || 'A' <= c <= 'Z' }

  predicate IsAlphanumeric(c: char) { IsAlphabetic(c) || IsDigit(c) }

  function TrimStart(s: string): string {
    if s != "" && IsWhitespace(s[0]) then TrimStart(s[1..]) else s
  }

  function TrimEnd(s: string): string {
    if s != "" && IsWhitespace(s[|s| - 1]) then TrimEnd(s[..|s| - 1]) else s
  }

  function Trim(s: string): string { TrimEnd(TrimStart(s)) }

  /** No whitespace at either end. */
  predicate Trimmed(s: string) {
    s != "" ==> !IsWhitespace(s[0]) && !IsWhitespace(s[|s| - 1])
  }

  lemma {:induction false} TrimEndShape(s: string)
    ensures TrimEnd(s) <= s
    ensures TrimEnd(s) != "" ==> !IsWhitespace(TrimEnd(s)[|TrimEnd(s)| - 1])
  {
    if s != "" && IsWhitespace(s[|s| - 1]) {
      TrimEndShape(s[..|s| - 1]);
    }
  }

  lemma {:induction false} TrimStartShape(s: string)
    ensures TrimStart(s) != "" ==> !IsWhitespace(TrimStart(s)[0])
  {
    if s != "" && IsWhitespace(s[0]) {
      TrimStartShape(s[1..]);
    }
  }

  /** Trimming always leaves a trimmed string, and leaves a trimmed string alone. */
  lemma TrimIsTrimmed(s: string)
    ensures Trimmed(Trim(s))
    ensures Trimmed(s) ==> Trim(s) == s
  {
    TrimStartShape(s);
    TrimEndShape(TrimStart(s));
  }

  /** The whitespace characters by code point. */
  lemma WhitespaceTable(c: char)
    ensures IsWhitespace(c) <==>
            || c as int in {9, 10, 11, 12, 13, 32, 133, 160, 5760, 8192, 8193, 8194, 8195}
            || c as int in {8196, 8197, 8198, 8199, 8200, 8201, 8202, 8232, 8233, 8239, 8287, 12288}
  {
  }

  predicate AllWhitespace(s: string) { forall i :: 0 <= i < |s| ==> IsWhitespace(s[i]) }

  lemma AllWhitespaceConcat(a: string, b: string)
    requires AllWhitespace(a) && AllWhitespace(b)
    ensures AllWhitespace(a + b)
  {
  }

  lemma Regrouped(s: string, left: string, right: string)
    requires s != "" && s[1..] == left + right
    ensures s == [s[0]] + left + right
  {
  }

  lemma {:induction false} TrimStartCut(s: string) returns (left: string)
    ensures s == left + TrimStart(s) && AllWhitespace(left)
  {
    if s != "" && IsWhitespace(s[0]) {
      var rest := TrimStartCut(s[1..]);
      left := [s[0]] + rest;
      AllWhitespaceConcat([s[0]], rest);
      Regrouped(s, rest, TrimStart(s[1..]));
    } else {
      left := "";
    }
  }

  lemma {:induction false} TrimEndCut(s: string) returns (right: string)
    ensures s == TrimEnd(s) + right && AllWhitespace(right)
  {
    if s != "" && IsWhitespace(s[|s| - 1]) {
      var rest := TrimEndCut(s[..|s| - 1]);
      right := rest + [s[|s| - 1]];
      AllWhitespaceConcat(rest, [s[|s| - 1]]);
      assert s == s[..|s| - 1] + [s[|s| - 1]];
    } else {
      right := "";
    }
  }

  /** Trimming cuts off whitespace at both ends and nothing else. */
  lemma TrimCuts(s: string) returns (left: string, right: string)
    ensures s == left + Trim(s) + right && AllWhitespace(left) && AllWhitespace(right)
    ensures Trimmed(Trim(s))
  {
    left := TrimStartCut(s);
    right := TrimEndCut(TrimStart(s));
    TrimIsTrimmed(s);
    assert left + (Trim(s) + right) == left + Trim(s) + right;
  }

  /** The index of the first occurrence of `c`. */
  function Find(s: string, c: char): (r: Option<nat>)
    ensures r.Some? ==> r.value < |s| && s[r.value] == c && c !in s[..r.value]
    ensures r.None? <==> c !in s
  {
    if s == "" then None
    else if s[0] == c then Some(0)
    else
      assert s == [s[0]] + s[1..];
      match Find(s[1..], c)
      case None => None
      case Some(i) =>
        assert s[..i + 1] == [s[0]] + s[1..][..i];
        Some(i + 1)
  }

  /** The first occurrence is the only one with nothing equal before it. */
  lemma FindIs(s: string, c: char, i: nat)
    requires i < |s| && s[i] == c && c !in s[..i]
    ensures Find(s, c) == Some(i)
  {
    assert Find(s, c).Some?;
  }

  /** The index of the last occurrence of `c`. */
  function FindLast(s: string, c: char): (r: Option<nat>)
    ensures r.Some? ==> r.value < |s| && s[r.value] == c && c !in s[r.value + 1..]
    ensures r.None? <==> c !in s
  {
    if s == "" then None
    else if s[|s| - 1] == c then Some(|s| - 1)
    else
      var t := s[..|s| - 1];
      assert s == t + [s[|s| - 1]];
      match FindLast(t, c)
      case None => None
      case Some(i) =>
        assert s[i + 1..] == t[i + 1..] + [s[|s| - 1]];
        Some(i)
  }

  /** The last occurrence is the only one with nothing equal after it. */
  lemma FindLastIs(s: string, c: char, i: nat)
    requires i < |s| && s[i] == c && c !in s[i + 1..]
    ensures FindLast(s, c) == Some(i)
  {
    assert FindLast(s, c).Some?;
  }

  /** The pieces of `s` between occurrences of `c`; there is always at least one. */
  function Split(s: string, c: char): (parts: seq<string>)
    ensures |parts| >= 1
    decreases |s|
  {
    match Find(s, c)
    case None => [s]
    case Some(i) => [s[..i]] + Split(s[i + 1..], c)
  }

  /** The pieces put back together with `c` between them. */
  function Join(parts: seq<string>, c: char): string
    requires |parts| >= 1
  {
    if |parts| == 1 then parts[0] else parts[0] + [c] + Join(parts[1..], c)
  }

  lemma {:induction false} JoinSplit(s: string, c: char)
    ensures Join(Split(s, c), c) == s
    ensures forall p | p in Split(s, c) :: c !in p
    decreases |s|
  {
    match Find(s, c)
    case None =>
    case Some(i) =>
      JoinSplit(s[i + 1..], c);
      assert Split(s, c)[1..] == Split(s[i + 1..], c);
      assert s == s[..i] + [c] + s[i + 1..];
  }

  lemma {:induction false} SplitJoin(parts: seq<string>, c: char)
    requires |parts| >= 1
    requires forall p | p in parts :: c !in p
    ensures Split(Join(parts, c), c) == parts
    decreases |parts|
  {
    var s := Join(parts, c);
    if |parts| == 1 {
      assert parts == [parts[0]];
      assert c !in s;
    } else {
      var i := |parts[0]|;
      assert s[..i] == parts[0];
      FindIs(s, c, i);
      assert s[i + 1..] == Join(parts[1..], c);
      SplitJoin(parts[1..], c);
      assert parts == [parts[0]] + parts[1..];
    }
  }

  /** `has_uri_scheme`: a letter, then letters, digits, `+`, `.` or `-`, up to a colon. */
  predicate HasUriScheme(s: string) {
    s != "" && IsAlphabetic(s[0]) && SchemeTail(s[1..])
  }

  predicate SchemeTail(s: string) {
    s != "" && (s[0] == ':' || (IsSchemeChar(s[0]) && SchemeTail(s[1..])))
  }

  predicate IsSchemeChar(c: char) { IsAlphanumeric(c) || c in "+.-" }

  /** A string has a scheme exactly when it starts with a letter and only scheme characters
      come before its first colon. */
  lemma {:induction false} SchemeTailMeaning(s: string)
    ensures SchemeTail(s) <==>
            Find(s, ':').Some? && forall c | c in s[..Find(s, ':').value] :: IsSchemeChar(c)
  {
    if s == "" {
    } else if s[0] == ':' {
      FindIs(s, ':', 0);
    } else {
      SchemeTailMeaning(s[1..]);
      match Find(s, ':')
      case None =>
      case Some(i) => assert s[..i] == [s[0]] + s[1..][..i - 1];
    }
  }

  function ToLower(c: char): char {
    if 'A' <= c <= 'Z' then (c as int + 32) as char else c
  }

  /** `to_ascii_lowercase`. */
  function Lowercase(s: string): (r: string) {
    seq(|s|, i requires 0 <= i < |s| => ToLower(s[i]))
  }

  /** Lower-casing moves the 26 capital letters and leaves every other character where it is. */
  lemma LowercaseTable(s: string, i: nat)
    requires i < |s|
    ensures |Lowercase(s)| == |s|
    ensures 65 <= s[i] as int <= 90 ==> Lowercase(s)[i] as int == s[i] as int + 32
    ensures !(65 <= s[i] as int <= 90) ==> Lowercase(s)[i] == s[i]
  {
  }

  /** A scheme is a letter and then letters, digits, `+`, `.` and `-` up to a colon. */
  ghost predicate SchemeEndsAt(s: string, i: nat) {
    && 0 < i < |s| && s[i] == ':'
    && ('a' <= s[0] <= 'z' || 'A' <= s[0] <= 'Z')
    && forall k :: 0 < k < i ==>
         'a' <= s[k] <= 'z' || 'A' <= s[k] <= 'Z' || '0' <= s[k] <= '9' || s[k] == '+' || s[k] == '.' || s[k] == '-'
  }

  lemma SchemeMeaning(s: string)
    ensures HasUriScheme(s) <==> exists i: nat :: SchemeEndsAt(s, i)
  {
    if s != "" {
      var tail := s[1..];
      SchemeTailMeaning(tail);
      SchemeChars(s);
      if HasUriScheme(s) {
        var i := Find(tail, ':').value;
        forall k | 0 < k < i + 1 ensures IsSchemeChar(s[k]) {
          assert s[k] == tail[..i][k - 1];
        }
        assert SchemeEndsAt(s, i + 1);
      }
      if i: nat :| SchemeEndsAt(s, i) {
        assert tail[i - 1] == ':';
        forall k | 0 <= k < i - 1 ensures IsSchemeChar(tail[k]) && tail[k] != ':' {
          assert tail[k] == s[k + 1];
        }
        FindIs(tail, ':', i - 1);
      }
    }
  }

  lemma SchemeChars(s: string)
    ensures forall k :: 0 <= k < |s| ==>
              (IsSchemeChar(s[k]) <==>
               'a' <= s[k] <= 'z' || 'A' <= s[k] <= 'Z' || '0' <= s[k] <= '9' || s[k] == '+' || s[k] == '.' || s[k] == '-')
  {
  }

  lemma DidIsScheme(s: string)
    requires "did:" <= s
    ensures HasUriScheme(s)
  {
    assert s[0] == 'd' && s[1] == 'i' && s[2] == 'd' && s[3] == ':';
    assert SchemeEndsAt(s, 3);
    SchemeMeaning(s);
  }
}
