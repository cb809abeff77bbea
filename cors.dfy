/** The origin allow-list shared by the HTTP CORS middleware and the socket
    server (server.js): the list is read from configuration, and an origin
    is allowed when it is absent, listed exactly, or matched by a listed
    pattern with `*` wildcards. */
module Cors {
  import opened Base

  // ---------------------------------------------------------------------
  // Parsing the list

  /** Each part trimmed, in order. */
  function TrimEach(parts: seq<string>): (r: seq<string>)
    ensures |r| == |parts|
    ensures forall i :: 0 <= i < |parts| ==> r[i] == Trim(parts[i])
  {
    seq(|parts|, i requires 0 <= i < |parts| => Trim(parts[i]))
  }

  /** The non-empty strings of `s`, in order. */
  function NonEmpty(s: seq<string>): (r: seq<string>)
    ensures forall x :: x in r <==> x in s && x != []
    ensures |r| <= |s|
  {
    if s == [] then []
    else if s[0] == [] then NonEmpty(s[1..])
    else [s[0]] + NonEmpty(s[1..])
  }

  /** The trimmed, non-empty parts, in order. */
  function CleanParts(parts: seq<string>): (r: seq<string>)
    ensures forall x :: x in r <==> x != [] && exists i :: 0 <= i < |parts| && x == Trim(parts[i])
    ensures forall x :: x in r ==> Trim(x) == x
  {
    var t := TrimEach(parts);
    forall i | 0 <= i < |parts| ensures Trim(t[i]) == t[i] { TrimIdempotent(parts[i]); }
    NonEmpty(t)
  }

  /** `parseOrigins(raw)`: split on commas, trim each part, drop the empty
      ones; an absent value is the empty list. */
  function ParseOrigins(raw: Option<string>): (r: seq<string>)
    ensures forall x :: x in r ==> x != [] && Trim(x) == x && ',' !in x
  {
    var parts := Split(if raw.Some? then raw.value else "", ',');
    CleanPartsKeepChars(parts, ',');
    CleanParts(parts)
  }

  /** An unset variable gives the empty list. */
  lemma ParseAbsent()
    ensures ParseOrigins(None) == []
  {
    assert Split("", ',') == [""];
    assert TrimEach([""]) == [""];
    assert NonEmpty([""]) == [];
  }

  /** A character absent from every part is absent from every clean part. */
  lemma CleanPartsKeepChars(parts: seq<string>, c: char)
    requires forall i :: 0 <= i < |parts| ==> c !in parts[i]
    ensures forall x :: x in CleanParts(parts) ==> c !in x
  {
    forall x | x in CleanParts(parts) ensures c !in x {
      var k :| 0 <= k < |parts| && x == Trim(parts[k]);
      TrimKeepsChars(parts[k]);
    }
  }

  /** A list of clean origins survives being written as one comma-separated
      value and read back. */
  lemma {:induction false} ParseOriginsRoundTrip(origins: seq<string>)
    requires |origins| >= 1
    requires forall i :: 0 <= i < |origins| ==> origins[i] != [] && Trim(origins[i]) == origins[i] && ',' !in origins[i]
    ensures ParseOrigins(Some(Join(origins, ','))) == origins
  {
    SplitJoin(origins, ',');
    CleanPartsOfClean(origins);
  }

  lemma {:induction false} CleanPartsOfClean(parts: seq<string>)
    requires forall i :: 0 <= i < |parts| ==> parts[i] != [] && Trim(parts[i]) == parts[i]
    ensures CleanParts(parts) == parts
  {
    assert TrimEach(parts) == parts;
    NonEmptyOfNonEmpty(parts);
  }

  lemma {:induction false} NonEmptyOfNonEmpty(s: seq<string>)
    requires forall i :: 0 <= i < |s| ==> s[i] != []
    ensures NonEmpty(s) == s
  {
    if s != [] {
      NonEmptyOfNonEmpty(s[1..]);
    }
  }

  /** `ALLOW_LIST`: `CORS_ORIGINS` when set and non-empty, else the legacy
      `CORS_ORIGIN`. */
  function AllowList(corsOrigins: Option<string>, corsOrigin: Option<string>): (r: seq<string>)
    ensures corsOrigins.Some? && corsOrigins.value != [] ==> r == ParseOrigins(corsOrigins)
    ensures (corsOrigins.None? || corsOrigins.value == []) ==> r == ParseOrigins(corsOrigin)
  {
    if corsOrigins.Some? && corsOrigins.value != [] then ParseOrigins(corsOrigins) else ParseOrigins(corsOrigin)
  }

  // ---------------------------------------------------------------------
  // Wildcard patterns

  /** The characters JavaScript's `.` does not match. */
  predicate IsLineTerminator(c: char)
  {
    c == '\n' || c == '\r' || c == '\U{2028}' || c == '\U{2029}'
  }

  predicate NoLineTerminator(s: string)
  {
    forall i :: 0 <= i < |s| ==> !IsLineTerminator(s[i])
  }

  /** The pattern as the server compiles it, `^` + pattern with `.` escaped
      and `*` turned into `.*` + `$`: every `*` stands for any run of
      characters other than line terminators, every other character for
      itself. */
  predicate GlobMatch(pat: string, s: string)
    decreases |pat| + |s|
  {
    if pat == [] then s == []
    else if pat[0] == '*' then
      GlobMatch(pat[1..], s) || (s != [] && !IsLineTerminator(s[0]) && GlobMatch(pat, s[1..]))
    else s != [] && s[0] == pat[0] && GlobMatch(pat[1..], s[1..])
  }

  /** A pattern without `*` matches exactly itself. */
  lemma {:induction false} LiteralPattern(pat: string, s: string)
    requires '*' !in pat
    ensures GlobMatch(pat, s) <==> s == pat
  {
    if pat != [] && s != [] {
      LiteralPattern(pat[1..], s[1..]);
      assert pat == [pat[0]] + pat[1..] && s == [s[0]] + s[1..];
    }
  }

  /** A star-free prefix of the pattern must be matched literally. */
  lemma {:induction false} LiteralPrefix(p: string, rest: string, s: string)
    requires '*' !in p
    ensures GlobMatch(p + rest, s) <==> StartsWith(s, p) && GlobMatch(rest, s[|p|..])
  {
    if p != [] {
      assert (p + rest)[0] == p[0] && (p + rest)[1..] == p[1..] + rest;
      if s != [] {
        LiteralPrefix(p[1..], rest, s[1..]);
        assert StartsWith(s, p) <==> s[0] == p[0] && StartsWith(s[1..], p[1..]);
        if StartsWith(s, p) {
          assert s[|p|..] == s[1..][|p| - 1..];
        }
      }
    } else {
      assert p + rest == rest && s[0..] == s;
    }
  }

  /** `*q` accepts any run without line terminators followed by `q`... */
  lemma {:induction false} StarAccepts(q: string, f: string)
    requires '*' !in q && NoLineTerminator(f)
    ensures GlobMatch(['*'] + q, f + q)
  {
    assert (['*'] + q)[1..] == q;
    LiteralPattern(q, q);
    if f == [] {
      assert f + q == q;
    } else {
      assert (f + q)[0] == f[0] && !IsLineTerminator(f[0]);
      StarAccepts(q, f[1..]);
      assert (f + q)[1..] == f[1..] + q;
      assert (['*'] + q)[0] == '*';
      assert GlobMatch(['*'] + q, (f + q)[1..]);
    }
  }

  /** ...and nothing else. */
  lemma {:induction false} StarOnlyAccepts(q: string, s: string) returns (f: string)
    requires '*' !in q && GlobMatch(['*'] + q, s)
    ensures s == f + q && NoLineTerminator(f)
    decreases |s|
  {
    assert (['*'] + q)[1..] == q;
    if GlobMatch(q, s) {
      LiteralPattern(q, s);
      f := [];
    } else {
      assert s != [] && !IsLineTerminator(s[0]) && GlobMatch(['*'] + q, s[1..]);
      var g := StarOnlyAccepts(q, s[1..]);
      f := [s[0]] + g;
      assert s == [s[0]] + s[1..];
    }
  }

  /** A pattern with one wildcard, such as `https://app-*.example.com`,
      allows exactly the strings made of its two fixed parts with a run of
      characters other than line terminators between them. */
  lemma OneWildcard(p: string, q: string, s: string)
    requires '*' !in p && '*' !in q
    ensures GlobMatch(p + ['*'] + q, s) <==> exists f :: s == p + f + q && NoLineTerminator(f)
  {
    assert p + ['*'] + q == p + (['*'] + q);
    LiteralPrefix(p, ['*'] + q, s);
    if GlobMatch(p + ['*'] + q, s) {
      var f := StarOnlyAccepts(q, s[|p|..]);
      assert s == s[..|p|] + s[|p|..];
      assert s == p + f + q;
    }
    if exists f :: s == p + f + q && NoLineTerminator(f) {
      var f :| s == p + f + q && NoLineTerminator(f);
      assert StartsWith(s, p) by { assert s[..|p|] == p; }
      assert s[|p|..] == f + q;
      StarAccepts(q, f);
    }
  }

  // ---------------------------------------------------------------------
  // The decision

  /** Whether some pattern with a `*` in `patterns` matches `origin`. */
  function SomePatternMatches(patterns: seq<string>, origin: string): (ok: bool)
    ensures ok <==> exists i :: 0 <= i < |patterns| && '*' in patterns[i] && GlobMatch(patterns[i], origin)
  {
    if patterns == [] then false
    else
      var rest := SomePatternMatches(patterns[1..], origin);
      assert forall i :: 1 <= i < |patterns| ==> patterns[i] == patterns[1..][i - 1];
      ('*' in patterns[0] && GlobMatch(patterns[0], origin)) || rest
  }

  /** `isAllowedOrigin(origin)`: requests without an origin (or with an
      empty one) are allowed, then exact entries, then wildcard entries. */
  function IsAllowedOrigin(allow: seq<string>, origin: Option<string>): (ok: bool)
    ensures origin.None? || origin.value == [] ==> ok
    ensures origin.Some? && origin.value in allow ==> ok
    ensures ok && origin.Some? && origin.value != [] && origin.value !in allow ==>
              exists i :: 0 <= i < |allow| && '*' in allow[i] && GlobMatch(allow[i], origin.value)
    ensures origin.Some? && (exists i :: 0 <= i < |allow| && '*' in allow[i] && GlobMatch(allow[i], origin.value)) ==> ok
  {
    match origin
    case None => true
    case Some(o) => o == [] || o in allow || SomePatternMatches(allow, o)
  }

  /** An entry without `*` allows only itself: a present origin that is
      not listed is allowed only through a wildcard entry. */
  lemma LiteralEntriesAreExact(allow: seq<string>, origin: string)
    requires origin != [] && origin !in allow
    requires forall i :: 0 <= i < |allow| ==> '*' !in allow[i]
    ensures !IsAllowedOrigin(allow, Some(origin))
  {
  }
}
