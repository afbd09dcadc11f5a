/** Strings as the source's runtime sees them: white space, lines, trimming and searching. */
module Text {
  import opened Wrappers

  /** White space and line terminators; the zero-width space U+200B is not among them. */
  predicate IsSpace(c: char) {
    || c == ' ' || '\t' <= c <= '\r' || c == '\U{A0}' || c == '\U{1680}' || '\U{2000}' <= c <= '\U{200A}'
    || c == '\U{2028}' || c == '\U{2029}' || c == '\U{202F}' || c == '\U{205F}' || c == '\U{3000}' || c == '\U{FEFF}'
  }

  function TrimStart(s: string): (r: string)
    ensures |r| <= |s|
  {
    if s != "" && IsSpace(s[0]) then TrimStart(s[1..]) else s
  }

  function TrimEnd(s: string): (r: string)
    ensures |r| <= |s|
  {
    if s != "" && IsSpace(s[|s| - 1]) then TrimEnd(s[..|s| - 1]) else s
  }

  function Trim(s: string): string {
    TrimEnd(TrimStart(s))
  }

  /** CRLF and CR become LF, as when a file or a template is read. */
  function Normalize(raw: string): string {
    if raw == "" then ""
    else if raw[0] == '\r' then ['\n'] + Normalize(if |raw| > 1 && raw[1] == '\n' then raw[2..] else raw[1..])
    else [raw[0]] + Normalize(raw[1..])
  }

  predicate StartsWith(s: string, prefix: string) {
    |s| >= |prefix| && s[..|prefix|] == prefix
  }

  predicate MatchesAt(s: string, pattern: string, at: nat) {
    at + |pattern| <= |s| && s[at..at + |pattern|] == pattern
  }

  /** The first position at or after `from` where the pattern occurs. */
  function IndexOf(s: string, pattern: string, from: nat): (r: Option<nat>)
    ensures r.Some? ==> from <= r.value <= |s| - |pattern|
    decreases |s| - from
  {
    if from + |pattern| > |s| then None
    else if MatchesAt(s, pattern, from) then Some(from)
    else IndexOf(s, pattern, from + 1)
  }

  lemma {:induction false} IndexOfIsFirst(s: string, pattern: string, from: nat)
    ensures var r := IndexOf(s, pattern, from);
      && (r.Some? ==> from <= r.value && MatchesAt(s, pattern, r.value))
      && (forall i :: from <= i && (r.Some? ==> i < r.value) ==> !MatchesAt(s, pattern, i))
    decreases |s| - from
  {
    if from + |pattern| > |s| || MatchesAt(s, pattern, from) {
    } else {
      IndexOfIsFirst(s, pattern, from + 1);
    }
  }

  /** An occurrence inside a piece of `s`, seen from `s` and from the piece. */
  lemma MatchShift(s: string, piece: string, from: nat, pattern: string, at: nat)
    requires from + |piece| <= |s| && s[from..from + |piece|] == piece && at + |pattern| <= |piece|
    ensures MatchesAt(piece, pattern, at) <==> MatchesAt(s, pattern, from + at)
  {
    var n := |pattern|;
    var a, b := piece[at..at + n], s[from + at..from + at + n];
    forall j | 0 <= j < n
      ensures a[j] == b[j]
    {
      assert piece[at + j] == s[from..from + |piece|][at + j];
    }
    assert a == b;
  }

  lemma Mismatch(s: string, pattern: string, at: nat, j: nat)
    requires at + j < |s| && j < |pattern| && s[at + j] != pattern[j]
    ensures !MatchesAt(s, pattern, at)
  {
  }

  predicate SingleLine(s: string) {
    '\n' !in s
  }

  /** The pieces between newlines; always at least one. */
  function Lines(s: string): (r: seq<string>)
    ensures |r| >= 1
  {
    if s == "" then [""]
    else
      var rest := Lines(s[1..]);
      if s[0] == '\n' then [""] + rest else [[s[0]] + rest[0]] + rest[1..]
  }

  lemma {:induction false} LinesAreSingle(s: string)
    ensures forall line :: line in Lines(s) ==> SingleLine(line)
  {
    if s == "" {
    } else {
      LinesAreSingle(s[1..]);
      var rest := Lines(s[1..]);
      assert SingleLine(rest[0]);
      if s[0] != '\n' {
        assert SingleLine([s[0]] + rest[0]);
      }
    }
  }

  function Unlines(lines: seq<string>): string {
    if lines == [] then ""
    else if |lines| == 1 then lines[0]
    else lines[0] + "\n" + Unlines(lines[1..])
  }

  lemma {:induction false} UnlinesOfLines(s: string)
    ensures Unlines(Lines(s)) == s
  {
    if s == "" {
    } else {
      var rest := Lines(s[1..]);
      UnlinesOfLines(s[1..]);
      if s[0] == '\n' {
        assert ([""] + rest)[1..] == rest;
        assert Unlines([""] + rest) == "\n" + s[1..];
      } else {
        var lines := [[s[0]] + rest[0]] + rest[1..];
        assert lines[1..] == rest[1..];
        assert Unlines(lines) == [s[0]] + Unlines(rest);
      }
    }
  }

  lemma {:induction false} LinesOfLine(line: string)
    requires SingleLine(line)
    ensures Lines(line) == [line]
  {
    if line == "" {
    } else {
      assert line[0] in line;
      LinesOfLine(line[1..]);
      assert [line[0]] + line[1..] == line;
    }
  }

  lemma {:induction false} LinesCons(line: string, rest: string)
    requires SingleLine(line)
    ensures Lines(line + "\n" + rest) == [line] + Lines(rest)
  {
    var s := line + "\n" + rest;
    if line == "" {
      assert s[1..] == rest;
    } else {
      assert line[0] in line;
      assert s[1..] == line[1..] + "\n" + rest;
      LinesCons(line[1..], rest);
      assert [line[0]] + line[1..] == line;
      assert ([line[1..]] + Lines(rest))[1..] == Lines(rest);
    }
  }

  /** Splitting what was joined gives the lines back. */
  lemma {:induction false} LinesOfUnlines(lines: seq<string>)
    requires lines != [] && forall line :: line in lines ==> SingleLine(line)
    ensures Lines(Unlines(lines)) == lines
  {
    if |lines| == 1 {
      LinesOfLine(lines[0]);
    } else {
      LinesOfUnlines(lines[1..]);
      LinesCons(lines[0], Unlines(lines[1..]));
    }
  }

  // Carriage returns ----------------------------------------------------------------------------

  ghost predicate NoReturns(s: string) {
    '\r' !in s
  }

  lemma {:induction false} NormalizeRemovesReturns(raw: string)
    ensures NoReturns(Normalize(raw))
    decreases |raw|
  {
    if raw == "" {
    } else {
      NormalizeRemovesReturns(if raw[0] == '\r' && |raw| > 1 && raw[1] == '\n' then raw[2..] else raw[1..]);
    }
  }

  lemma {:induction false} NormalizeKeeps(s: string)
    requires NoReturns(s)
    ensures Normalize(s) == s
  {
    if s == "" {
    } else {
      assert s[0] in s;
      NormalizeKeeps(s[1..]);
      assert [s[0]] + s[1..] == s;
    }
  }

  lemma ReturnsInParts(a: string, b: string, c: string)
    ensures NoReturns(a + b + c) <==> NoReturns(a) && NoReturns(b) && NoReturns(c)
  {
  }

  lemma {:induction false} UnlinesNoReturns(lines: seq<string>)
    ensures NoReturns(Unlines(lines)) <==> forall line :: line in lines ==> NoReturns(line)
  {
    if |lines| == 1 {
      assert lines == [lines[0]];
    } else if |lines| > 1 {
      UnlinesNoReturns(lines[1..]);
      assert lines == [lines[0]] + lines[1..];
      ReturnsInParts(lines[0], "\n", Unlines(lines[1..]));
    }
  }

  // ---------------------------------------------------------------------------------------------
  // String order by code units
  // ---------------------------------------------------------------------------------------------

  predicate AtMost(a: string, b: string) {
    a == "" || (b != "" && (a[0] < b[0] || (a[0] == b[0] && AtMost(a[1..], b[1..]))))
  }

  predicate Less(a: string, b: string) {
    a != b && AtMost(a, b)
  }

  lemma {:induction false} AtMostIsTotal(a: string, b: string)
    ensures (AtMost(a, b) || AtMost(b, a)) && (AtMost(a, b) && AtMost(b, a) ==> a == b)
  {
    if a == "" || b == "" || a[0] != b[0] {
    } else {
      AtMostIsTotal(a[1..], b[1..]);
      assert a == [a[0]] + a[1..] && b == [b[0]] + b[1..];
    }
  }

  lemma {:induction false} AtMostIsTransitive(a: string, b: string, c: string)
    requires AtMost(a, b) && AtMost(b, c)
    ensures AtMost(a, c)
  {
    if a == "" || a[0] != b[0] || b[0] != c[0] {
    } else {
      AtMostIsTransitive(a[1..], b[1..], c[1..]);
    }
  }

  lemma LessIsTransitive(a: string, b: string, c: string)
    requires Less(a, b) && Less(b, c)
    ensures Less(a, c)
  {
    AtMostIsTransitive(a, b, c);
    AtMostIsTotal(a, b);
  }
}
