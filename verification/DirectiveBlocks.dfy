/**
 Which directive lines of a template keep their attribute block to themselves: a value gets a brace
 into such a line exactly when it stands where the line's first brace does.
 */
module DirectiveBlocks {
  import opened Wrappers
  import opened Text
  import opened Templates
  import opened TemplateSafety

  // ---------------------------------------------------------------------------------------------
  // Braces
  // ---------------------------------------------------------------------------------------------

  /** The braces of a text, in order. */
  function Braces(s: string): string {
    if s == "" then "" else (if s[0] == '{' || s[0] == '}' then [s[0]] else "") + Braces(s[1..])
  }

  lemma JoinHead(a: string, b: string)
    requires a != ""
    ensures (a + b)[0] == a[0] && (a + b)[1..] == a[1..] + b
  {
  }

  lemma {:induction false} BracesOfJoin(a: string, b: string)
    ensures Braces(a + b) == Braces(a) + Braces(b)
  {
    if a == "" {
      assert a + b == b;
    } else {
      JoinHead(a, b);
      BracesOfJoin(a[1..], b);
    }
  }

  lemma {:induction false} NoBraces(s: string)
    requires '{' !in s && '}' !in s
    ensures Braces(s) == ""
  {
    if s == "" {
    } else {
      assert s[0] in s;
      NoBraces(s[1..]);
    }
  }

  lemma BracesOfCharacter(c: char)
    ensures Braces([c]) == if c == '{' || c == '}' then [c] else ""
  {
    assert [c][1..] == "";
  }

  /** Filling puts no brace into the line, and takes none out: the filled line has the template's own. */
  ghost predicate BracesAreKept(line: string, values: Values) {
    Braces(FilledLine(line, values, Noma)) == Braces(Neutral(line, values))
  }

  // ---------------------------------------------------------------------------------------------
  // Filling
  // ---------------------------------------------------------------------------------------------

  /** Every known placeholder from `pos` on lies in the span. */
  ghost predicate AllInSpan(line: string, pos: nat, names: set<string>, span: Option<Span>) {
    forall q :: pos <= q < |line| && PlaceholderFollows(line, q, names) ==> InSpan(span, q)
  }

  lemma PieceInSpan(line: string, pos: nat, p: Placeholder, values: Values, span: Option<Span>)
    requires pos < |line| && PlaceholderAt(line, pos) == Some(p) && p.name in values && InSpan(span, pos)
    ensures Braces(Piece(line, pos, p, values, Noma, span)) == ""
  {
    var value := OneLine(values[p.name]);
    OneLineIsClean(values[p.name]);
    AttributeValueIsSafe(value, QuoteAfter(line[span.value.start..pos], Unquoted));
    NoBraces(Piece(line, pos, p, values, Noma, span));
  }

  /** What stands for the placeholder in the neutral form. */
  function NeutralPiece(line: string, pos: nat, p: Placeholder, values: Values): string
    requires pos < p.end <= |line|
  {
    if p.name in values then "x" else line[pos..p.end]
  }

  lemma PlaceholderSteps(line: string, pos: nat, p: Placeholder, values: Values, span: Option<Span>)
    requires pos < |line| && PlaceholderAt(line, pos) == Some(p)
    ensures Braces(NeutralFrom(line, pos, values)) == Braces(NeutralPiece(line, pos, p, values)) + Braces(NeutralFrom(line, p.end, values))
    ensures Braces(FillFrom(line, pos, values, Noma, span))
         == Braces(Piece(line, pos, p, values, Noma, span)) + Braces(FillFrom(line, p.end, values, Noma, span))
  {
    BracesOfJoin(NeutralPiece(line, pos, p, values), NeutralFrom(line, p.end, values));
    BracesOfJoin(Piece(line, pos, p, values, Noma, span), FillFrom(line, p.end, values, Noma, span));
  }

  lemma CharacterSteps(line: string, pos: nat, values: Values, span: Option<Span>)
    requires pos < |line| && PlaceholderAt(line, pos).None?
    ensures Braces(NeutralFrom(line, pos, values)) == Braces([line[pos]]) + Braces(NeutralFrom(line, pos + 1, values))
    ensures Braces(FillFrom(line, pos, values, Noma, span)) == Braces([line[pos]]) + Braces(FillFrom(line, pos + 1, values, Noma, span))
  {
    BracesOfJoin([line[pos]], NeutralFrom(line, pos + 1, values));
    BracesOfJoin([line[pos]], FillFrom(line, pos + 1, values, Noma, span));
  }

  lemma {:induction false} BracesInSpan(line: string, pos: nat, values: Values, span: Option<Span>)
    requires pos <= |line| && AllInSpan(line, pos, values.Keys, span)
    ensures Braces(FillFrom(line, pos, values, Noma, span)) == Braces(NeutralFrom(line, pos, values))
    decreases |line| - pos
  {
    if pos == |line| {
    } else {
      var p := PlaceholderAt(line, pos);
      if p.None? {
        CharacterSteps(line, pos, values, span);
        BracesInSpan(line, pos + 1, values, span);
      } else {
        PlaceholderSteps(line, pos, p.value, values, span);
        BracesInSpan(line, p.value.end, values, span);
        if p.value.name in values {
          assert PlaceholderFollows(line, pos, values.Keys);
          PieceInSpan(line, pos, p.value, values, span);
          BracesOfCharacter('x');
        }
      }
    }
  }

  lemma PieceHasNoFewer(line: string, pos: nat, p: Placeholder, values: Values, span: Option<Span>)
    requires pos < p.end <= |line|
    ensures |Braces(Piece(line, pos, p, values, Noma, span))| >= |Braces(NeutralPiece(line, pos, p, values))|
  {
    BracesOfCharacter('x');
  }

  /** Filling takes no brace out. */
  lemma {:induction false} NoFewerBraces(line: string, pos: nat, values: Values, span: Option<Span>)
    requires pos <= |line|
    ensures |Braces(FillFrom(line, pos, values, Noma, span))| >= |Braces(NeutralFrom(line, pos, values))|
    decreases |line| - pos
  {
    if pos == |line| {
    } else {
      var p := PlaceholderAt(line, pos);
      if p.None? {
        CharacterSteps(line, pos, values, span);
        NoFewerBraces(line, pos + 1, values, span);
      } else {
        PlaceholderSteps(line, pos, p.value, values, span);
        PieceHasNoFewer(line, pos, p.value, values, span);
        NoFewerBraces(line, p.value.end, values, span);
      }
    }
  }

  lemma SplitJoined(s: string, n: nat, rest: string)
    requires n <= |s| && rest == s[n..]
    ensures s == s[..n] + rest && s[..n] + [ZWSP] + rest == s[..n] + ([ZWSP] + rest)
  {
  }

  lemma GuardStartKeepsBraces(out: string)
    ensures Braces(GuardStart(out)) == Braces(out)
  {
    var t := TrimStart(out);
    var n := |out| - |t|;
    TrimStartIsSuffix(out);
    SplitJoined(out, n, t);
    BracesOfJoin(out[..n], t);
    BracesOfJoin(out[..n], [ZWSP] + t);
    BracesOfJoin([ZWSP], t);
    BracesOfCharacter(ZWSP);
  }

  lemma GuardKeepsBraces(neutral: string, out: string)
    requires KindOf(neutral) == Directive
    ensures Braces(Guarded(neutral, out, Noma)) == Braces(out)
  {
    GuardStartKeepsBraces(out);
  }

  // ---------------------------------------------------------------------------------------------
  // Directives
  // ---------------------------------------------------------------------------------------------

  /** White space up to `w`, colons up to `m`, white space up to `v`, and there the name begins. */
  ghost predicate Directs(s: string, w: nat, m: nat, v: nat) {
    && w + 2 <= m <= v < |s|
    && (forall i :: 0 <= i < w ==> IsSpace(s[i])) && (forall i :: w <= i < m ==> s[i] == ':')
    && (forall i :: m <= i < v ==> IsSpace(s[i])) && (IsLetter(s[v]) || s[v] == '_')
  }

  lemma ColonParts(t: string) returns (n: nat, v: nat)
    requires IsDirectiveStart(t)
    ensures Directs(t, 0, n, v)
  {
    n := RunLength(t, ':');
    var rest := t[n..];
    RunIsThatChar(t, ':');
    TrimStartIsSuffix(rest);
    v := n + |rest| - |TrimStart(rest)|;
    assert forall i :: n <= i < |t| ==> t[i] == rest[i - n];
  }

  lemma PartsBehindSpaces(s: string, w: nat, n: nat, v: nat)
    requires w <= |s| && forall i :: 0 <= i < w ==> IsSpace(s[i])
    requires Directs(s[w..], 0, n, v)
    ensures Directs(s, w, w + n, w + v)
  {
    var t := s[w..];
    assert forall i :: w <= i < |s| ==> s[i] == t[i - w];
  }

  lemma DirectiveParts(s: string) returns (w: nat, m: nat, v: nat)
    requires IsDirectiveStart(TrimStart(s))
    ensures Directs(s, w, m, v)
  {
    w := |s| - |TrimStart(s)|;
    m, v := ColonParts(TrimStart(s));
    TrimStartIsSuffix(s);
    PartsBehindSpaces(s, w, m, v);
    m, v := w + m, w + v;
  }

  lemma ColonsFromParts(t: string, n: nat, v: nat)
    requires 2 <= n <= v < |t| && (forall i :: 0 <= i < n ==> t[i] == ':')
    requires (forall i :: n <= i < v ==> IsSpace(t[i])) && (IsLetter(t[v]) || t[v] == '_')
    ensures IsDirectiveStart(t)
  {
    RunLengthAtLeast(t, ':', n);
    var rest := t[n..];
    assert forall i :: 0 <= i < |rest| ==> rest[i] == t[n + i];
    IndentIs(rest, v - n);
  }

  lemma DirectiveFromParts(s: string, w: nat, m: nat, v: nat)
    requires Directs(s, w, m, v)
    ensures IsDirectiveStart(TrimStart(s)) && TrimStart(s) == s[w..]
  {
    var t := s[w..];
    assert forall i :: 0 <= i < |t| ==> t[i] == s[w + i];
    ColonsFromParts(t, m - w, v - w);
    IndentIs(s, w);
  }

  lemma DirectsIsDirective(s: string, w: nat, m: nat, v: nat)
    requires Directs(s, w, m, v)
    ensures KindOf(s) == Directive
  {
    DirectiveFromParts(s, w, m, v);
    DirectiveKind(s);
  }

  lemma PartsOfDirective(s: string) returns (w: nat, m: nat, v: nat)
    requires KindOf(s) == Directive
    ensures Directs(s, w, m, v)
  {
    DirectiveBegins(s);
    w, m, v := DirectiveParts(s);
  }

  lemma DirectiveBegins(s: string)
    requires KindOf(s) == Directive
    ensures IsDirectiveStart(TrimStart(s))
  {
  }

  lemma DirectiveKind(s: string)
    requires IsDirectiveStart(TrimStart(s))
    ensures KindOf(s) == Directive
  {
    var t := TrimStart(s);
    RunIsThatChar(t, ':');
    assert t[0] == ':';
    assert |t| >= 3 ==> t[..3][0] == ':';
  }

  lemma PartsBeforeBrace(s: string, b: nat, w: nat, m: nat, v: nat)
    requires Directs(s, w, m, v) && b < |s| && s[b] == '{'
    ensures v < b
  {
  }

  /** Lines that agree up to a brace are both directives or neither is. */
  lemma SameParts(s: string, r: string, b: nat, w: nat, m: nat, v: nat)
    requires Directs(s, w, m, v) && AlikeUpTo(s, r, b) && s[b] == '{'
    ensures Directs(r, w, m, v) && v < b
  {
    PartsBeforeBrace(s, b, w, m, v);
  }

  ghost predicate AlikeUpTo(s: string, r: string, b: nat) {
    b < |s| && b < |r| && forall i :: 0 <= i <= b ==> s[i] == r[i]
  }

  // ---------------------------------------------------------------------------------------------
  // The first brace of the line
  // ---------------------------------------------------------------------------------------------

  /** A known placeholder stands at the first brace of the line. */
  predicate FirstBraceIsFilled(line: string, names: set<string>) {
    var first := IndexOf(line, "{", 0);
    first.Some? && PlaceholderFollows(line, first.value, names)
  }

  lemma FirstBrace(line: string, from: nat)
    ensures var first := IndexOf(line, "{", from);
      && (first.Some? ==> from <= first.value < |line| && line[first.value] == '{' && forall i :: from <= i < first.value ==> line[i] != '{')
      && (first.None? ==> forall i :: from <= i < |line| ==> line[i] != '{')
  {
    var first := IndexOf(line, "{", from);
    IndexOfIsFirst(line, "{", from);
    forall i | from <= i < |line| && (first.Some? ==> i <= first.value)
      ensures line[i] == '{' <==> MatchesAt(line, "{", i)
    {
      assert line[i..i + 1] == [line[i]];
    }
  }

  lemma FirstBraceFrom(line: string, from: nat, b: nat)
    requires from <= b < |line| && line[b] == '{' && forall i :: from <= i < b ==> line[i] != '{'
    ensures IndexOf(line, "{", from) == Some(b)
  {
    FirstBrace(line, from);
  }

  lemma {:induction false} LastIndexOfIsLast(s: string, c: char)
    ensures var r := LastIndexOf(s, c);
      && (r.Some? ==> r.value < |s| && s[r.value] == c) && forall i :: 0 <= i < |s| && s[i] == c ==> r.Some? && i <= r.value
  {
    if s == "" || s[|s| - 1] == c {
    } else {
      LastIndexOfIsLast(s[..|s| - 1], c);
    }
  }

  lemma PlaceholderEndsWithBrace(line: string, q: nat)
    requires q < |line| && PlaceholderAt(line, q).Some?
    ensures line[q] == '{' && q + 4 < PlaceholderAt(line, q).value.end <= |line| && line[PlaceholderAt(line, q).value.end - 1] == '}'
  {
  }

  /** Up to the first brace a filling and the neutral form are as the line is. */
  lemma UpToFirstBrace(line: string, b: nat, values: Values, span: Option<Span>)
    requires b < |line| && line[b] == '{' && forall i :: 0 <= i < b ==> line[i] != '{'
    ensures FillFrom(line, 0, values, Noma, span) == line[..b] + FillFrom(line, b, values, Noma, span)
    ensures Neutral(line, values) == line[..b] + NeutralFrom(line, b, values)
  {
    PrefixIsCopied(line, 0, b, values, Noma, span);
    assert line[0..b] == line[..b];
  }

  lemma KeptBrace(line: string, b: nat, values: Values, span: Option<Span>)
    requires b < |line| && line[b] == '{' && !PlaceholderFollows(line, b, values.Keys)
    ensures var a, r := NeutralFrom(line, b, values), FillFrom(line, b, values, Noma, span); a != "" && r != "" && a[0] == r[0] == '{'
  {
  }

  /** A first brace of the template's own stays, filled or not, and so does all before it. */
  lemma FirstBraceStays(line: string, b: nat, values: Values, span: Option<Span>)
    requires b < |line| && line[b] == '{' && (forall i :: 0 <= i < b ==> line[i] != '{') && !PlaceholderFollows(line, b, values.Keys)
    ensures AlikeUpTo(Neutral(line, values), line, b) && AlikeUpTo(Neutral(line, values), FillFrom(line, 0, values, Noma, span), b)
  {
    UpToFirstBrace(line, b, values, span);
    KeptBrace(line, b, values, span);
    HeadAndBrace(line, b, NeutralFrom(line, b, values));
    HeadAndBrace(line, b, FillFrom(line, b, values, Noma, span));
  }

  lemma HeadAndBrace(line: string, b: nat, tail: string)
    requires b < |line| && tail != "" && tail[0] == line[b]
    ensures AlikeUpTo(line[..b] + tail, line, b)
  {
  }

  lemma FirstBraceFound(line: string, b: nat, w: nat, m: nat, v: nat)
    requires Directs(line, w, m, v) && b < |line| && line[b] == '{' && forall i :: 0 <= i < b ==> line[i] != '{'
    ensures IsDirectiveStart(TrimStart(line)) && IndexOf(line, "{", |line| - |TrimStart(line)|) == Some(b)
  {
    PartsBeforeBrace(line, b, w, m, v);
    DirectiveFromParts(line, w, m, v);
    FirstBraceFrom(line, w, b);
  }

  lemma SpanFromFound(neutral: string, line: string, b: nat)
    requires IsDirectiveStart(TrimStart(line)) && IndexOf(line, "{", |line| - |TrimStart(line)|) == Some(b)
    ensures AttributeSpan(neutral, line) == SpanBetween(Some(b), LastIndexOf(line, '}')) && !InSpan(AttributeSpan(neutral, line), b)
  {
  }

  /** The span of a directive line runs from its first brace to the last closing one. */
  lemma SpanFromFirstBrace(neutral: string, line: string, b: nat, w: nat, m: nat, v: nat)
    requires Directs(line, w, m, v) && b < |line| && line[b] == '{' && forall i :: 0 <= i < b ==> line[i] != '{'
    ensures AttributeSpan(neutral, line) == SpanBetween(Some(b), LastIndexOf(line, '}')) && !InSpan(AttributeSpan(neutral, line), b)
  {
    FirstBraceFound(line, b, w, m, v);
    SpanFromFound(neutral, line, b);
  }

  /** Every known placeholder behind the first brace ends with a closing one, so it lies in the span. */
  lemma PlaceholderInSpan(line: string, b: nat, q: nat)
    requires b < q < |line| && PlaceholderAt(line, q).Some?
    ensures InSpan(SpanBetween(Some(b), LastIndexOf(line, '}')), q)
  {
    PlaceholderEndsWithBrace(line, q);
    LastIndexOfIsLast(line, '}');
  }

  /** A line whose first brace is its own is a directive if its neutral form is one. */
  lemma LineDirects(line: string, b: nat, values: Values) returns (w: nat, m: nat, v: nat)
    requires KindOf(Neutral(line, values)) == Directive
    requires b < |line| && line[b] == '{' && (forall i :: 0 <= i < b ==> line[i] != '{') && !PlaceholderFollows(line, b, values.Keys)
    ensures Directs(line, w, m, v)
  {
    w, m, v := PartsOfDirective(Neutral(line, values));
    FirstBraceStays(line, b, values, None);
    SameParts(Neutral(line, values), line, b, w, m, v);
  }

  lemma PlaceholdersInSpan(neutral: string, line: string, b: nat, names: set<string>, w: nat, m: nat, v: nat)
    requires Directs(line, w, m, v) && b < |line| && line[b] == '{' && forall i :: 0 <= i < b ==> line[i] != '{'
    requires !PlaceholderFollows(line, b, names)
    ensures AllInSpan(line, 0, names, AttributeSpan(neutral, line))
  {
    SpanFromFirstBrace(neutral, line, b, w, m, v);
    forall q | 0 <= q < |line| && PlaceholderFollows(line, q, names)
      ensures InSpan(AttributeSpan(neutral, line), q)
    {
      PlaceholderEndsWithBrace(line, q);
      PlaceholderInSpan(line, b, q);
    }
  }

  lemma NoPlaceholders(line: string, names: set<string>, span: Option<Span>)
    requires forall i :: 0 <= i < |line| ==> line[i] != '{'
    ensures AllInSpan(line, 0, names, span)
  {
  }

  lemma AllPlaceholdersInSpan(line: string, values: Values)
    requires KindOf(Neutral(line, values)) == Directive && !FirstBraceIsFilled(line, values.Keys)
    ensures AllInSpan(line, 0, values.Keys, SpanFor(line, values, Noma))
  {
    var first := IndexOf(line, "{", 0);
    FirstBrace(line, 0);
    if first.Some? {
      var w, m, v := LineDirects(line, first.value, values);
      PlaceholdersInSpan(Neutral(line, values), line, first.value, values.Keys, w, m, v);
    } else {
      NoPlaceholders(line, values.Keys, SpanFor(line, values, Noma));
    }
  }

  lemma HashIsFirst(s: string, w: nat)
    requires w < |s| && s[w] == '#' && forall i :: 0 <= i < w ==> IsSpace(s[i])
    ensures KindOf(s) != Directive
  {
    IndentIs(s, w);
    assert s[w..][0] == '#';
  }

  lemma HeadIsKept(line: string, b: nat, tail: string)
    requires b <= |line|
    ensures forall i :: 0 <= i < b ==> (line[..b] + tail)[i] == line[i]
  {
  }

  /** A hash ahead of the first brace is the first visible character of the neutral form too. */
  lemma HashStays(line: string, b: nat, values: Values) returns (w: nat)
    requires b < |line| && line[b] == '{' && (forall i :: 0 <= i < b ==> line[i] != '{') && RunLength(TrimStart(line), '#') > 0
    ensures var neutral := Neutral(line, values); w < |neutral| && neutral[w] == '#' && forall i :: 0 <= i < w ==> IsSpace(neutral[i])
  {
    w := |line| - |TrimStart(line)|;
    TrimStartIsSuffix(line);
    assert line[w] == TrimStart(line)[0];
    UpToFirstBrace(line, b, values, None);
    HeadIsKept(line, b, NeutralFrom(line, b, values));
  }

  /** A line that starts with a hash up to its first brace is no directive, however it is filled. */
  lemma HashIsNoDirective(line: string, b: nat, values: Values)
    requires b < |line| && line[b] == '{' && (forall i :: 0 <= i < b ==> line[i] != '{') && RunLength(TrimStart(line), '#') > 0
    ensures KindOf(Neutral(line, values)) != Directive
  {
    var w := HashStays(line, b, values);
    HashIsFirst(Neutral(line, values), w);
  }

  lemma NeitherHasSpan(neutral: string, line: string)
    requires !IsDirectiveStart(TrimStart(line)) && RunLength(TrimStart(line), '#') == 0
    ensures AttributeSpan(neutral, line) == None
  {
  }

  /** At the first brace, a value goes in as it is. */
  lemma FirstBraceIsOutside(line: string, b: nat, values: Values)
    requires KindOf(Neutral(line, values)) == Directive
    requires b < |line| && line[b] == '{' && (forall i :: 0 <= i < b ==> line[i] != '{')
    ensures !InSpan(SpanFor(line, values, Noma), b)
  {
    if IsDirectiveStart(TrimStart(line)) {
      var w, m, v := DirectiveParts(line);
      SpanFromFirstBrace(Neutral(line, values), line, b, w, m, v);
    } else if RunLength(TrimStart(line), '#') > 0 {
      HashIsNoDirective(line, b, values);
    } else {
      NeitherHasSpan(Neutral(line, values), line);
    }
  }

  lemma BraceIsOneLine()
    ensures OneLine("{") == "{"
  {
  }

  lemma BraceIsMoreHere(line: string, b: nat, values: Values, p: Placeholder, span: Option<Span>)
    requires b < |line| && PlaceholderAt(line, b) == Some(p) && p.name in values && values[p.name] == "{" && !InSpan(span, b)
    ensures |Braces(FillFrom(line, b, values, Noma, span))| > |Braces(NeutralFrom(line, b, values))|
  {
    BraceIsOneLine();
    PlaceholderSteps(line, b, p, values, span);
    BracesOfCharacter('{');
    BracesOfCharacter('x');
    NoFewerBraces(line, p.end, values, span);
  }

  /** A value `{` at the first brace is a brace more. */
  lemma BraceIsMore(line: string, b: nat, values: Values, p: Placeholder, span: Option<Span>)
    requires b < |line| && line[b] == '{' && (forall i :: 0 <= i < b ==> line[i] != '{') && !InSpan(span, b)
    requires PlaceholderAt(line, b) == Some(p) && p.name in values && values[p.name] == "{"
    ensures |Braces(FillFrom(line, 0, values, Noma, span))| > |Braces(Neutral(line, values))|
  {
    UpToFirstBrace(line, b, values, span);
    BracesOfJoin(line[..b], FillFrom(line, b, values, Noma, span));
    BracesOfJoin(line[..b], NeutralFrom(line, b, values));
    BraceIsMoreHere(line, b, values, p, span);
  }

  lemma BraceGetsIn(line: string, b: nat, values: Values, p: Placeholder)
    requires KindOf(Neutral(line, values)) == Directive
    requires b < |line| && line[b] == '{' && (forall i :: 0 <= i < b ==> line[i] != '{')
    requires PlaceholderAt(line, b) == Some(p) && p.name in values && values[p.name] == "{"
    ensures !BracesAreKept(line, values)
  {
    FirstBraceIsOutside(line, b, values);
    BraceIsMore(line, b, values, p, SpanFor(line, values, Noma));
    GuardKeepsBraces(Neutral(line, values), Filled(line, values, Noma));
  }

  /** A directive line has the template's braces and no others under every choice of values exactly when its first brace is no
      known placeholder's. */
  lemma BracesAreKeptForAllValues(line: string, values: Values)
    requires KindOf(Neutral(line, values)) == Directive
    ensures (forall others: Values :: others.Keys == values.Keys ==> BracesAreKept(line, others)) <==> !FirstBraceIsFilled(line, values.Keys)
  {
    if FirstBraceIsFilled(line, values.Keys) {
      var b := IndexOf(line, "{", 0).value;
      var p := PlaceholderAt(line, b).value;
      var others := values[p.name := "{"];
      assert others.Keys == values.Keys;
      FirstBrace(line, 0);
      NeutralByNames(line, 0, values, others);
      BraceGetsIn(line, b, others, p);
    } else {
      forall others: Values | others.Keys == values.Keys
        ensures BracesAreKept(line, others)
      {
        NeutralByNames(line, 0, values, others);
        AllPlaceholdersInSpan(line, others);
        BracesInSpan(line, 0, others, SpanFor(line, others, Noma));
        GuardKeepsBraces(Neutral(line, others), Filled(line, others, Noma));
      }
    }
  }

  lemma SamePrefix(s: string, r: string, b: nat)
    requires b < |s| && b < |r| && forall i :: 0 <= i <= b ==> s[i] == r[i]
    ensures s[..b + 1] == r[..b + 1]
  {
  }

  /** Then the filled line is a directive that reads as the template does up to and with that brace: its colons, its name and where its
      attributes begin are the template's. */
  lemma BlockBeginsAsWritten(line: string, values: Values)
    requires KindOf(Neutral(line, values)) == Directive && !FirstBraceIsFilled(line, values.Keys)
    ensures var first, filled := IndexOf(line, "{", 0), FilledLine(line, values, Noma);
      && KindOf(filled) == Directive
      && if first.Some? then |filled| > first.value && filled[..first.value + 1] == line[..first.value + 1] else filled == line
  {
    var first, span := IndexOf(line, "{", 0), SpanFor(line, values, Noma);
    FirstBrace(line, 0);
    if first.Some? {
      FilledBeginsAsWritten(line, first.value, values, span);
    } else {
      NothingIsFilled(line, values, span);
    }
    GuardedDirective(Neutral(line, values), Filled(line, values, Noma));
  }

  lemma NothingIsFilled(line: string, values: Values, span: Option<Span>)
    requires forall i :: 0 <= i < |line| ==> line[i] != '{'
    ensures FillFrom(line, 0, values, Noma, span) == Neutral(line, values) == line
  {
    PrefixIsCopied(line, 0, |line|, values, Noma, span);
    assert line[0..|line|] == line;
  }

  lemma FilledBeginsAsWritten(line: string, b: nat, values: Values, span: Option<Span>)
    requires KindOf(Neutral(line, values)) == Directive
    requires b < |line| && line[b] == '{' && (forall i :: 0 <= i < b ==> line[i] != '{') && !PlaceholderFollows(line, b, values.Keys)
    ensures var out := FillFrom(line, 0, values, Noma, span); KindOf(out) == Directive && |out| > b && out[..b + 1] == line[..b + 1]
  {
    var out := FillFrom(line, 0, values, Noma, span);
    var w, m, v := PartsOfDirective(Neutral(line, values));
    FirstBraceStays(line, b, values, span);
    SameParts(Neutral(line, values), out, b, w, m, v);
    DirectsIsDirective(out, w, m, v);
    SamePrefix(out, line, b);
  }

  // ---------------------------------------------------------------------------------------------
  // When the first brace is a placeholder's
  // ---------------------------------------------------------------------------------------------

  lemma PartsExtend(head: string, line: string, w: nat, m: nat, v: nat)
    requires Directs(head, w, m, v) && |head| <= |line| && line[..|head|] == head
    ensures Directs(line, w, m, v)
  {
    assert forall i :: 0 <= i < |head| ==> line[i] == line[..|head|][i];
  }

  /** The line that ends with its one placeholder, before any guard. */
  lemma LastPlaceholder(head: string, line: string, values: Values, p: Placeholder, span: Option<Span>)
    requires '{' !in head && |head| < |line| && line[..|head|] == head
    requires PlaceholderAt(line, |head|) == Some(p) && p.end == |line| && p.name in values && !InSpan(span, |head|)
    ensures line[|head|] == '{' && forall i :: 0 <= i < |head| ==> line[i] != '{'
    ensures Neutral(line, values) == head + "x" && FillFrom(line, 0, values, Noma, span) == head + OneLine(values[p.name])
  {
    var b := |head|;
    forall i | 0 <= i < b
      ensures line[i] != '{'
    {
      assert line[i] == head[i];
    }
    PlaceholderEndsWithBrace(line, b);
    UpToFirstBrace(line, b, values, span);
    assert NeutralFrom(line, b, values) == "x" + NeutralFrom(line, |line|, values) == "x";
  }

  lemma UnguardedDirective(neutral: string, out: string, head: string, w: nat, m: nat, v: nat)
    requires Directs(head, w, m, v) && |head| <= |neutral| && neutral[..|head|] == head && |head| <= |out| && out[..|head|] == head
    ensures Guarded(neutral, out, Noma) == out
  {
    PartsExtend(head, neutral, w, m, v);
    DirectsIsDirective(neutral, w, m, v);
    PartsExtend(head, out, w, m, v);
    DirectsIsDirective(out, w, m, v);
    GuardedDirective(neutral, out);
  }

  /** A directive head followed by one placeholder: whatever the value is, the line is the head and the value. */
  lemma LastValueIsRaw(head: string, line: string, values: Values, p: Placeholder)
    requires KindOf(head) == Directive && '{' !in head && |head| < |line| && line[..|head|] == head
    requires PlaceholderAt(line, |head|) == Some(p) && p.end == |line| && p.name in values
    ensures Neutral(line, values) == head + "x" && FilledLine(line, values, Noma) == head + OneLine(values[p.name])
  {
    var w, m, v := PartsOfDirective(head);
    LastPlaceholder(head, line, values, p, None);
    PartsExtend(head, line, w, m, v);
    SpanFromFirstBrace(head + "x", line, |head|, w, m, v);
    LastPlaceholder(head, line, values, p, AttributeSpan(head + "x", line));
    UnguardedDirective(head + "x", head + OneLine(values[p.name]), head, w, m, v);
  }

  /** Neither white space nor control characters. */
  ghost predicate Solid(s: string) {
    forall c :: c in s ==> !IsSpace(c) && !IsControl(c)
  }

  lemma {:induction false} SolidIsKept(s: string)
    requires Solid(s)
    ensures SpaceControls(s, false) == CollapseSpaces(s, false) == s
  {
    if s == "" {
    } else {
      assert s == [s[0]] + s[1..];
      SolidIsKept(s[1..]);
    }
  }

  lemma SolidIsOneLine(s: string)
    requires Solid(s) && |s| <= MAX_VALUE_LENGTH
    ensures OneLine(s) == s
  {
    SolidIsKept(s);
    if s != "" {
      assert s[0] in s && s[|s| - 1] in s;
    }
  }

  /** A directive without attributes, `::claim {{x}}`, takes on the attributes `{id=other}` that its value holds. */
  lemma AttributesGetIn(head: string, line: string, values: Values, attributes: string)
    requires head == "::claim " && line == "::claim {{x}}" && attributes == "{id=other}" && values == map["x" := attributes]
    ensures Neutral(line, values) == head + "x" && FilledLine(line, values, Noma) == head + attributes
  {
    HeadIsDirective(head);
    ClaimPlaceholder(line);
    SolidIsOneLine(attributes);
    assert line[..8] == head;
    LastValueIsRaw(head, line, values, Placeholder("x", 13));
  }

  lemma HeadIsDirective(head: string)
    requires head == "::claim "
    ensures KindOf(head) == Directive && |head| == 8 && '{' !in head
  {
    assert head[0] == ':' && head[1] == ':' && head[2] == 'c';
    DirectsIsDirective(head, 0, 2, 2);
  }

  lemma ClaimPlaceholder(line: string)
    requires line == "::claim {{x}}"
    ensures |line| == 13 && PlaceholderAt(line, 8) == Some(Placeholder("x", 13))
  {
    assert line[8] == '{' && line[9] == '{' && line[10] == 'x' && line[11] == '}' && line[12] == '}';
    assert SkipWord(line, 11) == 11;
    assert line[10..11] == "x";
  }
}
