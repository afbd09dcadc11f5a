/** Filling a template never changes the structure of the document, for any template and any values. */
module TemplateSafety {
  import opened Wrappers
  import opened Text
  import opened Templates
  import Json

  // ---------------------------------------------------------------------------------------------
  // No line breaks get in
  // ---------------------------------------------------------------------------------------------

  ghost predicate NoControls(s: string) {
    forall c :: c in s ==> !IsControl(c)
  }

  ghost predicate NoBreaks(s: string) {
    '\n' !in s && '\r' !in s
  }

  lemma {:induction false} SpaceControlsIsClean(s: string, inRun: bool)
    ensures NoControls(SpaceControls(s, inRun))
  {
    if s == "" {
    } else {
      SpaceControlsIsClean(s[1..], IsControl(s[0]));
    }
  }

  lemma {:induction false} CollapseKeepsClean(s: string, inRun: bool)
    requires NoControls(s)
    ensures NoControls(CollapseSpaces(s, inRun))
  {
    if s == "" {
    } else {
      assert s[0] in s;
      CollapseKeepsClean(s[1..], true);
      CollapseKeepsClean(s[1..], false);
    }
  }

  lemma {:induction false} TrimStartIsSuffix(s: string)
    ensures var r := TrimStart(s);
      && r == s[|s| - |r|..] && (r != "" ==> !IsSpace(r[0]))
      && forall i :: 0 <= i < |s| - |r| ==> IsSpace(s[i])
  {
    if s == "" || !IsSpace(s[0]) {
    } else {
      TrimStartIsSuffix(s[1..]);
    }
  }

  lemma {:induction false} TrimEndIsPrefix(s: string)
    ensures var r := TrimEnd(s);
      && r == s[..|r|] && (r != "" ==> !IsSpace(r[|r| - 1]))
      && forall i :: |r| <= i < |s| ==> IsSpace(s[i])
  {
    if s == "" || !IsSpace(s[|s| - 1]) {
    } else {
      TrimEndIsPrefix(s[..|s| - 1]);
    }
  }

  /** A value on one line carries no control character and no line or paragraph separator. */
  lemma OneLineIsClean(value: string)
    ensures NoControls(OneLine(value)) && |OneLine(value)| <= MAX_VALUE_LENGTH
  {
    SpaceControlsIsClean(value, false);
    var s := CollapseSpaces(SpaceControls(value, false), false);
    CollapseKeepsClean(SpaceControls(value, false), false);
    TrimStartIsSuffix(s);
    TrimEndIsPrefix(TrimStart(s));
  }

  lemma {:induction false} UnbracedIsClean(s: string)
    requires NoControls(s)
    ensures NoControls(Unbraced(s)) && '{' !in Unbraced(s) && '}' !in Unbraced(s)
  {
    if s == "" {
    } else {
      assert s[0] in s;
      UnbracedIsClean(s[1..]);
    }
  }

  lemma {:induction false} ReplacedIsClean(s: string, c: char, text: string)
    requires NoControls(s) && NoControls(text) && c !in text
    ensures NoControls(Replaced(s, c, text)) && c !in Replaced(s, c, text)
  {
    if s == "" {
    } else {
      assert s[0] in s;
      ReplacedIsClean(s[1..], c, text);
    }
  }

  lemma {:induction false} ReplacedKeepsOut(s: string, c: char, text: string, d: char)
    requires d !in s && d !in text
    ensures d !in Replaced(s, c, text)
  {
    if s == "" {
    } else {
      assert s[0] in s;
      ReplacedKeepsOut(s[1..], c, text, d);
    }
  }

  lemma {:induction false} HyphenatedIsClean(s: string, inRun: bool)
    requires NoControls(s)
    ensures NoControls(Hyphenated(s, inRun)) && '"' !in Hyphenated(s, inRun) && '\'' !in Hyphenated(s, inRun)
  {
    if s == "" {
    } else {
      assert s[0] in s;
      HyphenatedIsClean(s[1..], IsUnsafe(s[0]));
    }
  }

  lemma {:induction false} HyphenatedKeepsOut(s: string, inRun: bool, d: char)
    requires d !in s && d != '-'
    ensures d !in Hyphenated(s, inRun)
  {
    if s == "" {
    } else {
      assert s[0] in s;
      HyphenatedKeepsOut(s[1..], IsUnsafe(s[0]), d);
    }
  }

  /** An attribute value has no braces, no breaks and no quote that would change the automaton's state. */
  lemma AttributeValueIsSafe(value: string, q: Quote)
    requires NoControls(value)
    ensures var r := AttributeValue(value, q);
      && NoControls(r) && '{' !in r && '}' !in r
      && (q == Double ==> '"' !in r) && (q == Single ==> '\'' !in r) && (q == Unquoted ==> '"' !in r && '\'' !in r)
  {
    var u := Unbraced(value);
    UnbracedIsClean(value);
    match q
    case Double =>
      ReplacedIsClean(u, '"', "'");
      ReplacedKeepsOut(u, '"', "'", '{');
      ReplacedKeepsOut(u, '"', "'", '}');
    case Single =>
      ReplacedIsClean(u, '\'', "\U{2019}");
      ReplacedKeepsOut(u, '\'', "\U{2019}", '{');
      ReplacedKeepsOut(u, '\'', "\U{2019}", '}');
    case Unquoted =>
      HyphenatedIsClean(u, false);
      HyphenatedKeepsOut(u, false, '{');
      HyphenatedKeepsOut(u, false, '}');
  }

  lemma {:induction false} ReplacedHasNoBreaks(s: string, c: char, text: string)
    requires NoBreaks(s) && NoBreaks(text)
    ensures NoBreaks(Replaced(s, c, text))
  {
    ReplacedKeepsOut(s, c, text, '\n');
    ReplacedKeepsOut(s, c, text, '\r');
  }

  lemma YamlValueHasNoBreaks(value: string, q: Quote)
    requires NoControls(value)
    ensures NoBreaks(YamlValue(value, q))
  {
    Json.EscapePrintable(value);
    if q == Single {
      ReplacedHasNoBreaks(value, '\'', "''");
    }
  }

  lemma PieceHasNoBreaks(line: string, pos: nat, p: Placeholder, values: Values, context: Context, span: Option<Span>)
    requires pos < p.end <= |line| && NoBreaks(line)
    ensures NoBreaks(Piece(line, pos, p, values, context, span))
  {
    if p.name in values {
      var value := OneLine(values[p.name]);
      OneLineIsClean(values[p.name]);
      if context == Yaml {
        YamlValueHasNoBreaks(value, QuoteAfter(line[..pos], Unquoted));
      } else if InSpan(span, pos) {
        AttributeValueIsSafe(value, QuoteAfter(line[span.value.start..pos], Unquoted));
      }
    }
  }

  lemma {:induction false} FillHasNoBreaks(line: string, pos: nat, values: Values, context: Context, span: Option<Span>)
    requires pos <= |line| && NoBreaks(line)
    ensures NoBreaks(FillFrom(line, pos, values, context, span))
    decreases |line| - pos
  {
    if pos == |line| {
    } else {
      var p := PlaceholderAt(line, pos);
      if p.None? {
        assert line[pos] in line;
        FillHasNoBreaks(line, pos + 1, values, context, span);
        JoinHasNoBreaks([line[pos]], FillFrom(line, pos + 1, values, context, span));
      } else {
        PieceHasNoBreaks(line, pos, p.value, values, context, span);
        FillHasNoBreaks(line, p.value.end, values, context, span);
        JoinHasNoBreaks(Piece(line, pos, p.value, values, context, span), FillFrom(line, p.value.end, values, context, span));
      }
    }
  }

  lemma JoinHasNoBreaks(a: string, b: string)
    requires NoBreaks(a) && NoBreaks(b)
    ensures NoBreaks(a + b)
  {
  }

  lemma GuardStartHasNoBreaks(out: string)
    requires NoBreaks(out)
    ensures NoBreaks(GuardStart(out))
  {
    TrimStartIsSuffix(out);
  }

  lemma GuardedHasNoBreaks(neutral: string, out: string, context: Context)
    requires NoBreaks(out)
    ensures NoBreaks(Guarded(neutral, out, context))
  {
    GuardStartHasNoBreaks(out);
    TrimEndIsPrefix(out);
    TrimEndIsPrefix(GuardStart(out));
  }

  lemma FilledLineHasNoBreaks(line: string, values: Values, context: Context)
    requires NoBreaks(line)
    ensures NoBreaks(FilledLine(line, values, context))
  {
    FillHasNoBreaks(line, 0, values, context, SpanFor(line, values, context));
    GuardedHasNoBreaks(Neutral(line, values), Filled(line, values, context), context);
  }

  // ---------------------------------------------------------------------------------------------
  // Guards
  // ---------------------------------------------------------------------------------------------

  /** Trimming drops exactly the leading white space. */
  lemma {:induction false} IndentIs(s: string, w: nat)
    requires w <= |s| && (forall i :: 0 <= i < w ==> IsSpace(s[i])) && (w < |s| ==> !IsSpace(s[w]))
    ensures TrimStart(s) == s[w..]
    decreases w
  {
    if w == 0 {
    } else {
      IndentIs(s[1..], w - 1);
      assert s[1..][w - 1..] == s[w..];
    }
  }

  /** A line whose first visible character is the guard is plain text. */
  lemma GuardedIsPlain(s: string)
    requires TrimStart(s) != "" && TrimStart(s)[0] == ZWSP
    ensures KindOf(s) == Plain && !IsFence(s)
  {
  }

  lemma GuardStartTrims(out: string)
    ensures TrimStart(GuardStart(out)) == [ZWSP] + TrimStart(out)
  {
    TrimStartIsSuffix(out);
    var t := TrimStart(out);
    var w := |out| - |t|;
    IndentIs(GuardStart(out), w);
    assert GuardStart(out)[w..] == [ZWSP] + t;
  }

  lemma TrimOfGuarded(s: string)
    requires ZWSP in s
    ensures Trim(s) != "---"
  {
    TrimStartIsSuffix(s);
    TrimEndIsPrefix(TrimStart(s));
    var i :| 0 <= i < |s| && s[i] == ZWSP;
    var t := TrimStart(s);
    assert t[i - (|s| - |t|)] == ZWSP;
    assert Trim(s)[i - (|s| - |t|)] == ZWSP;
  }

  // ---------------------------------------------------------------------------------------------
  // Literal prefixes survive filling
  // ---------------------------------------------------------------------------------------------

  lemma CopyStep(line: string, pos: nat, values: Values, context: Context, span: Option<Span>)
    requires pos < |line| && line[pos] != '{'
    ensures FillFrom(line, pos, values, context, span) == [line[pos]] + FillFrom(line, pos + 1, values, context, span)
  {
  }

  lemma NeutralCopyStep(line: string, pos: nat, values: Values)
    requires pos < |line| && line[pos] != '{'
    ensures NeutralFrom(line, pos, values) == [line[pos]] + NeutralFrom(line, pos + 1, values)
  {
  }

  lemma BehindFirst(line: string, pos: nat, m: nat)
    requires pos < m <= |line| && '{' !in line[pos..m]
    ensures line[pos] != '{' && '{' !in line[pos + 1..m]
  {
    assert line[pos..m] == [line[pos]] + line[pos + 1..m];
  }

  lemma JoinFirst(line: string, pos: nat, m: nat, whole: string, tail: string, rest: string)
    requires pos < m <= |line| && whole == [line[pos]] + tail && tail == line[pos + 1..m] + rest
    ensures whole == line[pos..m] + rest
  {
  }

  lemma {:induction false} FilledPrefixIsCopied(line: string, pos: nat, m: nat, values: Values, context: Context, span: Option<Span>)
    requires pos <= m <= |line| && '{' !in line[pos..m]
    ensures FillFrom(line, pos, values, context, span) == line[pos..m] + FillFrom(line, m, values, context, span)
    decreases m - pos
  {
    if pos == m {
      assert line[pos..m] == "";
    } else {
      BehindFirst(line, pos, m);
      CopyStep(line, pos, values, context, span);
      FilledPrefixIsCopied(line, pos + 1, m, values, context, span);
      JoinFirst(line, pos, m, FillFrom(line, pos, values, context, span), FillFrom(line, pos + 1, values, context, span),
                FillFrom(line, m, values, context, span));
    }
  }

  lemma {:induction false} NeutralPrefixIsCopied(line: string, pos: nat, m: nat, values: Values)
    requires pos <= m <= |line| && '{' !in line[pos..m]
    ensures NeutralFrom(line, pos, values) == line[pos..m] + NeutralFrom(line, m, values)
    decreases m - pos
  {
    if pos == m {
      assert line[pos..m] == "";
    } else {
      BehindFirst(line, pos, m);
      NeutralCopyStep(line, pos, values);
      NeutralPrefixIsCopied(line, pos + 1, m, values);
      JoinFirst(line, pos, m, NeutralFrom(line, pos, values), NeutralFrom(line, pos + 1, values), NeutralFrom(line, m, values));
    }
  }

  lemma NoBraceInSlice(line: string, pos: nat, n: nat)
    requires pos + n <= |line| && forall i :: pos <= i < pos + n ==> line[i] != '{'
    ensures '{' !in line[pos..pos + n]
  {
  }

  /** Characters before the first brace are copied. */
  lemma PrefixIsCopied(line: string, pos: nat, n: nat, values: Values, context: Context, span: Option<Span>)
    requires pos + n <= |line| && forall i :: pos <= i < pos + n ==> line[i] != '{'
    ensures FillFrom(line, pos, values, context, span) == line[pos..pos + n] + FillFrom(line, pos + n, values, context, span)
    ensures NeutralFrom(line, pos, values) == line[pos..pos + n] + NeutralFrom(line, pos + n, values)
  {
    NoBraceInSlice(line, pos, n);
    FilledPrefixIsCopied(line, pos, pos + n, values, context, span);
    NeutralPrefixIsCopied(line, pos, pos + n, values);
  }

  /** A placeholder shows as `x` or as its own brace. */
  lemma NeutralHead(line: string, pos: nat, values: Values)
    requires pos < |line|
    ensures NeutralFrom(line, pos, values) != ""
    ensures PlaceholderAt(line, pos).Some? ==> NeutralFrom(line, pos, values)[0] in {'x', '{'}
    ensures PlaceholderAt(line, pos).None? ==> NeutralFrom(line, pos, values) == [line[pos]] + NeutralFrom(line, pos + 1, values)
  {
  }

  lemma HeadApart(line: string, pos: nat, n: nat, neutral: string, rest: string)
    requires 0 < n <= |neutral| && pos + n <= |line| && neutral == [line[pos]] + rest && line[pos + 1..pos + n] == rest[..n - 1]
    ensures line[pos..pos + n] == neutral[..n]
  {
    assert line[pos..pos + n] == [line[pos]] + line[pos + 1..pos + n];
    assert neutral[..n] == [line[pos]] + rest[..n - 1];
  }

  predicate Avoids(s: string, n: nat)
    requires n <= |s|
  {
    'x' !in s[..n] && '{' !in s[..n]
  }

  lemma TailAvoids(s: string, head: char, rest: string, n: nat)
    requires 0 < n <= |s| && s == [head] + rest && Avoids(s, n)
    ensures Avoids(rest, n - 1)
  {
    assert s[..n] == [head] + rest[..n - 1];
  }

  /** Where the neutral form starts with neither `x` nor `{`, it starts with the line's own character. */
  lemma LiteralHead(line: string, pos: nat, n: nat, values: Values)
    requires pos <= |line| && 0 < n <= |NeutralFrom(line, pos, values)| && Avoids(NeutralFrom(line, pos, values), n)
    ensures pos < |line| && NeutralFrom(line, pos, values) == [line[pos]] + NeutralFrom(line, pos + 1, values)
  {
    var neutral := NeutralFrom(line, pos, values);
    assert neutral[0] == neutral[..n][0];
    assert pos < |line|;
    NeutralHead(line, pos, values);
  }

  /** A prefix of the neutral form without `x` and `{` comes from the line itself. */
  lemma {:induction false} NeutralPrefixIsSlice(line: string, pos: nat, n: nat, values: Values)
    requires pos <= |line| && n <= |NeutralFrom(line, pos, values)| && Avoids(NeutralFrom(line, pos, values), n)
    ensures pos + n <= |line| && line[pos..pos + n] == NeutralFrom(line, pos, values)[..n]
    decreases n
  {
    if n == 0 {
      assert line[pos..pos + n] == "" == NeutralFrom(line, pos, values)[..n];
    } else {
      LiteralHead(line, pos, n, values);
      var neutral, rest := NeutralFrom(line, pos, values), NeutralFrom(line, pos + 1, values);
      TailAvoids(neutral, line[pos], rest, n);
      NeutralPrefixIsSlice(line, pos + 1, n - 1, values);
      HeadApart(line, pos, n, neutral, rest);
    }
  }

  lemma NeutralPrefixIsLiteral(line: string, pos: nat, n: nat, values: Values)
    requires pos <= |line| && n <= |NeutralFrom(line, pos, values)|
    requires forall i :: 0 <= i < n ==> NeutralFrom(line, pos, values)[i] !in {'x', '{'}
    ensures pos + n <= |line| && forall i :: 0 <= i < n ==> line[pos + i] == NeutralFrom(line, pos, values)[i] && line[pos + i] != '{'
  {
    var neutral := NeutralFrom(line, pos, values);
    NeutralPrefixIsSlice(line, pos, n, values);
    forall i | 0 <= i < n
      ensures line[pos + i] == neutral[i] && line[pos + i] != '{'
    {
      assert line[pos..pos + n][i] == neutral[..n][i];
    }
  }

  /** White space, then `n` visible characters that are not braces. */
  ghost predicate StartsPlainly(s: string, spaces: nat, n: nat) {
    && spaces + n <= |s| && |s| - |TrimStart(s)| == spaces
    && forall i :: 0 <= i < spaces + n ==> s[i] != '{' && s[i] != 'x'
  }

  lemma FenceStartsPlainly(s: string)
    requires IsFence(s)
    ensures StartsPlainly(s, |s| - |TrimStart(s)|, 3)
  {
  }

  /** Two texts that agree on the white space and `n` visible characters. */
  lemma SameStart(s: string, r: string, spaces: nat, n: nat)
    requires n > 0 && spaces + n <= |s| && spaces + n <= |r| && |s| - |TrimStart(s)| == spaces
    requires forall i :: 0 <= i < spaces + n ==> s[i] == r[i]
    ensures |r| - |TrimStart(r)| == spaces && TrimStart(s)[..n] == TrimStart(r)[..n]
  {
    TrimStartIsSuffix(s);
    var t := TrimStart(s);
    assert t == s[spaces..];
    assert t[0] == s[spaces];
    IndentIs(r, spaces);
    var u := r[spaces..];
    forall i | 0 <= i < n
      ensures t[i] == u[i]
    {
      assert t[i] == s[spaces + i] && u[i] == r[spaces + i];
    }
    assert t[..n] == u[..n];
  }

  lemma FenceIsKept(line: string, values: Values, context: Context, span: Option<Span>)
    requires IsFence(line)
    ensures IsFence(FillFrom(line, 0, values, context, span)) && IsFence(Neutral(line, values))
  {
    FenceStartsPlainly(line);
    var w := |line| - |TrimStart(line)|;
    PrefixIsCopied(line, 0, w + 3, values, context, span);
    assert line[0..w + 3] == line[..w + 3];
    SameStart(line, FillFrom(line, 0, values, context, span), w, 3);
    SameStart(line, Neutral(line, values), w, 3);
  }

  lemma NeutralFenceIsFence(line: string, values: Values)
    requires IsFence(Neutral(line, values))
    ensures IsFence(line)
  {
    var neutral := Neutral(line, values);
    FenceStartsPlainly(neutral);
    var w := |neutral| - |TrimStart(neutral)|;
    NeutralPrefixIsLiteral(line, 0, w + 3, values);
    assert forall i :: 0 <= i < w + 3 ==> line[0 + i] == neutral[i];
    SameStart(neutral, line, w, 3);
  }

  // ---------------------------------------------------------------------------------------------
  // The kind of a guarded line
  // ---------------------------------------------------------------------------------------------

  /** Cutting trailing white space and adding the guard keeps the visible start. */
  lemma SuffixedStart(s: string)
    requires TrimStart(s) != ""
    ensures var t, u := TrimStart(s), TrimStart(TrimEnd(s) + [ZWSP]);
      && |u| >= 2 && |u| <= |t| + 1 && u[|u| - 1] == ZWSP
      && (forall i :: 0 <= i < |u| - 1 ==> u[i] == t[i])
      && (forall i :: |u| - 1 <= i < |t| ==> IsSpace(t[i]))
  {
    TrimStartIsSuffix(s);
    TrimEndIsPrefix(s);
    var t, e := TrimStart(s), TrimEnd(s);
    var w := |s| - |t|;
    assert s[w] == t[0];
    assert |e| > w;
    var r := e + [ZWSP];
    assert forall i :: 0 <= i < |e| ==> r[i] == s[i];
    IndentIs(r, w);
    assert forall i :: 0 <= i < |t| ==> t[i] == s[w + i];
  }

  lemma {:induction false} RunOfPrefix(s: string, r: string, c: char, n: nat)
    requires n <= |s| && n <= |r| && (forall i :: 0 <= i < n ==> s[i] == r[i]) && RunLength(s, c) < n
    ensures RunLength(r, c) == RunLength(s, c)
    decreases n
  {
    if s[0] != c {
    } else {
      assert forall i :: 0 <= i < n - 1 ==> s[1..][i] == r[1..][i];
      RunOfPrefix(s[1..], r[1..], c, n - 1);
    }
  }

  lemma {:induction false} VisibleIsNotBlank(s: string, i: nat)
    requires i < |s| && !IsSpace(s[i])
    ensures !Blank(s)
    decreases i
  {
    if i == 0 {
    } else {
      VisibleIsNotBlank(s[1..], i - 1);
    }
  }

  lemma NotBlankHasVisible(s: string) returns (i: nat)
    requires !Blank(s)
    ensures i < |s| && !IsSpace(s[i])
  {
    TrimStartIsSuffix(s);
    i := |s| - |TrimStart(s)|;
  }

  lemma HeadingParts(t: string) returns (n: nat, v: nat)
    requires IsHeading(t)
    ensures n == RunLength(t, '#') && 1 <= n <= 6 && n < v < |t| && IsSpace(t[n]) && !IsSpace(t[v])
  {
    n := RunLength(t, '#');
    v := NotBlankHasVisible(t[n..]);
    v := n + v;
  }

  lemma HeadingFromParts(t: string, n: nat, v: nat)
    requires n == RunLength(t, '#') && 1 <= n <= 6 && n < v < |t| && IsSpace(t[n]) && !IsSpace(t[v])
    ensures IsHeading(t)
  {
    assert t[n..][v - n] == t[v];
    VisibleIsNotBlank(t[n..], v - n);
  }

  lemma SuffixedHeadingIsHeading(s: string)
    requires KindOf(s) == Heading
    ensures KindOf(TrimEnd(s) + [ZWSP]) == Heading
    ensures RunLength(TrimStart(TrimEnd(s) + [ZWSP]), '#') == RunLength(TrimStart(s), '#')
  {
    var t, u := TrimStart(s), TrimStart(TrimEnd(s) + [ZWSP]);
    var n, v := HeadingParts(t);
    SuffixedStart(s);
    assert v < |u| - 1;
    RunOfPrefix(t, u, '#', n + 1);
    HeadingFromParts(u, n, v);
    HeadingKind(TrimEnd(s) + [ZWSP]);
  }

  lemma HeadingKind(s: string)
    requires IsHeading(TrimStart(s))
    ensures KindOf(s) == Heading
  {
  }

  // ---------------------------------------------------------------------------------------------
  // Structure of one filled line
  // ---------------------------------------------------------------------------------------------

  /** What the guards make of a filled line, outside the frontmatter. */
  lemma GuardedKind(neutral: string, out: string, context: Context)
    requires context != Yaml
    ensures var f := Guarded(neutral, out, context);
      && (context == Noma ==> KindOf(f) == KindOf(neutral) || KindOf(f) == Plain)
      && (IsFence(f) ==> IsFence(neutral))
      && (f != out ==> ZWSP in f)
      && (KindOf(neutral) == Heading && !HasHeadingAttrs(neutral) ==> !HasHeadingAttrs(f))
  {
    var out1 := if ChangesStructure(neutral, out, context) then GuardStart(out) else out;
    GuardStartTrims(out);
    FirstGuardKind(neutral, out, context);
    if KindOf(neutral) == Heading && !HasHeadingAttrs(neutral) && HasHeadingAttrs(out1) {
      SecondGuardKind(out1);
    }
  }

  lemma FirstGuardKind(neutral: string, out: string, context: Context)
    requires context != Yaml
    ensures var out1 := if ChangesStructure(neutral, out, context) then GuardStart(out) else out;
      && (context == Noma ==> KindOf(out1) == KindOf(neutral) || (KindOf(out1) == Plain && StartsGuarded(out1)))
      && (context == Code ==> StartsGuarded(out1) || (IsFence(out1) ==> IsFence(neutral)))
      && (StartsGuarded(out1) ==> KindOf(out1) == Plain && !IsFence(out1))
      && (out1 != out ==> ZWSP in out1)
  {
    GuardStartTrims(out);
    if ChangesStructure(neutral, out, context) {
      GuardedIsPlain(GuardStart(out));
    }
    if StartsGuarded(out) {
      GuardedIsPlain(out);
    }
  }

  ghost predicate StartsGuarded(s: string) {
    TrimStart(s) != "" && TrimStart(s)[0] == ZWSP
  }

  lemma AttrsAreVisible(s: string)
    requires HasHeadingAttrs(s)
    ensures TrimStart(s) != ""
  {
    TrimEndIsPrefix(s);
    var t := TrimEnd(s);
    assert s[|t| - 1] == '}';
    VisibleIsNotBlank(s, |t| - 1);
  }

  /** The trailing guard leaves no attribute block, and neither makes a fence nor unmakes a heading. */
  lemma SecondGuardKind(out1: string)
    requires HasHeadingAttrs(out1)
    ensures var f := TrimEnd(out1) + [ZWSP];
      && !HasHeadingAttrs(f) && ZWSP in f
      && (KindOf(out1) == Heading ==> KindOf(f) == Heading)
      && (StartsGuarded(out1) ==> StartsGuarded(f) && KindOf(f) == Plain)
      && (IsFence(f) ==> IsFence(out1))
  {
    var f := TrimEnd(out1) + [ZWSP];
    AttrsAreVisible(out1);
    SuffixedStart(out1);
    assert f[|f| - 1] == ZWSP;
    assert TrimEnd(f) == f;
    if KindOf(out1) == Heading {
      SuffixedHeadingIsHeading(out1);
    }
    if StartsGuarded(out1) {
      GuardedIsPlain(f);
    }
    FenceOfPrefix(TrimStart(out1), TrimStart(f));
  }

  lemma FenceOfPrefix(t: string, u: string)
    requires |u| >= 2 && |u| <= |t| + 1 && u[|u| - 1] == ZWSP && forall i :: 0 <= i < |u| - 1 ==> u[i] == t[i]
    ensures StartsWith(u, "```") ==> StartsWith(t, "```")
  {
  }

  // ---------------------------------------------------------------------------------------------
  // A filled line never becomes a frontmatter delimiter
  // ---------------------------------------------------------------------------------------------

  lemma {:induction false} NeutralIsMarked(line: string, pos: nat, values: Values, at: nat)
    requires pos <= at < |line| && line[at] == '{'
    ensures 'x' in NeutralFrom(line, pos, values) || '{' in NeutralFrom(line, pos, values)
    decreases at - pos
  {
    NeutralHead(line, pos, values);
    var neutral := NeutralFrom(line, pos, values);
    if PlaceholderAt(line, pos).Some? {
      assert neutral[0] in neutral;
    } else if pos == at {
      assert neutral[0] in neutral;
    } else {
      NeutralIsMarked(line, pos + 1, values, at);
      MarkStays(line[pos], NeutralFrom(line, pos + 1, values));
    }
  }

  lemma MarkStays(c: char, rest: string)
    requires 'x' in rest || '{' in rest
    ensures 'x' in [c] + rest || '{' in [c] + rest
  {
    var i :| 0 <= i < |rest| && rest[i] in {'x', '{'};
    assert ([c] + rest)[i + 1] == rest[i];
  }

  /** A line with no visible characters but rules has neither mark. */
  ghost predicate OnlyRules(s: string) {
    forall c :: c in s ==> IsSpace(c) || c == '-' || c == '*' || c == '_'
  }

  lemma {:induction false} RunIsThatChar(s: string, c: char)
    ensures forall i :: 0 <= i < RunLength(s, c) ==> s[i] == c
  {
    if s == "" || s[0] != c {
    } else {
      RunIsThatChar(s[1..], c);
    }
  }

  lemma BlankIsSpaces(s: string)
    requires Blank(s)
    ensures forall c :: c in s ==> IsSpace(c)
  {
    TrimStartIsSuffix(s);
  }

  lemma RunThenBlank(t: string, c: char)
    requires c in {'-', '*', '_'} && Blank(t[RunLength(t, c)..])
    ensures OnlyRules(t)
  {
    var n := RunLength(t, c);
    RunIsThatChar(t, c);
    BlankIsSpaces(t[n..]);
    forall d | d in t
      ensures IsSpace(d) || d == c
    {
      var i :| 0 <= i < |t| && t[i] == d;
      if i >= n {
        assert t[n..][i - n] == d;
      }
    }
  }

  lemma ThematicHasOnlyRules(s: string)
    requires KindOf(s) == Thematic
    ensures OnlyRules(s)
  {
    TrimStartIsSuffix(s);
    var t := TrimStart(s);
    if Blank(t[RunLength(t, '-')..]) {
      RunThenBlank(t, '-');
    } else if Blank(t[RunLength(t, '*')..]) {
      RunThenBlank(t, '*');
    } else {
      RunThenBlank(t, '_');
    }
    forall c | c in s
      ensures IsSpace(c) || c == '-' || c == '*' || c == '_'
    {
      var i :| 0 <= i < |s| && s[i] == c;
      if i >= |s| - |t| {
        assert t[i - (|s| - |t|)] == c;
      }
    }
  }

  lemma DelimiterIsThematic(s: string)
    requires Trim(s) == "---"
    ensures KindOf(s) == Thematic && !IsFence(s)
  {
    var t := TrimStart(s);
    TrimEndIsPrefix(t);
    assert t[..3] == "---" && t[0] == '-' && t[1] == '-' && t[2] == '-';
    assert t[3..] == "" || IsSpace(t[3]);
    BlankFrom(t, 3);
    assert RunLength(t, '-') == 3 by {
      assert RunLength(t[3..], '-') == 0;
      assert t[1..][1..][1..] == t[3..];
      assert RunLength(t[1..][1..], '-') == 1;
      assert RunLength(t[1..], '-') == 2;
    }
    assert RunLength(t, ':') == 0 && RunLength(t, '#') == 0;
  }

  lemma {:induction false} BlankFrom(t: string, n: nat)
    requires n <= |t| && forall i :: n <= i < |t| ==> IsSpace(t[i])
    ensures Blank(t[n..])
    decreases |t| - n
  {
    if n == |t| {
    } else {
      BlankFrom(t, n + 1);
      assert t[n..][1..] == t[n + 1..];
    }
  }

  /** Outside the frontmatter a line with a placeholder never becomes `---`. */
  lemma FilledNomaIsNoDelimiter(line: string, values: Values)
    requires HasBraces(line)
    ensures Trim(FilledLine(line, values, Noma)) != "---"
  {
    var neutral, out := Neutral(line, values), Filled(line, values, Noma);
    var f := FilledLine(line, values, Noma);
    GuardedKind(neutral, out, Noma);
    if ZWSP in f {
      TrimOfGuarded(f);
    } else {
      var i :| 0 <= i && i + 1 < |line| && line[i] == '{' && line[i + 1] == '{';
      NeutralIsMarked(line, 0, values, i);
      MarkedIsNotThematic(neutral);
      if Trim(f) == "---" {
        DelimiterIsThematic(f);
      }
    }
  }

  lemma MarkedIsNotThematic(s: string)
    requires 'x' in s || '{' in s
    ensures KindOf(s) != Thematic
  {
    if KindOf(s) == Thematic {
      ThematicHasOnlyRules(s);
    }
  }

  // In the frontmatter ---------------------------------------------------------------------------

  ghost predicate YamlMarked(s: string) {
    '"' in s || '\'' in s || '{' in s
  }

  lemma QuoteAfterStep(line: string, pos: nat)
    requires pos < |line|
    ensures QuoteAfter(line[..pos + 1], Unquoted) == QuoteStep(QuoteAfter(line[..pos], Unquoted), line[pos])
  {
    assert line[..pos + 1][..pos] == line[..pos];
  }

  /** While no quote is open, filling leaves a quote or a brace behind. */
  lemma {:induction false} YamlFillIsMarked(line: string, pos: nat, values: Values, span: Option<Span>, at: nat)
    requires pos <= at < |line| && line[at] == '{' && QuoteAfter(line[..pos], Unquoted) == Unquoted
    ensures YamlMarked(FillFrom(line, pos, values, Yaml, span))
    decreases at - pos
  {
    var out := FillFrom(line, pos, values, Yaml, span);
    var p := PlaceholderAt(line, pos);
    if p.Some? {
      var piece := Piece(line, pos, p.value, values, Yaml, span);
      assert piece != "" && (piece[0] == '"' || piece[0] == '{');
      assert out[0] == piece[0];
      assert out[0] in out;
    } else {
      assert out == [line[pos]] + FillFrom(line, pos + 1, values, Yaml, span);
      assert out[0] in out;
      if pos != at && line[pos] != '"' && line[pos] != '\'' {
        QuoteAfterStep(line, pos);
        YamlFillIsMarked(line, pos + 1, values, span, at);
        MarkedTail([line[pos]], FillFrom(line, pos + 1, values, Yaml, span));
      }
    }
  }

  lemma MarkedTail(a: string, b: string)
    requires YamlMarked(b)
    ensures YamlMarked(a + b)
  {
  }

  lemma FilledYamlIsNoDelimiter(line: string, values: Values)
    requires HasBraces(line)
    ensures Trim(FilledLine(line, values, Yaml)) != "---"
  {
    var i :| 0 <= i && i + 1 < |line| && line[i] == '{' && line[i + 1] == '{';
    assert line[..0] == "";
    YamlFillIsMarked(line, 0, values, None, i);
    var f := FilledLine(line, values, Yaml);
    if Trim(f) == "---" {
      DelimiterIsThematic(f);
      ThematicHasOnlyRules(f);
    }
  }

  // ---------------------------------------------------------------------------------------------
  // Regions
  // ---------------------------------------------------------------------------------------------

  lemma FilledFence(line: string, values: Values, context: Context)
    requires context != Yaml
    ensures IsFence(FilledLine(line, values, context)) <==> IsFence(line)
  {
    var neutral, out := Neutral(line, values), Filled(line, values, context);
    GuardedKind(neutral, out, context);
    if IsFence(line) {
      FenceIsKept(line, values, context, SpanFor(line, values, context));
      assert KindOf(out) == Fence && KindOf(neutral) == Fence;
    } else if IsFence(neutral) {
      NeutralFenceIsFence(line, values);
    }
  }

  /** Reading the filled line moves between regions exactly as reading the template line does. */
  lemma SameNextRegion(region: Region, line: string, i: nat, values: Values)
    requires i == 0 ==> !region.inFence && region.inFrontmatter == (Trim(line) == "---")
    ensures NextRegion(region, LineFrom(region, line, i, values), i) == NextRegion(region, line, i)
    ensures i == 0 ==> (Trim(LineFrom(region, line, i, values)) == "---" <==> Trim(line) == "---")
  {
    var context := ContextAt(NextRegion(region, line, i), i);
    if HasBraces(line) && !(i > 0 && region.inFrontmatter && Trim(line) == "---") {
      BracesAreNoDelimiter(line);
      if region.inFrontmatter && i > 0 {
        FilledYamlIsNoDelimiter(line, values);
      } else {
        FilledFence(line, values, context);
        if context == Noma {
          FilledNomaIsNoDelimiter(line, values);
        } else if Trim(FilledLine(line, values, Code)) == "---" {
          DelimiterIsThematic(FilledLine(line, values, Code));
        }
      }
    }
  }

  lemma BracesAreNoDelimiter(line: string)
    requires HasBraces(line)
    ensures Trim(line) != "---"
  {
    var i :| 0 <= i && i + 1 < |line| && line[i] == '{' && line[i + 1] == '{';
    assert line[i] in line;
    if Trim(line) == "---" {
      DelimiterIsThematic(line);
      ThematicHasOnlyRules(line);
    }
  }

  /** For every template and all values: the same region after every line. */
  lemma {:induction false} SameRegions(lines: seq<string>, values: Values, n: nat)
    requires n <= |lines|
    ensures RegionAfter(FilledLines(lines, values), n) == RegionAfter(lines, n)
    decreases n
  {
    if n == 0 {
      if lines != [] {
        SameNextRegion(RegionAfter(lines, 0), lines[0], 0, values);
      }
    } else {
      SameRegions(lines, values, n - 1);
      if n > 1 {
        FenceClosedAtStart(lines);
      }
      SameNextRegion(RegionAfter(lines, n - 1), lines[n - 1], n - 1, values);
    }
  }

  lemma FenceClosedAtStart(lines: seq<string>)
    ensures !RegionAfter(lines, 0).inFence
  {
  }

  /** What one filled line may look like. */
  ghost predicate LineKept(region: Region, line: string, i: nat, values: Values, filled: string) {
    var context := ContextAt(NextRegion(region, line, i), i);
    && NoBreaks(filled)
    && (context == Noma ==> KindOf(filled) == KindOf(Neutral(line, values)) || KindOf(filled) == Plain)
    && (context != Yaml && KindOf(Neutral(line, values)) == Heading && !HasHeadingAttrs(Neutral(line, values)) ==> !HasHeadingAttrs(filled))
  }

  lemma {:induction false} NoBracesNoChange(line: string, pos: nat, values: Values)
    requires pos <= |line| && !HasBraces(line)
    ensures NeutralFrom(line, pos, values) == line[pos..]
    decreases |line| - pos
  {
    if pos == |line| {
    } else {
      NoBracesNoChange(line, pos + 1, values);
      assert PlaceholderAt(line, pos).None?;
      assert line[pos..] == [line[pos]] + line[pos + 1..];
    }
  }

  lemma LineIsKept(region: Region, line: string, i: nat, values: Values)
    requires NoBreaks(line)
    ensures LineKept(region, line, i, values, LineFrom(region, line, i, values))
  {
    var context := ContextAt(NextRegion(region, line, i), i);
    if !HasBraces(line) {
      NoBracesNoChange(line, 0, values);
      assert line[0..] == line;
    } else if !(i > 0 && region.inFrontmatter && Trim(line) == "---") {
      FilledLineHasNoBreaks(line, values, context);
      if context != Yaml {
        GuardedKind(Neutral(line, values), Filled(line, values, context), context);
      }
    } else {
      BracesAreNoDelimiter(line);
    }
  }

  lemma {:induction false} LinesHaveNoReturns(s: string)
    requires '\r' !in s
    ensures forall line :: line in Lines(s) ==> NoBreaks(line)
  {
    LinesAreSingle(s);
    if s == "" {
    } else {
      assert s[0] in s;
      LinesHaveNoReturns(s[1..]);
      assert NoBreaks(Lines(s[1..])[0]);
    }
  }

  /** The text of a filled template. */
  function Instantiated(source: string, values: Values): string {
    Unlines(FilledLines(Lines(Normalize(source)), values))
  }

  /** For every template source and all values: read back, the result has as many lines, the same frontmatter and fence
      region after every line, and each line outside fences has the kind of its neutral form or is plain text. */
  lemma FillingKeepsStructure(source: string, values: Values)
    ensures var before, after := Lines(Normalize(source)), Lines(Normalize(Instantiated(source, values)));
      && |after| == |before|
      && (forall n: nat :: n <= |before| ==> RegionAfter(after, n) == RegionAfter(before, n))
      && (forall i: nat :: i < |before| ==> LineKept(RegionAfter(before, i), before[i], i, values, after[i]))
  {
    var before := Lines(Normalize(source));
    var out := FilledLines(before, values);
    NormalizeRemovesReturns(source);
    LinesHaveNoReturns(Normalize(source));
    forall i: nat | i < |before|
      ensures LineKept(RegionAfter(before, i), before[i], i, values, out[i])
    {
      LineIsKept(RegionAfter(before, i), before[i], i, values);
    }
    forall line | line in out
      ensures NoBreaks(line)
    {
      var i: nat :| i < |out| && out[i] == line;
      assert LineKept(RegionAfter(before, i), before[i], i, values, out[i]);
    }
    UnlinesNoReturns(out);
    NormalizeKeeps(Unlines(out));
    LinesOfUnlines(out);
    forall n: nat | n <= |before|
      ensures RegionAfter(out, n) == RegionAfter(before, n)
    {
      SameRegions(before, values, n);
    }
  }

  // ---------------------------------------------------------------------------------------------
  // Quoting inside an attribute block
  // ---------------------------------------------------------------------------------------------

  /** Scanning for placeholders from `from` reaches `pos`, so `pos` is not inside one. */
  predicate Reached(line: string, from: nat, pos: nat)
    requires from <= pos <= |line|
    decreases pos - from
  {
    from == pos ||
    match PlaceholderAt(line, from)
    case None => Reached(line, from + 1, pos)
    case Some(p) => p.end <= pos && Reached(line, p.end, pos)
  }

  /** What the stretch from `from` to `pos` is filled to. */
  function FillBetween(line: string, from: nat, pos: nat, values: Values, context: Context, span: Option<Span>): string
    requires from <= pos <= |line| && Reached(line, from, pos)
    decreases pos - from
  {
    if from == pos then ""
    else
      match PlaceholderAt(line, from)
      case None => [line[from]] + FillBetween(line, from + 1, pos, values, context, span)
      case Some(p) => Piece(line, from, p, values, context, span) + FillBetween(line, p.end, pos, values, context, span)
  }

  lemma PrependTo(piece: string, a: string, b: string, tail: string)
    requires tail == a + b
    ensures piece + tail == (piece + a) + b
  {
  }

  lemma {:induction false} FillInTwo(line: string, from: nat, pos: nat, values: Values, context: Context, span: Option<Span>)
    requires from <= pos <= |line| && Reached(line, from, pos)
    ensures FillFrom(line, from, values, context, span)
         == FillBetween(line, from, pos, values, context, span) + FillFrom(line, pos, values, context, span)
    decreases pos - from
  {
    if from == pos {
    } else {
      var found, rest := PlaceholderAt(line, from), FillFrom(line, pos, values, context, span);
      var next := if found.None? then from + 1 else found.value.end;
      var piece := if found.None? then [line[from]] else Piece(line, from, found.value, values, context, span);
      FillInTwo(line, next, pos, values, context, span);
      PrependTo(piece, FillBetween(line, next, pos, values, context, span), rest, FillFrom(line, next, values, context, span));
    }
  }

  lemma {:induction false} QuoteAfterConcat(a: string, b: string, q: Quote)
    ensures QuoteAfter(a + b, q) == QuoteAfter(b, QuoteAfter(a, q))
  {
    if b == "" {
      assert a + b == a;
    } else {
      var n := |b| - 1;
      assert (a + b)[..|a + b| - 1] == a + b[..n];
      QuoteAfterConcat(a, b[..n], q);
    }
  }

  /** Text without the quote that matters leaves the automaton where it is. */
  lemma {:induction false} QuoteAfterSafe(s: string, q: Quote)
    requires q == Double ==> '"' !in s
    requires q == Single ==> '\'' !in s
    requires q == Unquoted ==> '"' !in s && '\'' !in s
    ensures QuoteAfter(s, q) == q
  {
    if s == "" {
    } else {
      assert s[|s| - 1] in s;
      QuoteAfterSafe(s[..|s| - 1], q);
    }
  }

  lemma {:induction false} SkippedSpaces(line: string, i: nat)
    requires i <= |line|
    ensures forall k :: i <= k < SkipSpaces(line, i) ==> IsSpace(line[k])
    decreases |line| - i
  {
    if i == |line| || !IsSpace(line[i]) {
    } else {
      SkippedSpaces(line, i + 1);
    }
  }

  lemma {:induction false} SkippedWord(line: string, i: nat)
    requires i <= |line|
    ensures forall k :: i <= k < SkipWord(line, i) ==> IsWordChar(line[k])
    decreases |line| - i
  {
    if i == |line| || !IsWordChar(line[i]) {
    } else {
      SkippedWord(line, i + 1);
    }
  }

  lemma PlaceholderHasNoQuotes(line: string, i: nat)
    requires i <= |line| && PlaceholderAt(line, i).Some?
    ensures forall k :: i <= k < PlaceholderAt(line, i).value.end ==> line[k] != '"' && line[k] != '\''
  {
    var from := SkipSpaces(line, i + 2);
    SkippedSpaces(line, i + 2);
    SkippedWord(line, from);
    SkippedSpaces(line, SkipWord(line, from));
  }

  /** A substituted value inside the block has no brace, and reading it leaves the quote state as it is. */
  lemma PieceKeepsQuote(line: string, pos: nat, values: Values, span: Span)
    requires span.start < pos < span.end && pos < |line| && PlaceholderAt(line, pos).Some?
    ensures var p := PlaceholderAt(line, pos).value;
      var q := QuoteAfter(line[span.start..pos], Unquoted);
      var piece := Piece(line, pos, p, values, Noma, Some(span));
      && QuoteAfter(piece, q) == q && QuoteAfter(line[pos..p.end], q) == q
      && (p.name in values ==> '{' !in piece && '}' !in piece)
  {
    var p := PlaceholderAt(line, pos).value;
    var q := QuoteAfter(line[span.start..pos], Unquoted);
    PlaceholderHasNoQuotes(line, pos);
    var text := line[pos..p.end];
    assert forall i :: 0 <= i < |text| ==> text[i] == line[pos + i];
    QuoteAfterSafe(text, q);
    if p.name in values {
      OneLineIsClean(values[p.name]);
      AttributeValueIsSafe(OneLine(values[p.name]), q);
      QuoteAfterSafe(AttributeValue(OneLine(values[p.name]), q), q);
    }
  }

  /** Reading on from `from` to `next` in the template. */
  lemma QuoteBetween(line: string, start: nat, from: nat, next: nat)
    requires start <= from <= next <= |line|
    ensures QuoteAfter(line[start..next], Unquoted) == QuoteAfter(line[from..next], QuoteAfter(line[start..from], Unquoted))
  {
    assert line[start..from] + line[from..next] == line[start..next];
    QuoteAfterConcat(line[start..from], line[from..next], Unquoted);
  }

  lemma QuoteBehindCharacter(line: string, from: nat, rest: string, span: Span)
    requires span.start < from < |line|
    ensures QuoteAfter([line[from]] + rest, QuoteAfter(line[span.start..from], Unquoted))
         == QuoteAfter(rest, QuoteAfter(line[span.start..from + 1], Unquoted))
  {
    QuoteBetween(line, span.start, from, from + 1);
    assert line[from..from + 1] == [line[from]];
    QuoteAfterConcat([line[from]], rest, QuoteAfter(line[span.start..from], Unquoted));
  }

  lemma QuoteBehindPiece(line: string, from: nat, p: Placeholder, rest: string, values: Values, span: Span)
    requires span.start < from < span.end && from < |line| && PlaceholderAt(line, from) == Some(p)
    ensures QuoteAfter(Piece(line, from, p, values, Noma, Some(span)) + rest, QuoteAfter(line[span.start..from], Unquoted))
         == QuoteAfter(rest, QuoteAfter(line[span.start..p.end], Unquoted))
  {
    QuoteBetween(line, span.start, from, p.end);
    PieceKeepsQuote(line, from, values, span);
    QuoteAfterConcat(Piece(line, from, p, values, Noma, Some(span)), rest, QuoteAfter(line[span.start..from], Unquoted));
  }

  /** Filling from `from` to `pos` ends in the quote state the template has at `pos`. */
  ghost predicate QuoteKept(line: string, from: nat, pos: nat, values: Values, span: Span)
    requires span.start < from <= pos <= |line| && Reached(line, from, pos)
  {
    QuoteAfter(FillBetween(line, from, pos, values, Noma, Some(span)), QuoteAfter(line[span.start..from], Unquoted))
    == QuoteAfter(line[span.start..pos], Unquoted)
  }

  lemma KeptBehindCharacter(line: string, from: nat, pos: nat, values: Values, span: Span)
    requires span.start < from < pos <= |line| && Reached(line, from, pos)
    requires PlaceholderAt(line, from).None? && Reached(line, from + 1, pos) && QuoteKept(line, from + 1, pos, values, span)
    ensures QuoteKept(line, from, pos, values, span)
  {
    QuoteBehindCharacter(line, from, FillBetween(line, from + 1, pos, values, Noma, Some(span)), span);
  }

  lemma KeptBehindPiece(line: string, from: nat, p: Placeholder, pos: nat, values: Values, span: Span)
    requires span.start < from < pos <= span.end < |line| && Reached(line, from, pos)
    requires PlaceholderAt(line, from) == Some(p) && p.end <= pos && Reached(line, p.end, pos) && QuoteKept(line, p.end, pos, values, span)
    ensures QuoteKept(line, from, pos, values, span)
  {
    QuoteBehindPiece(line, from, p, FillBetween(line, p.end, pos, values, Noma, Some(span)), values, span);
  }

  lemma {:induction false} QuotingIsKeptFrom(line: string, from: nat, pos: nat, values: Values, span: Span)
    requires span.start < from <= pos <= span.end < |line| && Reached(line, from, pos)
    ensures QuoteKept(line, from, pos, values, span)
    decreases pos - from
  {
    if from == pos {
    } else {
      match PlaceholderAt(line, from)
      case None =>
        QuotingIsKeptFrom(line, from + 1, pos, values, span);
        KeptBehindCharacter(line, from, pos, values, span);
      case Some(p) =>
        QuotingIsKeptFrom(line, p.end, pos, values, span);
        KeptBehindPiece(line, from, p, pos, values, span);
    }
  }

  /** The same from the block's literal opening brace on. */
  lemma QuotingIsKeptInBlock(line: string, pos: nat, values: Values, span: Span)
    requires span.start < pos <= span.end < |line| && PlaceholderAt(line, span.start).None? && Reached(line, span.start, pos)
    ensures QuoteAfter(FillBetween(line, span.start, pos, values, Noma, Some(span)), Unquoted) == QuoteAfter(line[span.start..pos], Unquoted)
  {
    var head := [line[span.start]];
    assert line[span.start..span.start + 1] == head;
    QuotingIsKeptFrom(line, span.start + 1, pos, values, span);
    QuoteAfterConcat(head, FillBetween(line, span.start + 1, pos, values, Noma, Some(span)), Unquoted);
  }

  lemma FillInThree(line: string, a: nat, b: nat, values: Values, context: Context, span: Option<Span>)
    requires a <= b <= |line| && Reached(line, 0, a) && Reached(line, a, b)
    ensures FillFrom(line, 0, values, context, span)
         == FillBetween(line, 0, a, values, context, span) + FillBetween(line, a, b, values, context, span) + FillFrom(line, b, values, context, span)
  {
    FillInTwo(line, 0, a, values, context, span);
    FillInTwo(line, a, b, values, context, span);
    Associate(FillBetween(line, 0, a, values, context, span), FillBetween(line, a, b, values, context, span), FillFrom(line, b, values, context, span));
  }

  /** When a literal brace opens the block, every later template character of the block is read, in the filled line,
      in the quote state it had in the template. */
  lemma QuotingIsKept(line: string, values: Values, span: Span, pos: nat)
    requires SpanFor(line, values, Noma) == Some(span) && span.start < pos <= span.end < |line|
    requires Reached(line, 0, span.start) && PlaceholderAt(line, span.start).None? && Reached(line, span.start, pos)
    ensures var before := FillBetween(line, 0, span.start, values, Noma, Some(span));
      var block := FillBetween(line, span.start, pos, values, Noma, Some(span));
      && Filled(line, values, Noma) == before + block + FillFrom(line, pos, values, Noma, Some(span))
      && QuoteAfter(block, Unquoted) == QuoteAfter(line[span.start..pos], Unquoted)
  {
    FillInThree(line, span.start, pos, values, Noma, Some(span));
    QuotingIsKeptInBlock(line, pos, values, span);
  }

  // ---------------------------------------------------------------------------------------------
  // Heading levels and directive depths
  // ---------------------------------------------------------------------------------------------

  /** The run of `c` at the visible start: a heading's level, a directive's depth. */
  function Level(s: string, c: char): nat {
    RunLength(TrimStart(s), c)
  }

  function RunEnd(s: string, c: char): nat {
    |s| - |TrimStart(s)| + Level(s, c)
  }

  /** White space up to `w`, then exactly the characters up to `m` are the run. */
  ghost predicate Runs(s: string, w: nat, m: nat, c: char) {
    && w < m <= |s| && !IsSpace(c)
    && (forall i :: 0 <= i < w ==> IsSpace(s[i]))
    && (forall i :: w <= i < m ==> s[i] == c)
  }

  lemma {:induction false} RunLengthAtLeast(s: string, c: char, n: nat)
    requires n <= |s| && forall i :: 0 <= i < n ==> s[i] == c
    ensures RunLength(s, c) >= n && (RunLength(s, c) == n <==> n == |s| || s[n] != c)
  {
    if n == 0 {
    } else {
      RunLengthAtLeast(s[1..], c, n - 1);
      assert n < |s| ==> s[1..][n - 1] == s[n];
    }
  }

  lemma RunsHasLevel(s: string, w: nat, m: nat, c: char)
    requires Runs(s, w, m, c)
    ensures TrimStart(s) == s[w..] && Level(s, c) >= m - w && (Level(s, c) == m - w <==> m == |s| || s[m] != c)
  {
    IndentIs(s, w);
    var t := s[w..];
    assert forall i :: 0 <= i < |t| ==> t[i] == s[w + i];
    RunLengthAtLeast(t, c, m - w);
  }

  lemma LevelRuns(s: string, c: char)
    requires 0 < Level(s, c) && !IsSpace(c)
    ensures Runs(s, RunEnd(s, c) - Level(s, c), RunEnd(s, c), c)
  {
    TrimStartIsSuffix(s);
    var t := TrimStart(s);
    var w := |s| - |t|;
    RunIsThatChar(t, c);
    forall i | w <= i < w + RunLength(t, c)
      ensures s[i] == c
    {
      assert s[i] == t[i - w];
    }
  }

  /** The white space and the run of the neutral form stand literally in the template. */
  lemma SameRun(s: string, r: string, w: nat, m: nat, c: char)
    requires Runs(s, w, m, c) && m <= |r| && forall i :: 0 <= i < m ==> r[i] == s[i]
    ensures Runs(r[..m], w, m, c)
  {
  }

  /** The run of `c` at the start of the neutral form stands in the line itself. */
  lemma RunStandsInLine(line: string, values: Values, c: char)
    requires 0 < Level(Neutral(line, values), c) && !IsSpace(c) && c !in {'x', '{'}
    ensures var neutral, m := Neutral(line, values), RunEnd(Neutral(line, values), c);
      && m <= |line| && Runs(line[..m], m - Level(neutral, c), m, c)
      && forall i :: 0 <= i < m ==> line[i] != '{'
  {
    var neutral, m := Neutral(line, values), RunEnd(Neutral(line, values), c);
    LevelRuns(neutral, c);
    NeutralPrefixIsLiteral(line, 0, m, values);
    forall i | 0 <= i < m
      ensures line[i] == neutral[i] && line[i] != '{'
    {
      assert line[0 + i] == neutral[i];
    }
    SameRun(neutral, line, m - Level(neutral, c), m, c);
  }

  lemma RunIsLiteral(line: string, values: Values, c: char, span: Option<Span>)
    requires 0 < Level(Neutral(line, values), c) && !IsSpace(c) && c !in {'x', '{'}
    ensures var neutral, m, out := Neutral(line, values), RunEnd(Neutral(line, values), c), FillFrom(line, 0, values, Noma, span);
      && m <= |line| && neutral == line[..m] + NeutralFrom(line, m, values) && out == line[..m] + FillFrom(line, m, values, Noma, span)
      && Runs(line[..m], m - Level(neutral, c), m, c)
  {
    var m := RunEnd(Neutral(line, values), c);
    RunStandsInLine(line, values, c);
    PrefixIsCopied(line, 0, m, values, Noma, span);
    assert line[0..m] == line[..m];
  }

  ghost predicate Begins(s: string, c: char) {
    s != "" && s[0] == c
  }

  lemma RunsExtends(head: string, tail: string, w: nat, c: char)
    requires Runs(head, w, |head|, c)
    ensures Level(head + tail, c) == |head| - w <==> !Begins(tail, c)
  {
    var s := head + tail;
    assert forall i :: 0 <= i < |head| ==> s[i] == head[i];
    RunsHasLevel(s, w, |head|, c);
  }

  /** The filled run is as long as the neutral one exactly when what is filled in behind it does not continue it. */
  lemma LevelIsKept(line: string, values: Values, c: char, span: Option<Span>)
    requires 0 < Level(Neutral(line, values), c) && !IsSpace(c) && c !in {'x', '{'}
    requires RunEnd(Neutral(line, values), c) <= |line|
    ensures var m := RunEnd(Neutral(line, values), c);
      Level(FillFrom(line, 0, values, Noma, span), c) == Level(Neutral(line, values), c) <==> !Begins(FillFrom(line, m, values, Noma, span), c)
  {
    var m := RunEnd(Neutral(line, values), c);
    RunIsLiteral(line, values, c, span);
    RunsExtends(line[..m], FillFrom(line, m, values, Noma, span), m - Level(Neutral(line, values), c), c);
  }

  /** Where no known placeholder stands, neutral form and filling begin alike. */
  lemma SameHead(line: string, m: nat, values: Values, span: Option<Span>)
    requires m <= |line| && !PlaceholderFollows(line, m, values.Keys)
    ensures var a, b := NeutralFrom(line, m, values), FillFrom(line, m, values, Noma, span);
      (a == "" <==> b == "") && (a != "" ==> a[0] == b[0])
  {
  }

  predicate PlaceholderFollows(line: string, i: nat, names: set<string>) {
    i <= |line| && PlaceholderAt(line, i).Some? && PlaceholderAt(line, i).value.name in names
  }

  /** A known placeholder right behind the run shows as an `x` there. */
  lemma AfterTheRun(line: string, values: Values, c: char)
    requires 0 < Level(Neutral(line, values), c) && !IsSpace(c) && c !in {'x', '{'}
    ensures var neutral, m := Neutral(line, values), RunEnd(Neutral(line, values), c);
      && m <= |line| && m <= |neutral| && neutral[m..] == NeutralFrom(line, m, values)
      && (m < |neutral| ==> neutral[m] != c)
      && (PlaceholderFollows(line, m, values.Keys) ==> m < |neutral| && neutral[m] == 'x')
  {
    var neutral, m := Neutral(line, values), RunEnd(Neutral(line, values), c);
    RunIsLiteral(line, values, c, None);
    RunsExtends(line[..m], NeutralFrom(line, m, values), m - Level(neutral, c), c);
    assert neutral[m..] == NeutralFrom(line, m, values);
    assert m < |neutral| ==> neutral[m] == neutral[m..][0];
  }

  /** A heading's hashes are followed by a space that stands in the template. */
  lemma SpaceBehindHashes(line: string, values: Values)
    requires KindOf(Neutral(line, values)) == Heading
    ensures var neutral := Neutral(line, values); var m := RunEnd(neutral, '#');
      0 < Level(neutral, '#') && m < |neutral| && IsSpace(neutral[m])
  {
    var neutral := Neutral(line, values);
    var n, v := HeadingParts(TrimStart(neutral));
    TrimStartIsSuffix(neutral);
  }

  /** A heading keeps its level whatever is filled into it. */
  lemma HeadingKeepsLevel(line: string, values: Values)
    requires KindOf(Neutral(line, values)) == Heading && KindOf(FilledLine(line, values, Noma)) == Heading
    ensures Level(FilledLine(line, values, Noma), '#') == Level(Neutral(line, values), '#')
  {
    var span := SpanFor(line, values, Noma);
    SpaceBehindHashes(line, values);
    AfterTheRun(line, values, '#');
    SameHead(line, RunEnd(Neutral(line, values), '#'), values, span);
    LevelIsKept(line, values, '#', span);
    GuardedLevel(Neutral(line, values), Filled(line, values, Noma));
  }

  lemma GuardedLevel(neutral: string, out: string)
    requires KindOf(neutral) == Heading && KindOf(Guarded(neutral, out, Noma)) == Heading
    ensures Level(Guarded(neutral, out, Noma), '#') == Level(out, '#')
  {
    var guard := GuardStart(out);
    GuardStartTrims(out);
    GuardedIsPlain(guard);
    if HasHeadingAttrs(guard) {
      SecondGuardKind(guard);
    }
    if KindOf(out) == Heading {
      SuffixedHeadingIsHeading(out);
    }
  }

  lemma GuardedDirective(neutral: string, out: string)
    requires KindOf(neutral) == Directive
    ensures KindOf(Guarded(neutral, out, Noma)) == Directive <==> KindOf(out) == Directive
    ensures KindOf(out) == Directive ==> Guarded(neutral, out, Noma) == out
  {
    GuardStartTrims(out);
    GuardedIsPlain(GuardStart(out));
  }

  // Directives -----------------------------------------------------------------------------------

  /** A directive's depth is kept exactly when the text filled in right behind its colons does not begin with a colon. */
  lemma DirectiveDepth(line: string, values: Values)
    requires KindOf(Neutral(line, values)) == Directive && KindOf(FilledLine(line, values, Noma)) == Directive
    ensures RunEnd(Neutral(line, values), ':') <= |line|
    ensures Level(FilledLine(line, values, Noma), ':') == Level(Neutral(line, values), ':')
       <==> !Begins(FillFrom(line, RunEnd(Neutral(line, values), ':'), values, Noma, SpanFor(line, values, Noma)), ':')
  {
    AfterTheRun(line, values, ':');
    LevelIsKept(line, values, ':', SpanFor(line, values, Noma));
    GuardedDirective(Neutral(line, values), Filled(line, values, Noma));
  }

  lemma SameBehindCharacter(line: string, pos: nat, values: Values, others: Values)
    requires pos < |line| && PlaceholderAt(line, pos).None? && NeutralFrom(line, pos + 1, values) == NeutralFrom(line, pos + 1, others)
    ensures NeutralFrom(line, pos, values) == NeutralFrom(line, pos, others)
  {
  }

  lemma SameBehindPlaceholder(line: string, pos: nat, p: Placeholder, values: Values, others: Values)
    requires pos < |line| && PlaceholderAt(line, pos) == Some(p) && values.Keys == others.Keys
    requires NeutralFrom(line, p.end, values) == NeutralFrom(line, p.end, others)
    ensures NeutralFrom(line, pos, values) == NeutralFrom(line, pos, others)
  {
    assert p.name in values <==> p.name in others.Keys;
  }

  lemma {:induction false} NeutralByNames(line: string, pos: nat, values: Values, others: Values)
    requires pos <= |line| && values.Keys == others.Keys
    ensures NeutralFrom(line, pos, values) == NeutralFrom(line, pos, others)
    decreases |line| - pos
  {
    if pos == |line| {
    } else {
      var p := PlaceholderAt(line, pos);
      if p.None? {
        NeutralByNames(line, pos + 1, values, others);
        SameBehindCharacter(line, pos, values, others);
      } else {
        NeutralByNames(line, p.value.end, values, others);
        SameBehindPlaceholder(line, pos, p.value, values, others);
      }
    }
  }

  ghost predicate DepthIsKept(line: string, values: Values) {
    KindOf(FilledLine(line, values, Noma)) == Directive ==> Level(FilledLine(line, values, Noma), ':') == Level(Neutral(line, values), ':')
  }

  lemma ColonIsOneLine()
    ensures OneLine(":x") == ":x"
  {
  }

  lemma ColonsThenLetter(s: string, w: nat, m: nat)
    requires Runs(s, w, m, ':') && m - w >= 2 && m < |s| && s[m] == 'x'
    ensures KindOf(s) == Directive && Level(s, ':') == m - w
  {
    RunsHasLevel(s, w, m, ':');
    var t := s[w..];
    assert t[m - w..][0] == 'x' && t[0] == ':';
    assert |t| >= 3 ==> t[..3][0] == t[0];
    VisibleIsNotBlank(t[m - w..], 0);
  }

  /** The line a value `:x` behind the colons gives, before any guard. */
  lemma ColonIsFilled(line: string, values: Values, p: Placeholder)
    requires KindOf(Neutral(line, values)) == Directive && p.name in values && values[p.name] == ":x"
    requires RunEnd(Neutral(line, values), ':') <= |line| && PlaceholderAt(line, RunEnd(Neutral(line, values), ':')) == Some(p)
    ensures var m := RunEnd(Neutral(line, values), ':');
      && Filled(line, values, Noma) == line[..m] + (":x" + FillFrom(line, p.end, values, Noma, None))
      && m >= Level(Neutral(line, values), ':') && Runs(line[..m], m - Level(Neutral(line, values), ':'), m, ':')
  {
    var neutral, m := Neutral(line, values), RunEnd(Neutral(line, values), ':');
    RunIsLiteral(line, values, ':', None);
    NoSpanBehindColons(line, values, m - Level(neutral, ':'), m);
    RestBehindColons(line, values, m, p);
  }

  /** A value `:x` behind the colons deepens the directive by one. */
  lemma ColonDeepens(line: string, values: Values, p: Placeholder)
    requires KindOf(Neutral(line, values)) == Directive && p.name in values && values[p.name] == ":x"
    requires RunEnd(Neutral(line, values), ':') <= |line| && PlaceholderAt(line, RunEnd(Neutral(line, values), ':')) == Some(p)
    ensures var filled := FilledLine(line, values, Noma);
      KindOf(filled) == Directive && Level(filled, ':') == Level(Neutral(line, values), ':') + 1
  {
    var neutral, m := Neutral(line, values), RunEnd(Neutral(line, values), ':');
    ColonIsFilled(line, values, p);
    ColonRunGrows(line[..m], ":x" + FillFrom(line, p.end, values, Noma, None), m - Level(neutral, ':'));
    GuardedDirective(neutral, Filled(line, values, Noma));
  }

  lemma RestBehindColons(line: string, values: Values, m: nat, p: Placeholder)
    requires m <= |line| && PlaceholderAt(line, m) == Some(p) && p.name in values && values[p.name] == ":x"
    ensures FillFrom(line, m, values, Noma, None) == ":x" + FillFrom(line, p.end, values, Noma, None)
  {
    ColonIsOneLine();
  }

  lemma ColonRunGrows(head: string, tail: string, w: nat)
    requires Runs(head, w, |head|, ':') && |head| - w >= 2 && |tail| >= 2 && tail[0] == ':' && tail[1] == 'x'
    ensures KindOf(head + tail) == Directive && Level(head + tail, ':') == |head| - w + 1
  {
    var s := head + tail;
    assert forall i :: 0 <= i < |head| ==> s[i] == head[i];
    assert s[|head|] == ':' && s[|head| + 1] == 'x';
    ColonsThenLetter(s, w, |head| + 1);
  }

  /** A brace right behind the colons is not a directive's name, so the line has no attribute block. */
  lemma NoSpanBehindColons(line: string, values: Values, w: nat, m: nat)
    requires m < |line| && line[m] == '{' && Runs(line[..m], w, m, ':')
    ensures SpanFor(line, values, Noma) == None
  {
    assert forall i :: 0 <= i < m ==> line[..m][i] == line[i];
    RunsHasLevel(line, w, m, ':');
    var t := line[w..];
    assert t[m - w..][0] == '{' && t[0] == ':';
    assert RunLength(t, '#') == 0;
  }

  /** A directive keeps its depth under every choice of values exactly when no known placeholder stands right behind its colons. */
  lemma DepthIsKeptForAllValues(line: string, values: Values)
    requires KindOf(Neutral(line, values)) == Directive
    ensures (forall others: Values :: others.Keys == values.Keys ==> DepthIsKept(line, others))
       <==> !PlaceholderFollows(line, RunEnd(Neutral(line, values), ':'), values.Keys)
  {
    var m := RunEnd(Neutral(line, values), ':');
    AfterTheRun(line, values, ':');
    if PlaceholderFollows(line, m, values.Keys) {
      var p := PlaceholderAt(line, m).value;
      var others := values[p.name := ":x"];
      assert others.Keys == values.Keys;
      NeutralByNames(line, 0, values, others);
      ColonDeepens(line, others, p);
      assert !DepthIsKept(line, others);
    } else {
      forall others: Values | others.Keys == values.Keys
        ensures DepthIsKept(line, others)
      {
        NeutralByNames(line, 0, values, others);
        if KindOf(FilledLine(line, others, Noma)) == Directive {
          DirectiveDepth(line, others);
          AfterTheRun(line, others, ':');
          SameHead(line, m, others, SpanFor(line, others, Noma));
        }
      }
    }
  }
}
