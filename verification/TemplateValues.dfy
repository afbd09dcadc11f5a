/** That values arrive: what becomes of their characters, where they stand, and that a guard adds nothing but its mark. */
module TemplateValues {
  import opened Wrappers
  import opened Text
  import opened Templates
  import opened TemplateSafety

  // ---------------------------------------------------------------------------------------------
  // One line
  // ---------------------------------------------------------------------------------------------

  /** The text without white space and control characters. */
  function Visible(s: string): string {
    if s == "" then "" else (if IsSpace(s[0]) || IsControl(s[0]) then "" else [s[0]]) + Visible(s[1..])
  }

  lemma {:induction false} VisibleOfJoin(a: string, b: string)
    ensures Visible(a + b) == Visible(a) + Visible(b)
  {
    if a == "" {
      assert a + b == b;
    } else {
      assert (a + b)[0] == a[0] && (a + b)[1..] == a[1..] + b;
      VisibleOfJoin(a[1..], b);
    }
  }

  lemma VisibleOfOne(c: char)
    ensures Visible([c]) == if IsSpace(c) || IsControl(c) then "" else [c]
  {
    assert [c][1..] == "";
  }

  lemma {:induction false} SpacingKeepsVisible(s: string, inRun: bool)
    ensures Visible(SpaceControls(s, inRun)) == Visible(s)
  {
    if s == "" {
    } else {
      var head := if !IsControl(s[0]) then [s[0]] else if inRun then "" else [' '];
      SpacingKeepsVisible(s[1..], IsControl(s[0]));
      VisibleOfJoin(head, SpaceControls(s[1..], IsControl(s[0])));
      VisibleOfOne(s[0]);
      VisibleOfOne(' ');
    }
  }

  lemma {:induction false} CollapsingKeepsVisible(s: string, inRun: bool)
    ensures Visible(CollapseSpaces(s, inRun)) == Visible(s)
  {
    if s == "" {
    } else {
      var next := IsSpace(s[0]) && (inRun || (|s| > 1 && IsSpace(s[1])));
      var head := if IsSpace(s[0]) && inRun then "" else if next then [' '] else [s[0]];
      CollapsingKeepsVisible(s[1..], next);
      VisibleOfJoin(head, CollapseSpaces(s[1..], next));
      VisibleOfOne(s[0]);
      VisibleOfOne(' ');
    }
  }

  lemma {:induction false} SpacesAreInvisible(s: string)
    requires forall c :: c in s ==> IsSpace(c)
    ensures Visible(s) == ""
  {
    if s == "" {
    } else {
      assert s[0] in s;
      SpacesAreInvisible(s[1..]);
    }
  }

  lemma TrimStartKeepsVisible(s: string)
    ensures Visible(TrimStart(s)) == Visible(s)
  {
    TrimStartIsSuffix(s);
    var spaces := s[..|s| - |TrimStart(s)|];
    SpacesAreInvisible(spaces);
    assert s == spaces + TrimStart(s);
    VisibleOfJoin(spaces, TrimStart(s));
  }

  lemma TrimEndKeepsVisible(s: string)
    ensures Visible(TrimEnd(s)) == Visible(s)
  {
    TrimEndIsPrefix(s);
    var spaces := s[|TrimEnd(s)|..];
    SpacesAreInvisible(spaces);
    assert s == TrimEnd(s) + spaces;
    VisibleOfJoin(TrimEnd(s), spaces);
  }

  lemma TrimmedKeepsVisible(value: string, t: string)
    requires t == Trim(CollapseSpaces(SpaceControls(value, false), false))
    ensures Visible(t) == Visible(value)
  {
    var spaced := SpaceControls(value, false);
    var collapsed := CollapseSpaces(spaced, false);
    SpacingKeepsVisible(value, false);
    CollapsingKeepsVisible(spaced, false);
    TrimStartKeepsVisible(collapsed);
    TrimEndKeepsVisible(TrimStart(collapsed));
  }

  lemma CutKeepsFront(t: string, n: nat)
    requires n <= |t|
    ensures Visible(t[..n]) <= Visible(t)
  {
    assert t == t[..n] + t[n..];
    VisibleOfJoin(t[..n], t[n..]);
  }

  /** On its way to one line a value loses nothing but white space, control characters, and what is beyond 500 characters. */
  lemma OneLineKeepsVisible(value: string)
    ensures Visible(OneLine(value)) <= Visible(value)
    ensures |value| <= 500 ==> Visible(OneLine(value)) == Visible(value)
  {
    var t := Trim(CollapseSpaces(SpaceControls(value, false), false));
    TrimmedKeepsVisible(value, t);
    OneLineGetsShorter(value);
    if |t| > MAX_VALUE_LENGTH {
      CutKeepsFront(t, MAX_VALUE_LENGTH);
    }
  }

  lemma {:induction false} SpacingShortens(s: string, inRun: bool)
    ensures |SpaceControls(s, inRun)| <= |s|
  {
    if s == "" {
    } else {
      SpacingShortens(s[1..], IsControl(s[0]));
    }
  }

  lemma {:induction false} CollapsingShortens(s: string, inRun: bool)
    ensures |CollapseSpaces(s, inRun)| <= |s|
  {
    if s == "" {
    } else {
      CollapsingShortens(s[1..], IsSpace(s[0]) && (inRun || (|s| > 1 && IsSpace(s[1]))));
    }
  }

  lemma OneLineGetsShorter(value: string)
    ensures |Trim(CollapseSpaces(SpaceControls(value, false), false))| <= |value|
  {
    SpacingShortens(value, false);
    CollapsingShortens(SpaceControls(value, false), false);
  }

  /** No control characters, no two white-space characters in a row, none at the ends. */
  ghost predicate Neat(s: string) {
    && NoControls(s) && (s != "" ==> !IsSpace(s[0]) && !IsSpace(s[|s| - 1]))
    && forall i :: 0 < i < |s| ==> !(IsSpace(s[i - 1]) && IsSpace(s[i]))
  }

  lemma {:induction false} SpacingKeepsNeat(s: string)
    requires NoControls(s)
    ensures SpaceControls(s, false) == s
  {
    if s == "" {
    } else {
      assert s[0] in s && s == [s[0]] + s[1..];
      SpacingKeepsNeat(s[1..]);
    }
  }

  lemma {:induction false} CollapsingKeepsNeat(s: string)
    requires forall i :: 0 < i < |s| ==> !(IsSpace(s[i - 1]) && IsSpace(s[i]))
    ensures CollapseSpaces(s, false) == s
  {
    if s == "" {
    } else {
      assert s == [s[0]] + s[1..];
      CollapsingKeepsNeat(s[1..]);
    }
  }

  /** A neat value of at most 500 characters arrives as it is. */
  lemma NeatValueIsKept(value: string)
    requires Neat(value) && |value| <= MAX_VALUE_LENGTH
    ensures OneLine(value) == value
  {
    SpacingKeepsNeat(value);
    CollapsingKeepsNeat(value);
  }

  // ---------------------------------------------------------------------------------------------
  // In an attribute block
  // ---------------------------------------------------------------------------------------------

  /** What a character of a value becomes inside a quoted attribute. */
  function InQuotes(c: char, q: Quote): string {
    if c == '{' || c == '}' then "" else if c == '"' && q == Double then "'" else if c == '\'' && q == Single then "\U{2019}" else [c]
  }

  function EachInQuotes(s: string, q: Quote): string {
    if s == "" then "" else InQuotes(s[0], q) + EachInQuotes(s[1..], q)
  }

  lemma {:induction false} ReplacedCharByChar(value: string, c: char, text: string, q: Quote)
    requires (q == Double && c == '"' && text == "'") || (q == Single && c == '\'' && text == "\U{2019}")
    ensures Replaced(Unbraced(value), c, text) == EachInQuotes(value, q)
  {
    if value == "" {
    } else {
      var rest := Unbraced(value[1..]);
      ReplacedCharByChar(value[1..], c, text, q);
      if value[0] == '{' || value[0] == '}' {
        assert Unbraced(value) == "" + rest == rest;
        assert "" + EachInQuotes(value[1..], q) == EachInQuotes(value[1..], q);
      } else {
        assert Unbraced(value) == [value[0]] + rest && ([value[0]] + rest)[1..] == rest;
      }
    }
  }

  /** Inside a quoted attribute a value is kept character by character, but for its braces and the quote that would end it. */
  lemma QuotedCharByChar(value: string, q: Quote)
    requires q == Double || q == Single
    ensures AttributeValue(value, q) == EachInQuotes(value, q)
  {
    if q == Double {
      ReplacedCharByChar(value, '"', "'", q);
    } else {
      ReplacedCharByChar(value, '\'', "\U{2019}", q);
    }
  }

  /** White space, quotes and the equals sign end an unquoted attribute value or begin another. */
  predicate Separates(c: char) {
    IsSpace(c) || c in {'"', '\'', '='}
  }

  ghost predicate AllUnsafe(s: string) {
    forall c :: c in s ==> Separates(c)
  }

  ghost predicate NoneUnsafe(s: string) {
    forall c :: c in s ==> !Separates(c)
  }

  ghost predicate Braceless(s: string) {
    '{' !in s && '}' !in s
  }

  lemma {:induction false} BracelessIsKept(s: string)
    requires Braceless(s)
    ensures Unbraced(s) == s
  {
    if s == "" {
    } else {
      assert s[0] in s && s == [s[0]] + s[1..];
      BracelessIsKept(s[1..]);
    }
  }

  lemma {:induction false} SafeIsKept(s: string, rest: string, inRun: bool)
    requires NoneUnsafe(s)
    ensures Hyphenated(s + rest, inRun) == s + Hyphenated(rest, inRun && s == "")
  {
    if s == "" {
      assert s + rest == rest;
    } else {
      assert s[0] in s && (s + rest)[0] == s[0] && (s + rest)[1..] == s[1..] + rest;
      SafeIsKept(s[1..], rest, false);
      assert [s[0]] + (s[1..] + Hyphenated(rest, false)) == s + Hyphenated(rest, false);
    }
  }

  lemma {:induction false} RunIsOneHyphen(run: string, rest: string, inRun: bool)
    requires AllUnsafe(run) && run != ""
    ensures Hyphenated(run + rest, inRun) == (if inRun then "" else "-") + Hyphenated(rest, true)
  {
    assert run[0] in run && (run + rest)[0] == run[0] && (run + rest)[1..] == run[1..] + rest;
    if |run| > 1 {
      RunIsOneHyphen(run[1..], rest, true);
    } else {
      assert run[1..] + rest == rest;
    }
  }

  lemma HyphenBetween(a: string, run: string, b: string)
    requires NoneUnsafe(a) && NoneUnsafe(b) && AllUnsafe(run) && run != "" && b != ""
    ensures Hyphenated(a + (run + b), false) == a + ("-" + b)
  {
    SafeIsKept(a, run + b, false);
    RunIsOneHyphen(run, b, false);
    assert b + "" == b;
    SafeIsKept(b, "", true);
  }

  lemma SafeAlone(a: string)
    requires NoneUnsafe(a)
    ensures Hyphenated(a, false) == a
  {
    assert a + "" == a;
    SafeIsKept(a, "", false);
  }

  lemma BracelessParts(a: string, run: string, b: string)
    requires Braceless(a + run + b)
    ensures Braceless(a) && a + run + b == a + (run + b)
  {
    assert forall c :: c in a ==> c in a + run + b;
  }

  /** In an unquoted attribute a value is kept, but for its braces, and for a hyphen in place of each run of spaces, quotes and equals
      signs between two other characters. */
  lemma UnquotedKeepsSafeText(a: string, run: string, b: string)
    requires Braceless(a + run + b) && NoneUnsafe(a) && NoneUnsafe(b) && AllUnsafe(run) && run != "" && b != ""
    ensures AttributeValue(a + run + b, Unquoted) == a + ("-" + b) && AttributeValue(a, Unquoted) == a
  {
    BracelessIsKept(a + run + b);
    BracelessParts(a, run, b);
    BracelessIsKept(a);
    HyphenBetween(a, run, b);
    SafeAlone(a);
  }

  // ---------------------------------------------------------------------------------------------
  // In the line
  // ---------------------------------------------------------------------------------------------

  /** What stands at each place of a filled line: a character of the template as written, an unknown placeholder as written, and the value
      of a known one, on one line, outside the frontmatter and attribute blocks as it is. */
  lemma EachPlaceIsFilled(line: string, pos: nat, values: Values, context: Context, span: Option<Span>)
    requires pos < |line| && Reached(line, 0, pos)
    ensures var before, found := FillBetween(line, 0, pos, values, context, span), PlaceholderAt(line, pos);
      var next := if found.Some? then found.value.end else pos + 1;
      var text := if found.None? then [line[pos]] else if found.value.name !in values then line[pos..found.value.end] else
        Piece(line, pos, found.value, values, context, span);
      && FillFrom(line, 0, values, context, span) == before + text + FillFrom(line, next, values, context, span)
      && (found.Some? && found.value.name in values && context != Yaml && !InSpan(span, pos) ==> text == OneLine(values[found.value.name]))
  {
    FillInTwo(line, 0, pos, values, context, span);
    var found := PlaceholderAt(line, pos);
    if found.None? {
      Associate(FillBetween(line, 0, pos, values, context, span), [line[pos]], FillFrom(line, pos + 1, values, context, span));
    } else {
      Associate(FillBetween(line, 0, pos, values, context, span), Piece(line, pos, found.value, values, context, span),
                FillFrom(line, found.value.end, values, context, span));
    }
  }

  // ---------------------------------------------------------------------------------------------
  // Guards
  // ---------------------------------------------------------------------------------------------

  /** The text without white space and guards. */
  function Bare(s: string): string {
    if s == "" then "" else (if IsSpace(s[0]) || s[0] == ZWSP then "" else [s[0]]) + Bare(s[1..])
  }

  lemma {:induction false} BareOfJoin(a: string, b: string)
    ensures Bare(a + b) == Bare(a) + Bare(b)
  {
    if a == "" {
      assert a + b == b;
    } else {
      assert (a + b)[0] == a[0] && (a + b)[1..] == a[1..] + b;
      BareOfJoin(a[1..], b);
    }
  }

  lemma {:induction false} SpacesAreBare(s: string)
    requires forall c :: c in s ==> IsSpace(c)
    ensures Bare(s) == ""
  {
    if s == "" {
    } else {
      assert s[0] in s;
      SpacesAreBare(s[1..]);
    }
  }

  lemma MarkIsBare()
    ensures Bare([ZWSP]) == ""
  {
    assert [ZWSP][1..] == "";
  }

  lemma StartKeepsText(out: string)
    ensures Bare(GuardStart(out)) == Bare(out)
  {
    TrimStartIsSuffix(out);
    var t := TrimStart(out);
    var indent := out[..|out| - |t|];
    assert out == indent + t && GuardStart(out) == indent + ([ZWSP] + t);
    BareOfJoin(indent, t);
    BareOfJoin(indent, [ZWSP] + t);
    BareOfJoin([ZWSP], t);
    MarkIsBare();
  }

  lemma EndKeepsText(out: string)
    ensures Bare(TrimEnd(out) + [ZWSP]) == Bare(out)
  {
    TrimEndIsPrefix(out);
    var rest := out[|TrimEnd(out)|..];
    assert out == TrimEnd(out) + rest;
    SpacesAreBare(rest);
    BareOfJoin(TrimEnd(out), rest);
    BareOfJoin(TrimEnd(out), [ZWSP]);
    MarkIsBare();
  }

  /** A guard adds marks to a filled line and takes away nothing but white space at its end; a line that keeps its kind, and as a heading
      gains no attribute block, gets none. */
  lemma GuardsKeepTheText(line: string, values: Values, context: Context)
    ensures Bare(FilledLine(line, values, context)) == Bare(Filled(line, values, context))
    ensures var neutral, out := Neutral(line, values), Filled(line, values, context);
      context == Yaml || (KindOf(out) == KindOf(neutral) && (KindOf(neutral) == Heading && HasHeadingAttrs(out) ==> HasHeadingAttrs(neutral))) ==>
        FilledLine(line, values, context) == out
  {
    var neutral, out := Neutral(line, values), Filled(line, values, context);
    StartKeepsText(out);
    EndKeepsText(out);
    EndKeepsText(GuardStart(out));
  }
}
