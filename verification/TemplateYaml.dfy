/** What a value is in the frontmatter: the YAML string it stands in reads back as exactly the value. */
module TemplateYaml {
  import opened Wrappers
  import opened Text
  import opened Templates
  import opened TemplateSafety
  import Json

  // ---------------------------------------------------------------------------------------------
  // Reading
  // ---------------------------------------------------------------------------------------------

  /** A single-quoted YAML string up to its closing quote, and the text after that quote; `''` stands for one quote. */
  function ReadSingle(s: string): Option<(string, string)>
    decreases |s|
  {
    if s == "" then None
    else if s[0] != '\'' then
      match ReadSingle(s[1..])
      case None => None
      case Some((text, rest)) => Some(([s[0]] + text, rest))
    else if |s| > 1 && s[1] == '\'' then
      match ReadSingle(s[2..])
      case None => None
      case Some((text, rest)) => Some((['\''] + text, rest))
    else Some(("", s[1..]))
  }

  /** The string of the given quoting that the text goes on with, from inside it; with no quote open, from its own opening quote. A
      double-quoted string is a JSON string. */
  function ReadQuoted(s: string, q: Quote): Option<(string, string)> {
    match q
    case Double => Json.ReadString(s)
    case Single => ReadSingle(s)
    case Unquoted => if s != "" && s[0] == '"' then Json.ReadString(s[1..]) else None
  }

  /** The text ends the string that is open. */
  predicate Closes(rest: string, q: Quote) {
    match q
    case Double => rest != "" && rest[0] == '"'
    case Single => rest != "" && rest[0] == '\'' && (|rest| == 1 || rest[1] != '\'')
    case Unquoted => true
  }

  // ---------------------------------------------------------------------------------------------
  // Values read back
  // ---------------------------------------------------------------------------------------------

  lemma SingleStep(c: char, tail: string)
    requires ReadSingle(tail).Some?
    ensures var r := ReadSingle(tail).value;
      ReadSingle((if c == '\'' then "''" else [c]) + tail) == Some(([c] + r.0, r.1))
  {
    var s := (if c == '\'' then "''" else [c]) + tail;
    if c == '\'' {
      assert s[0] == '\'' && s[1] == '\'' && s[2..] == tail;
    } else {
      assert s[0] == c && s[1..] == tail;
    }
  }

  lemma {:induction false} DoubledReads(value: string, rest: string)
    requires Closes(rest, Single)
    ensures ReadSingle(Replaced(value, '\'', "''") + rest) == Some((value, rest[1..]))
  {
    if value == "" {
      assert "" + rest == rest;
    } else {
      var head, tail := if value[0] == '\'' then "''" else [value[0]], Replaced(value[1..], '\'', "''");
      DoubledReads(value[1..], rest);
      SingleStep(value[0], tail + rest);
      assert (head + tail) + rest == head + (tail + rest);
      assert [value[0]] + value[1..] == value;
    }
  }

  lemma QuotedReads(value: string, rest: string)
    ensures ReadQuoted(Json.Quote(value) + rest, Unquoted) == Some((value, rest))
  {
    Json.ItemReads(value, rest);
  }

  /** In the frontmatter a value, whatever it is, reads back as exactly that value: inside an open double or single quote up to the
      quote that closes it, and otherwise as a string of its own. */
  lemma FrontmatterValueReadsBack(line: string, pos: nat, p: Placeholder, values: Values, rest: string)
    requires pos < |line| && PlaceholderAt(line, pos) == Some(p) && p.name in values
    requires Closes(rest, QuoteAfter(line[..pos], Unquoted))
    ensures var q, value := QuoteAfter(line[..pos], Unquoted), OneLine(values[p.name]);
      ReadQuoted(Piece(line, pos, p, values, Yaml, None) + rest, q) == Some((value, if q == Unquoted then rest else rest[1..]))
  {
    var q, value := QuoteAfter(line[..pos], Unquoted), OneLine(values[p.name]);
    match q
    case Double => Json.QuoteReads(value, rest);
    case Single => DoubledReads(value, rest);
    case Unquoted => QuotedReads(value, rest);
  }

  // ---------------------------------------------------------------------------------------------
  // The rest of the line
  // ---------------------------------------------------------------------------------------------

  /** How YAML reads on: outside of strings, in a double-quoted one (behind a backslash or not), or in a single-quoted one. */
  datatype YamlState = Outside | InDouble(escaped: bool) | InSingle

  function YamlStep(st: YamlState, c: char): YamlState {
    match st
    case Outside => if c == '"' then InDouble(false) else if c == '\'' then InSingle else Outside
    case InDouble(escaped) => if escaped then InDouble(false) else if c == '"' then Outside else InDouble(c == '\\')
    case InSingle => if c == '\'' then Outside else InSingle
  }

  function YamlAfter(s: string, st: YamlState): YamlState {
    if s == "" then st else YamlStep(YamlAfter(s[..|s| - 1], st), s[|s| - 1])
  }

  function StateOf(q: Quote): YamlState {
    match q
    case Unquoted => Outside
    case Double => InDouble(false)
    case Single => InSingle
  }

  lemma {:induction false} YamlAfterJoin(a: string, b: string, st: YamlState)
    ensures YamlAfter(a + b, st) == YamlAfter(b, YamlAfter(a, st))
  {
    if b == "" {
      assert a + b == a;
    } else {
      var n := |b| - 1;
      assert (a + b)[..|a + b| - 1] == a + b[..n];
      YamlAfterJoin(a, b[..n], st);
    }
  }

  lemma YamlAfterOne(c: char, st: YamlState)
    ensures YamlAfter([c], st) == YamlStep(st, c)
  {
    assert [c][..0] == "";
  }

  /** Text without quotes and backslashes is read through. */
  lemma {:induction false} BareIsReadThrough(s: string, st: YamlState)
    requires '"' !in s && '\'' !in s && '\\' !in s && st != InDouble(true)
    ensures YamlAfter(s, st) == st
  {
    if s == "" {
    } else {
      assert s[|s| - 1] in s;
      BareIsReadThrough(s[..|s| - 1], st);
    }
  }

  lemma EscapedCharIsReadThrough(c: char)
    ensures YamlAfter(Json.EscapeChar(c), InDouble(false)) == InDouble(false)
  {
    var e := Json.EscapeChar(c);
    if |e| == 1 {
      YamlAfterOne(c, InDouble(false));
    } else {
      Json.EscapeReads(c, "");
      assert e == ['\\'] + ([e[1]] + e[2..]);
      YamlAfterJoin(['\\'], [e[1]] + e[2..], InDouble(false));
      YamlAfterJoin([e[1]], e[2..], InDouble(true));
      YamlAfterOne('\\', InDouble(false));
      YamlAfterOne(e[1], InDouble(true));
      HexIsBare(c);
      BareIsReadThrough(e[2..], InDouble(false));
    }
  }

  lemma HexIsBare(c: char)
    requires |Json.EscapeChar(c)| > 1
    ensures var rest := Json.EscapeChar(c)[2..]; '"' !in rest && '\'' !in rest && '\\' !in rest
  {
  }

  lemma {:induction false} EscapedIsReadThrough(s: string)
    ensures YamlAfter(Json.Escape(s), InDouble(false)) == InDouble(false)
  {
    if s == "" {
    } else {
      EscapedCharIsReadThrough(s[0]);
      EscapedIsReadThrough(s[1..]);
      YamlAfterJoin(Json.EscapeChar(s[0]), Json.Escape(s[1..]), InDouble(false));
    }
  }

  lemma QuotedIsReadThrough(s: string)
    ensures YamlAfter(Json.Quote(s), Outside) == Outside
  {
    YamlAfterJoin("\"", Json.Escape(s), Outside);
    YamlAfterJoin("\"" + Json.Escape(s), "\"", Outside);
    YamlAfterOne('"', Outside);
    YamlAfterOne('"', InDouble(false));
    EscapedIsReadThrough(s);
  }

  lemma {:induction false} DoubledIsReadThrough(s: string)
    ensures YamlAfter(Replaced(s, '\'', "''"), InSingle) == InSingle
  {
    if s == "" {
    } else {
      var head := if s[0] == '\'' then "''" else [s[0]];
      if s[0] == '\'' {
        assert "''" == "'" + "'";
        YamlAfterJoin("'", "'", InSingle);
        YamlAfterOne('\'', InSingle);
        YamlAfterOne('\'', Outside);
      } else {
        YamlAfterOne(s[0], InSingle);
      }
      DoubledIsReadThrough(s[1..]);
      YamlAfterJoin(head, Replaced(s[1..], '\'', "''"), InSingle);
    }
  }

  /** Whatever its value, a placeholder leaves YAML where it was. */
  lemma PieceIsReadThrough(line: string, pos: nat, p: Placeholder, values: Values)
    requires pos < |line| && PlaceholderAt(line, pos) == Some(p) && '\\' !in line
    ensures var q := QuoteAfter(line[..pos], Unquoted);
      YamlAfter(Piece(line, pos, p, values, Yaml, None), StateOf(q)) == StateOf(q) && QuoteAfter(line[pos..p.end], q) == q
  {
    var q, text := QuoteAfter(line[..pos], Unquoted), line[pos..p.end];
    PlaceholderHasNoQuotes(line, pos);
    assert forall i :: 0 <= i < |text| ==> text[i] == line[pos + i] && text[i] in line;
    QuoteAfterSafe(text, q);
    if p.name !in values {
      BareIsReadThrough(text, StateOf(q));
    } else {
      var value := OneLine(values[p.name]);
      match q
      case Double => EscapedIsReadThrough(value);
      case Single => DoubledIsReadThrough(value);
      case Unquoted => QuotedIsReadThrough(value);
    }
  }

  lemma CharacterIsReadAlike(q: Quote, c: char)
    requires c != '\\'
    ensures YamlStep(StateOf(q), c) == StateOf(QuoteStep(q, c))
  {
  }

  /** Filled from `from` to `pos`, YAML gets from where it is at `from` to where the template's quotes say it is at `pos`. */
  ghost predicate ReadAlike(line: string, from: nat, pos: nat, values: Values)
    requires from <= pos <= |line| && Reached(line, from, pos)
  {
    YamlAfter(FillBetween(line, from, pos, values, Yaml, None), StateOf(QuoteAfter(line[..from], Unquoted)))
    == StateOf(QuoteAfter(line[..pos], Unquoted))
  }

  lemma AlikeBehindCharacter(line: string, from: nat, pos: nat, values: Values)
    requires from < pos <= |line| && Reached(line, from, pos) && '\\' !in line
    requires PlaceholderAt(line, from).None? && Reached(line, from + 1, pos) && ReadAlike(line, from + 1, pos, values)
    ensures ReadAlike(line, from, pos, values)
  {
    var q, rest := QuoteAfter(line[..from], Unquoted), FillBetween(line, from + 1, pos, values, Yaml, None);
    assert line[from] in line && line[..from + 1][..from] == line[..from];
    YamlAfterJoin([line[from]], rest, StateOf(q));
    YamlAfterOne(line[from], StateOf(q));
    CharacterIsReadAlike(q, line[from]);
  }

  lemma QuoteBehindPlaceholder(line: string, from: nat, p: Placeholder, values: Values)
    requires from < |line| && PlaceholderAt(line, from) == Some(p) && '\\' !in line
    ensures QuoteAfter(line[..p.end], Unquoted) == QuoteAfter(line[..from], Unquoted)
  {
    PieceIsReadThrough(line, from, p, values);
    assert line[..from] + line[from..p.end] == line[..p.end];
    QuoteAfterConcat(line[..from], line[from..p.end], Unquoted);
  }

  lemma AlikeBehindPiece(line: string, from: nat, p: Placeholder, pos: nat, values: Values)
    requires from < pos <= |line| && Reached(line, from, pos) && '\\' !in line
    requires PlaceholderAt(line, from) == Some(p) && p.end <= pos && Reached(line, p.end, pos) && ReadAlike(line, p.end, pos, values)
    ensures ReadAlike(line, from, pos, values)
  {
    var q, rest := QuoteAfter(line[..from], Unquoted), FillBetween(line, p.end, pos, values, Yaml, None);
    PieceIsReadThrough(line, from, p, values);
    QuoteBehindPlaceholder(line, from, p, values);
    YamlAfterJoin(Piece(line, from, p, values, Yaml, None), rest, StateOf(q));
  }

  lemma {:induction false} LineIsReadAlike(line: string, from: nat, pos: nat, values: Values)
    requires from <= pos <= |line| && Reached(line, from, pos) && '\\' !in line
    ensures ReadAlike(line, from, pos, values)
    decreases pos - from
  {
    if from == pos {
    } else {
      match PlaceholderAt(line, from)
      case None =>
        LineIsReadAlike(line, from + 1, pos, values);
        AlikeBehindCharacter(line, from, pos, values);
      case Some(p) =>
        LineIsReadAlike(line, p.end, pos, values);
        AlikeBehindPiece(line, from, p, pos, values);
    }
  }

  /** In a frontmatter line that is written without backslashes, no value ends or opens a string: every character of the template is
      read where the template's quotes put it, in all fillings alike. */
  lemma FrontmatterQuotingIsKept(line: string, pos: nat, values: Values)
    requires pos <= |line| && Reached(line, 0, pos) && '\\' !in line
    ensures var before := FillBetween(line, 0, pos, values, Yaml, None);
      && FilledLine(line, values, Yaml) == before + FillFrom(line, pos, values, Yaml, None)
      && YamlAfter(before, Outside) == StateOf(QuoteAfter(line[..pos], Unquoted))
  {
    FillInTwo(line, 0, pos, values, Yaml, None);
    LineIsReadAlike(line, 0, pos, values);
    assert line[..0] == "";
  }

  lemma EscapedQuoteIsOpen(head: string)
    requires head == "\"\\\""
    ensures YamlAfter(head, Outside) == InDouble(false) && QuoteAfter(head, Unquoted) == Unquoted
  {
    assert head[..2] == "\"\\" && head[..2][..1] == "\"" && "\""[..0] == "";
    assert QuoteAfter("\"", Unquoted) == Double && QuoteAfter(head[..2], Unquoted) == Double;
    assert YamlAfter("\"", Outside) == InDouble(false) && YamlAfter(head[..2], Outside) == InDouble(true);
  }

  lemma EscapedQuotePlaceholder(line: string)
    requires line == "\"\\\"{{t}}\""
    ensures |line| == 9 && line[..3] == "\"\\\"" && PlaceholderAt(line, 3) == Some(Placeholder("t", 8))
  {
    assert line[3] == '{' && line[4] == '{' && line[5] == 't' && line[6] == '}' && line[7] == '}';
    assert SkipWord(line, 6) == 6;
    assert line[5..6] == "t";
  }

  lemma QuotedLetter(piece: string)
    requires piece == Json.Quote(OneLine("a"))
    ensures piece == "\"a\""
  {
    assert OneLine("a") == "a" && Json.Escape("a") == "a";
  }

  lemma EscapedThenClosed(text: string)
    requires text == "\\\"\"a\"\""
    ensures Json.ReadString(text) == Some(("\"", "a\"\""))
  {
    assert text[2..] == "\"a\"\"" && text[2..][1..] == "a\"\"";
    assert Json.ReadString(text[2..]) == Some(("", "a\"\""));
    Json.EscapedReads(text, '"', 1);
    assert ['"'] + "" == "\"";
  }

  /** Behind an escaped quote the template's quotes are misread: the value gets quotes of its own, and the first of them ends the
      string it stands in, ahead of the value. */
  lemma EscapedQuoteWitness(line: string, values: Values, p: Placeholder)
    requires line == "\"\\\"{{t}}\"" && values == map["t" := "a"] && p == Placeholder("t", 8)
    ensures PlaceholderAt(line, 3) == Some(p) && YamlAfter(line[..3], Outside) == InDouble(false)
    ensures Json.ReadString("\\\"" + Piece(line, 3, p, values, Yaml, None) + "\"") == Some(("\"", "a\"\""))
  {
    EscapedQuotePlaceholder(line);
    EscapedQuoteIsOpen(line[..3]);
    var piece := Piece(line, 3, p, values, Yaml, None);
    QuotedLetter(piece);
    EscapedThenClosed("\\\"" + piece + "\"");
  }
}
