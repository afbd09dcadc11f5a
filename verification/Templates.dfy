/**
 Filling page templates. Values are made single-line, quoted or stripped according to where their
 placeholder stands, and a line that would change kind is guarded with a zero-width space.
 */
module Templates {
  import opened Wrappers
  import opened Text
  import Json

  type Values = map<string, string>

  const ZWSP: char := '\U{200B}'

  const MAX_VALUE_LENGTH: nat := 500

  // ---------------------------------------------------------------------------------------------
  // Placeholders
  // ---------------------------------------------------------------------------------------------

  predicate IsLetter(c: char) {
    'a' <= c <= 'z' || 'A' <= c <= 'Z'
  }

  predicate IsDigit(c: char) {
    '0' <= c <= '9'
  }

  predicate IsWordChar(c: char) {
    IsLetter(c) || IsDigit(c) || c == '_'
  }

  function SkipSpaces(line: string, i: nat): (r: nat)
    requires i <= |line|
    ensures i <= r <= |line|
    decreases |line| - i
  {
    if i < |line| && IsSpace(line[i]) then SkipSpaces(line, i + 1) else i
  }

  function SkipWord(line: string, i: nat): (r: nat)
    requires i <= |line|
    ensures i <= r <= |line|
    decreases |line| - i
  {
    if i < |line| && IsWordChar(line[i]) then SkipWord(line, i + 1) else i
  }

  datatype Placeholder = Placeholder(name: string, end: nat)

  /** `{{ name }}` at position `i`: a letter and up to 39 more word characters, spaces allowed around it. */
  function PlaceholderAt(line: string, i: nat): (r: Option<Placeholder>)
    requires i <= |line|
    ensures r.Some? ==> i + 4 < r.value.end <= |line|
  {
    if !(i + 2 <= |line| && line[i] == '{' && line[i + 1] == '{') then None
    else
      var from := SkipSpaces(line, i + 2);
      var stop := SkipWord(line, from);
      var close := SkipSpaces(line, stop);
      if from < stop <= from + 40 && IsLetter(line[from]) && close + 2 <= |line| && line[close] == '}' && line[close + 1] == '}' then
        Some(Placeholder(line[from..stop], close + 2))
      else None
  }

  // ---------------------------------------------------------------------------------------------
  // Values
  // ---------------------------------------------------------------------------------------------

  predicate IsControl(c: char) {
    c < ' ' || c == '\U{7F}' || c == '\U{2028}' || c == '\U{2029}'
  }

  /** A run of control characters becomes one space; `inRun` says that the run's space is already written. */
  function SpaceControls(s: string, inRun: bool): string {
    if s == "" then ""
    else if IsControl(s[0]) then (if inRun then "" else " ") + SpaceControls(s[1..], true)
    else [s[0]] + SpaceControls(s[1..], false)
  }

  /** A run of two or more white-space characters becomes one space. */
  function CollapseSpaces(s: string, inRun: bool): string {
    if s == "" then ""
    else if IsSpace(s[0]) && inRun then CollapseSpaces(s[1..], true)
    else if IsSpace(s[0]) && |s| > 1 && IsSpace(s[1]) then " " + CollapseSpaces(s[1..], true)
    else [s[0]] + CollapseSpaces(s[1..], false)
  }

  function OneLine(value: string): string {
    var t := Trim(CollapseSpaces(SpaceControls(value, false), false));
    if |t| <= MAX_VALUE_LENGTH then t else t[..MAX_VALUE_LENGTH]
  }

  datatype Quote = Unquoted | Double | Single

  /** One character of the quote automaton. */
  function QuoteStep(q: Quote, c: char): Quote {
    if c == '"' then (if q == Unquoted then Double else if q == Double then Unquoted else q)
    else if c == '\'' then (if q == Unquoted then Single else if q == Single then Unquoted else q)
    else q
  }

  /** The quote open after `s`, starting in `q`. */
  function QuoteAfter(s: string, q: Quote): Quote {
    if s == "" then q else QuoteStep(QuoteAfter(s[..|s| - 1], q), s[|s| - 1])
  }

  method QuoteBefore(line: string, from: nat, stop: nat) returns (q: Quote)
    requires from <= stop <= |line|
    ensures q == QuoteAfter(line[from..stop], Unquoted)
  {
    q := Unquoted;
    for i := from to stop
      invariant q == QuoteAfter(line[from..i], Unquoted)
    {
      assert line[from..i + 1][..i - from] == line[from..i];
      var c := line[i];
      if c != '"' && c != '\'' {
        continue;
      }
      if q == Unquoted {
        q := if c == '"' then Double else Single;
      } else if q == (if c == '"' then Double else Single) {
        q := Unquoted;
      }
    }
  }

  function Unbraced(s: string): string {
    if s == "" then "" else (if s[0] == '{' || s[0] == '}' then "" else [s[0]]) + Unbraced(s[1..])
  }

  function Replaced(s: string, c: char, text: string): string {
    if s == "" then "" else (if s[0] == c then text else [s[0]]) + Replaced(s[1..], c, text)
  }

  predicate IsUnsafe(c: char) {
    IsSpace(c) || c == '"' || c == '\'' || c == '='
  }

  /** Runs of white space, quotes and equals signs become one hyphen. */
  function Hyphenated(s: string, inRun: bool): string {
    if s == "" then ""
    else if IsUnsafe(s[0]) then (if inRun then "" else "-") + Hyphenated(s[1..], true)
    else [s[0]] + Hyphenated(s[1..], false)
  }

  function AttributeValue(value: string, q: Quote): string {
    var unbraced := Unbraced(value);
    match q
    case Double => Replaced(unbraced, '"', "'")
    case Single => Replaced(unbraced, '\'', "\U{2019}")
    case Unquoted => Hyphenated(unbraced, false)
  }

  function YamlValue(value: string, q: Quote): string {
    match q
    case Double => Json.Escape(value)
    case Single => Replaced(value, '\'', "''")
    case Unquoted => Json.Quote(value)
  }

  // ---------------------------------------------------------------------------------------------
  // Line kinds
  // ---------------------------------------------------------------------------------------------

  datatype LineKind = Fence | DirectiveClose | Directive | Heading | Thematic | ListItem | Ordered | QuoteLine | Table | Plain

  /** Length of the run of `c` at the start. */
  function RunLength(s: string, c: char): (n: nat)
    ensures n <= |s|
  {
    if s != "" && s[0] == c then 1 + RunLength(s[1..], c) else 0
  }

  function DigitRun(s: string): (n: nat)
    ensures n <= |s|
  {
    if s != "" && IsDigit(s[0]) then 1 + DigitRun(s[1..]) else 0
  }

  predicate Blank(s: string) {
    TrimStart(s) == ""
  }

  predicate IsFence(line: string) {
    StartsWith(TrimStart(line), "```")
  }

  predicate IsDirectiveStart(t: string) {
    var n := RunLength(t, ':');
    n >= 2 && var rest := TrimStart(t[n..]); rest != "" && (IsLetter(rest[0]) || rest[0] == '_')
  }

  predicate IsHeading(t: string) {
    var n := RunLength(t, '#');
    1 <= n <= 6 && n < |t| && IsSpace(t[n]) && !Blank(t[n..])
  }

  predicate IsThematic(t: string) {
    || (RunLength(t, '-') >= 3 && Blank(t[RunLength(t, '-')..]))
    || (RunLength(t, '*') >= 3 && Blank(t[RunLength(t, '*')..]))
    || (RunLength(t, '_') >= 3 && Blank(t[RunLength(t, '_')..]))
  }

  /** The first structural pattern the line matches. */
  function KindOf(line: string): LineKind {
    var t := TrimStart(line);
    if StartsWith(t, "```") then Fence
    else if RunLength(t, ':') >= 2 && Blank(t[RunLength(t, ':')..]) then DirectiveClose
    else if IsDirectiveStart(t) then Directive
    else if IsHeading(t) then Heading
    else if IsThematic(t) then Thematic
    else if |t| > 1 && (t[0] == '-' || t[0] == '*' || t[0] == '+') && IsSpace(t[1]) then ListItem
    else if DigitRun(t) > 0 && DigitRun(t) + 1 < |t| && t[DigitRun(t)] == '.' && IsSpace(t[DigitRun(t) + 1]) then Ordered
    else if t != "" && t[0] == '>' then QuoteLine
    else if t != "" && t[0] == '|' then Table
    else Plain
  }

  /** White space, then `{…}` from position `i` to the end, with no closing brace inside. */
  predicate AttrsFrom(t: string, i: nat) {
    0 < i && i + 1 < |t| - 1 && t[i] == '{' && IsSpace(t[i - 1]) && '}' !in t[i + 1..|t| - 1]
  }

  /** White space, `{…}` with no closing brace inside, and nothing but white space after it. */
  predicate HasHeadingAttrs(line: string) {
    var t := TrimEnd(line);
    t != "" && t[|t| - 1] == '}' && exists i :: 0 <= i < |t| && AttrsFrom(t, i)
  }

  // ---------------------------------------------------------------------------------------------
  // Filling one line
  // ---------------------------------------------------------------------------------------------

  datatype Context = Noma | Yaml | Code

  datatype Span = Span(start: nat, end: nat)

  function LastIndexOf(s: string, c: char): Option<nat> {
    if s == "" then None else if s[|s| - 1] == c then Some(|s| - 1) else LastIndexOf(s[..|s| - 1], c)
  }

  /** The last ` {`. */
  function LastBraceAfterSpace(s: string): Option<nat> {
    if |s| < 2 then None
    else if s[|s| - 1] == '{' && s[|s| - 2] == ' ' then Some(|s| - 2)
    else LastBraceAfterSpace(s[..|s| - 1])
  }

  function SpanBetween(start: Option<nat>, end: Option<nat>): Option<Span> {
    if start.Some? && end.Some? && end.value > start.value then Some(Span(start.value, end.value)) else None
  }

  /** The `{...}` block of a directive or of a heading that has one. */
  function AttributeSpan(neutral: string, line: string): Option<Span> {
    var t := TrimStart(line);
    if IsDirectiveStart(t) then SpanBetween(IndexOf(line, "{", |line| - |t|), LastIndexOf(line, '}'))
    else if 1 <= RunLength(t, '#') <= 6 && RunLength(t, '#') < |t| && IsSpace(t[RunLength(t, '#')]) && HasHeadingAttrs(neutral) then
      var space := LastBraceAfterSpace(line);
      SpanBetween(if space.Some? then Some(space.value + 1) else None, LastIndexOf(line, '}'))
    else None
  }

  /** The line with every known placeholder replaced by `x`. */
  function NeutralFrom(line: string, pos: nat, values: Values): string
    requires pos <= |line|
    decreases |line| - pos
  {
    if pos == |line| then ""
    else
      match PlaceholderAt(line, pos)
      case None => [line[pos]] + NeutralFrom(line, pos + 1, values)
      case Some(p) => (if p.name in values then "x" else line[pos..p.end]) + NeutralFrom(line, p.end, values)
  }

  function Neutral(line: string, values: Values): string {
    NeutralFrom(line, 0, values)
  }

  predicate InSpan(span: Option<Span>, pos: nat) {
    span.Some? && span.value.start < pos < span.value.end
  }

  /** What replaces a placeholder at `pos`. */
  function Piece(line: string, pos: nat, p: Placeholder, values: Values, context: Context, span: Option<Span>): string
    requires pos < p.end <= |line|
  {
    if p.name !in values then line[pos..p.end]
    else
      var value := OneLine(values[p.name]);
      if context == Yaml then YamlValue(value, QuoteAfter(line[..pos], Unquoted))
      else if InSpan(span, pos) then AttributeValue(value, QuoteAfter(line[span.value.start..pos], Unquoted))
      else value
  }

  function FillFrom(line: string, pos: nat, values: Values, context: Context, span: Option<Span>): string
    requires pos <= |line|
    decreases |line| - pos
  {
    if pos == |line| then ""
    else
      match PlaceholderAt(line, pos)
      case None => [line[pos]] + FillFrom(line, pos + 1, values, context, span)
      case Some(p) => Piece(line, pos, p, values, context, span) + FillFrom(line, p.end, values, context, span)
  }

  function SpanFor(line: string, values: Values, context: Context): Option<Span> {
    if context == Noma then AttributeSpan(Neutral(line, values), line) else None
  }

  /** The filled line before any guard. */
  function Filled(line: string, values: Values, context: Context): string {
    FillFrom(line, 0, values, context, SpanFor(line, values, context))
  }

  predicate ChangesStructure(neutral: string, out: string, context: Context) {
    if context == Code then KindOf(out) == Fence && KindOf(neutral) != Fence else KindOf(out) != KindOf(neutral)
  }

  /** A zero-width space before the first visible character. */
  function GuardStart(out: string): string {
    var t := TrimStart(out);
    out[..|out| - |t|] + [ZWSP] + t
  }

  function Guarded(neutral: string, out: string, context: Context): string {
    var out1 := if ChangesStructure(neutral, out, context) then GuardStart(out) else out;
    if KindOf(neutral) == Heading && !HasHeadingAttrs(neutral) && HasHeadingAttrs(out1) then TrimEnd(out1) + [ZWSP] else out1
  }

  function FilledLine(line: string, values: Values, context: Context): string {
    var out := Filled(line, values, context);
    if context == Yaml then out else Guarded(Neutral(line, values), out, context)
  }

  method PieceFor(line: string, pos: nat, p: Placeholder, values: Values, context: Context, span: Option<Span>) returns (piece: string)
    requires pos < p.end <= |line|
    ensures piece == Piece(line, pos, p, values, context, span)
  {
    if p.name !in values {
      return line[pos..p.end];
    }
    var value := OneLine(values[p.name]);
    if context == Yaml {
      var q := QuoteBefore(line, 0, pos);
      assert line[0..pos] == line[..pos];
      piece := YamlValue(value, q);
    } else if span.Some? && pos > span.value.start && pos < span.value.end {
      var q := QuoteBefore(line, span.value.start, pos);
      piece := AttributeValue(value, q);
    } else {
      piece := value;
    }
  }

  lemma Associate(a: string, b: string, c: string)
    ensures a + (b + c) == (a + b) + c
  {
  }

  lemma CopyStep(out: string, line: string, pos: nat, values: Values, context: Context, span: Option<Span>)
    requires pos < |line| && PlaceholderAt(line, pos).None?
    ensures out + FillFrom(line, pos, values, context, span) == (out + [line[pos]]) + FillFrom(line, pos + 1, values, context, span)
  {
    Associate(out, [line[pos]], FillFrom(line, pos + 1, values, context, span));
  }

  lemma PieceStep(out: string, line: string, pos: nat, p: Placeholder, values: Values, context: Context, span: Option<Span>)
    requires pos < |line| && PlaceholderAt(line, pos) == Some(p)
    ensures out + FillFrom(line, pos, values, context, span)
         == (out + Piece(line, pos, p, values, context, span)) + FillFrom(line, p.end, values, context, span)
  {
    Associate(out, Piece(line, pos, p, values, context, span), FillFrom(line, p.end, values, context, span));
  }

  method FillLine(line: string, values: Values, context: Context) returns (r: string)
    ensures r == FilledLine(line, values, context)
  {
    var neutral := Neutral(line, values);
    var span := SpanFor(line, values, context);
    var out, pos := "", 0;
    while pos < |line|
      invariant pos <= |line|
      invariant out + FillFrom(line, pos, values, context, span) == Filled(line, values, context)
    {
      var found := PlaceholderAt(line, pos);
      if found.None? {
        CopyStep(out, line, pos, values, context, span);
        out := out + [line[pos]];
        pos := pos + 1;
      } else {
        var piece := PieceFor(line, pos, found.value, values, context, span);
        PieceStep(out, line, pos, found.value, values, context, span);
        out := out + piece;
        pos := found.value.end;
      }
    }
    assert out + "" == out;
    r := if context == Yaml then out else Guarded(neutral, out, context);
  }

  // ---------------------------------------------------------------------------------------------
  // The whole source
  // ---------------------------------------------------------------------------------------------

  datatype Region = Region(inFrontmatter: bool, inFence: bool)

  /** The region after line number `i`: the rules by which any source is read. */
  function NextRegion(region: Region, line: string, i: nat): Region {
    if i > 0 && region.inFrontmatter && Trim(line) == "---" then region.(inFrontmatter := false)
    else if !region.inFrontmatter && IsFence(line) then region.(inFence := !region.inFence)
    else region
  }

  function FirstRegion(lines: seq<string>): Region {
    Region(lines != [] && Trim(lines[0]) == "---", false)
  }

  /** The region reached after the first `n` lines. */
  function RegionAfter(lines: seq<string>, n: nat): Region
    requires n <= |lines|
  {
    if n == 0 then FirstRegion(lines) else NextRegion(RegionAfter(lines, n - 1), lines[n - 1], n - 1)
  }

  predicate HasBraces(line: string) {
    exists i :: 0 <= i && i + 1 < |line| && line[i] == '{' && line[i + 1] == '{'
  }

  function ContextAt(region: Region, i: nat): Context {
    if region.inFrontmatter && i > 0 then Yaml else if region.inFence then Code else Noma
  }

  /** What the line's iteration puts out, given the region before it. */
  function LineFrom(region: Region, line: string, i: nat, values: Values): string {
    if i > 0 && region.inFrontmatter && Trim(line) == "---" then line
    else if !HasBraces(line) then line
    else FilledLine(line, values, ContextAt(NextRegion(region, line, i), i))
  }

  function FilledLines(lines: seq<string>, values: Values): seq<string> {
    seq(|lines|, i requires 0 <= i < |lines| => LineFrom(RegionAfter(lines, i), lines[i], i, values))
  }

  /** One iteration of the loop over lines. */
  method NextLine(inFrontmatter: bool, inFence: bool, line: string, i: nat, values: Values)
    returns (out: string, inFrontmatter': bool, inFence': bool)
    ensures out == LineFrom(Region(inFrontmatter, inFence), line, i, values)
    ensures Region(inFrontmatter', inFence') == NextRegion(Region(inFrontmatter, inFence), line, i)
  {
    inFrontmatter', inFence' := inFrontmatter, inFence;
    if i > 0 && inFrontmatter && Trim(line) == "---" {
      return line, false, inFence;
    }
    if !inFrontmatter && IsFence(line) {
      inFence' := !inFence;
    }
    if !HasBraces(line) {
      return line, inFrontmatter', inFence';
    }
    out := FillLine(line, values, if inFrontmatter && i > 0 then Yaml else if inFence' then Code else Noma);
  }

  lemma OneMore(s: seq<string>, i: nat)
    requires i < |s|
    ensures s[..i + 1] == s[..i] + [s[i]]
  {
  }

  method FillLines(lines: seq<string>, values: Values) returns (out: seq<string>)
    ensures out == FilledLines(lines, values)
    ensures |out| == |lines| && forall j :: 0 <= j < |lines| ==> out[j] == LineFrom(RegionAfter(lines, j), lines[j], j, values)
  {
    var inFrontmatter, inFence := lines != [] && Trim(lines[0]) == "---", false;
    ghost var filled := FilledLines(lines, values);
    out := [];
    for i := 0 to |lines|
      invariant Region(inFrontmatter, inFence) == RegionAfter(lines, i)
      invariant out == filled[..i]
    {
      var next;
      next, inFrontmatter, inFence := NextLine(inFrontmatter, inFence, lines[i], i, values);
      OneMore(filled, i);
      out := out + [next];
    }
    assert filled[..|lines|] == filled;
  }

  method InstantiateTemplateSource(source: string, values: Values) returns (r: string)
    ensures r == Unlines(FilledLines(Lines(Normalize(source)), values))
  {
    var out := FillLines(Lines(Normalize(source)), values);
    r := Unlines(out);
  }
}
