/**
 Sync keys in a page's frontmatter: the printer, the parser, and exactly when they are inverses.
 */
module Frontmatter {
  import opened Wrappers
  import opened Text
  import Json

  datatype SyncKeys = SyncKeys(id: string, hash: string, parentId: Option<string>, labels: seq<string>)

  /** The sync keys found in a file; a missing key is `None`. */
  datatype Meta = Meta(cloudId: Option<string>, cloudHash: Option<string>, cloudParent: Option<string>, cloudLabels: Option<seq<string>>)

  const NO_META := Meta(None, None, None, None)

  const CLOSE := "\n---"

  datatype Split = Split(lines: seq<string>, body: string, atEnd: bool)

  /** The first `---` line ends the block, and only if nothing else stands on it. */
  function SplitFrontmatter(source: string): Option<Split> {
    if !StartsWith(source, "---\n") then None
    else
      match IndexOf(source, CLOSE, 3)
      case None => None
      case Some(end) =>
        var after := end + 4;
        if after < |source| && source[after] != '\n' then None
        else
          var inner := if end <= 4 then "" else source[4..end];
          Some(Split(if inner == "" then [] else Lines(inner),
                     if after < |source| then source[after + 1..] else "",
                     after == |source|))
  }

  datatype Key = IdKey | HashKey | ParentKey | LabelsKey

  function KeyName(key: Key): string {
    match key
    case IdKey => "cloudId:"
    case HashKey => "cloudHash:"
    case ParentKey => "cloudParent:"
    case LabelsKey => "cloudLabels:"
  }

  function KeyLine(key: Key, value: string): string {
    KeyName(key) + " " + value
  }

  function ParentLines(keys: SyncKeys): seq<string> {
    if keys.parentId.Some? && keys.parentId.value != "" then [KeyLine(ParentKey, keys.parentId.value)] else []
  }

  function LabelLines(keys: SyncKeys): seq<string> {
    if keys.labels != [] then [KeyLine(LabelsKey, Json.QuoteArray(keys.labels))] else []
  }

  function KeyLines(keys: SyncKeys): seq<string> {
    [KeyLine(IdKey, keys.id)] + [KeyLine(HashKey, keys.hash)] + ParentLines(keys) + LabelLines(keys)
  }

  /** A source whose frontmatter is `lines`. */
  function Assemble(lines: seq<string>, body: string): string {
    "---\n" + Unlines(lines) + "\n---\n" + body
  }

  function WithSyncFrontmatter(source: string, keys: SyncKeys): string {
    match SplitFrontmatter(source)
    case None => Assemble(KeyLines(keys), source)
    case Some(split) => Assemble(KeyLines(keys) + split.lines, split.body)
  }

  /** The sync key a line starts with. */
  function KeyOf(line: string): Option<Key> {
    if StartsWith(line, KeyName(IdKey)) then Some(IdKey)
    else if StartsWith(line, KeyName(HashKey)) then Some(HashKey)
    else if StartsWith(line, KeyName(ParentKey)) then Some(ParentKey)
    else if StartsWith(line, KeyName(LabelsKey)) then Some(LabelsKey)
    else None
  }

  predicate IsQuote(c: char) {
    c == '"' || c == '\''
  }

  function StripQuotes(value: string): string {
    var tail := if value != "" && IsQuote(value[0]) then value[1..] else value;
    if tail != "" && IsQuote(tail[|tail| - 1]) then tail[..|tail| - 1] else tail
  }

  /** `other` stands for what the runtime makes of label text that is not a JSON array of strings. */
  function ParseLabelList(value: string, other: string -> seq<string>): seq<string> {
    match Json.ReadStringArray(value)
    case Some(labels) => labels
    case None => other(value)
  }

  function WithKey(meta: Meta, line: string, key: Key, other: string -> seq<string>): Meta
    requires KeyOf(line) == Some(key)
  {
    var value := Trim(line[|KeyName(key)|..]);
    match key
    case IdKey => meta.(cloudId := Some(StripQuotes(value)))
    case HashKey => meta.(cloudHash := Some(StripQuotes(value)))
    case ParentKey => meta.(cloudParent := Some(StripQuotes(value)))
    case LabelsKey => meta.(cloudLabels := Some(ParseLabelList(value, other)))
  }

  /** Later lines win. */
  function MetaOf(lines: seq<string>, other: string -> seq<string>): Meta {
    if lines == [] then NO_META
    else
      var n := |lines| - 1;
      var before := MetaOf(lines[..n], other);
      if KeyOf(lines[n]).Some? then WithKey(before, lines[n], KeyOf(lines[n]).value, other) else before
  }

  function PlainLines(lines: seq<string>): seq<string> {
    if lines == [] then []
    else
      var n := |lines| - 1;
      PlainLines(lines[..n]) + (if KeyOf(lines[n]).Some? then [] else [lines[n]])
  }

  datatype Stripped = Stripped(meta: Meta, body: string)

  function Strip(content: string, other: string -> seq<string>): Stripped {
    match SplitFrontmatter(content)
    case None => Stripped(NO_META, content)
    case Some(split) =>
      var meta, kept := MetaOf(split.lines, other), PlainLines(split.lines);
      Stripped(meta, if meta == NO_META then content else if kept == [] then split.body else Assemble(kept, split.body))
  }

  method StripSyncFrontmatter(content: string, other: string -> seq<string>) returns (meta: Meta, body: string)
    ensures Stripped(meta, body) == Strip(content, other)
  {
    meta, body := NO_META, content;
    var split := SplitFrontmatter(content);
    if split.None? {
      return;
    }
    var lines := split.value.lines;
    var kept := [];
    for i := 0 to |lines|
      invariant meta == MetaOf(lines[..i], other) && kept == PlainLines(lines[..i])
    {
      assert lines[..i + 1][..i] == lines[..i];
      var key := KeyOf(lines[i]);
      if key.None? {
        kept := kept + [lines[i]];
        continue;
      }
      meta := WithKey(meta, lines[i], key.value, other);
    }
    assert lines[..|lines|] == lines;
    if meta != NO_META {
      body := if kept == [] then split.value.body else Assemble(kept, split.value.body);
    }
  }

  // ---------------------------------------------------------------------------------------------
  // Splitting undoes assembling
  // ---------------------------------------------------------------------------------------------

  ghost predicate BlockLines(lines: seq<string>) {
    forall line :: line in lines ==> SingleLine(line) && !StartsWith(line, "---")
  }

  /** No closing rule starts at or inside the first line. */
  lemma FirstLineStaysOpen(s: string, first: string, rest: string, at: nat)
    requires s == ['\n'] + first + rest && SingleLine(first) && !StartsWith(first, "---")
    requires rest != "" && rest[0] == '\n' && at <= |first|
    ensures !MatchesAt(s, CLOSE, at)
  {
    assert forall i :: 0 <= i < |first| ==> s[1 + i] == first[i];
    assert s[1 + |first|] == '\n';
    if at == 0 {
      var j := if |first| == 0 || first[0] != '-' then 0 else if |first| == 1 || first[1] != '-' then 1 else 2;
      assert |first| >= 3 ==> first[..3] == [first[0], first[1], first[2]];
      Mismatch(s, CLOSE, 0, 1 + j);
    } else {
      assert first[at - 1] in first;
      Mismatch(s, CLOSE, at, 0);
    }
  }

  /** No closing rule starts inside the block; `tail` begins with the one that closes it. */
  lemma {:induction false} NoEarlyClose(lines: seq<string>, tail: string, at: nat)
    requires lines != [] && BlockLines(lines)
    requires tail != "" && tail[0] == '\n' && at <= |Unlines(lines)|
    ensures !MatchesAt(['\n'] + Unlines(lines) + tail, CLOSE, at)
  {
    var first, s := lines[0], ['\n'] + Unlines(lines) + tail;
    var rest := if |lines| == 1 then tail else ['\n'] + Unlines(lines[1..]) + tail;
    assert s == ['\n'] + first + rest;
    if at <= |first| {
      FirstLineStaysOpen(s, first, rest, at);
    } else {
      var k := at - 1 - |first|;
      NoEarlyClose(lines[1..], tail, k);
      assert s[1 + |first|..1 + |first| + |rest|] == rest;
      if k + 4 <= |rest| {
        MatchShift(s, rest, 1 + |first|, CLOSE, k);
      }
    }
  }

  /** The pieces of a source that closes at `end`. */
  lemma SplitAt(s: string, end: nat)
    requires StartsWith(s, "---\n") && 4 < end && end + 4 < |s| && s[end + 4] == '\n'
    requires MatchesAt(s, CLOSE, end) && forall i :: 3 <= i < end ==> !MatchesAt(s, CLOSE, i)
    ensures SplitFrontmatter(s) == Some(Split(Lines(s[4..end]), s[end + 5..], false))
  {
    IndexOfIsFirst(s, CLOSE, 3);
    assert IndexOf(s, CLOSE, 3) == Some(end);
  }

  /** `s` opens a block, holds `inner`, closes it at `end` and goes on with `body`. */
  ghost predicate Shape(s: string, inner: string, body: string) {
    var end := 4 + |inner|;
    && |s| == end + 5 + |body|
    && StartsWith(s, "---\n") && s[4..end] == inner
    && MatchesAt(s, CLOSE, end) && s[end + 4] == '\n' && s[end + 5..] == body
    && s[3..] == ['\n'] + inner + s[end..]
  }

  lemma AssembledShape(lines: seq<string>, body: string)
    ensures Shape(Assemble(lines, body), Unlines(lines), body)
  {
  }

  lemma SplitOfShape(s: string, lines: seq<string>, body: string)
    requires lines != [] && BlockLines(lines) && Unlines(lines) != "" && Shape(s, Unlines(lines), body)
    ensures SplitFrontmatter(s) == Some(Split(lines, body, false))
  {
    var inner := Unlines(lines);
    var end := 4 + |inner|;
    var t := s[3..];
    assert s[end] == s[end..end + 4][0];
    assert s[3..3 + |t|] == t;
    forall i | 3 <= i < end
      ensures !MatchesAt(s, CLOSE, i)
    {
      NoEarlyClose(lines, s[end..], i - 3);
      MatchShift(s, t, 3, CLOSE, i - 3);
    }
    SplitAt(s, end);
    LinesOfUnlines(lines);
  }

  lemma SplitOfAssembled(lines: seq<string>, body: string)
    requires lines != [] && BlockLines(lines) && Unlines(lines) != ""
    ensures SplitFrontmatter(Assemble(lines, body)) == Some(Split(lines, body, false))
  {
    AssembledShape(lines, body);
    SplitOfShape(Assemble(lines, body), lines, body);
  }

  lemma FirstThenRest(lines: seq<string>)
    requires |lines| > 1
    ensures ['\n'] + Unlines(lines) == ['\n'] + lines[0] + (['\n'] + Unlines(lines[1..]))
  {
  }

  /** A line that no rule starts on. */
  lemma OpenLine(s: string, first: string)
    requires |first| + 1 <= |s| && s[0] == '\n' && s[1..1 + |first|] == first && !MatchesAt(s, CLOSE, 0)
    ensures !StartsWith(first, "---")
  {
    assert |first| >= 3 ==> s[0..4] == ['\n'] + first[..3];
  }

  /** No rule starts in the rest of a text either. */
  lemma OpenRest(s: string, head: string, rest: string)
    requires s == head + rest && forall i :: 0 <= i < |s| ==> !MatchesAt(s, CLOSE, i)
    ensures forall i :: 0 <= i < |rest| ==> !MatchesAt(rest, CLOSE, i)
  {
    assert s[|head|..|head| + |rest|] == rest;
    forall i | 0 <= i < |rest|
      ensures !MatchesAt(rest, CLOSE, i)
    {
      if i + 4 <= |rest| {
        MatchShift(s, rest, |head|, CLOSE, i);
      }
    }
  }

  lemma {:induction false} UnclosedLines(lines: seq<string>)
    requires lines != [] && forall line :: line in lines ==> SingleLine(line)
    requires forall i :: 0 <= i <= |Unlines(lines)| ==> !MatchesAt(['\n'] + Unlines(lines), CLOSE, i)
    ensures BlockLines(lines)
  {
    var first := lines[0];
    var s := ['\n'] + Unlines(lines);
    OpenLine(s, first);
    if |lines| == 1 {
    } else {
      var rest := ['\n'] + Unlines(lines[1..]);
      FirstThenRest(lines);
      OpenRest(s, ['\n'] + first, rest);
      UnclosedLines(lines[1..]);
    }
  }

  /** A text in which no rule follows a newline has none at the start of a line. */
  lemma LinesStayOpen(source: string, end: nat)
    requires 4 < end <= |source| && source[3] == '\n'
    requires forall i :: 3 <= i < end ==> !MatchesAt(source, CLOSE, i)
    ensures BlockLines(Lines(source[4..end])) && Unlines(Lines(source[4..end])) == source[4..end]
  {
    var inner := source[4..end];
    var t := ['\n'] + inner;
    UnlinesOfLines(inner);
    LinesAreSingle(inner);
    assert source[3..3 + |t|] == t;
    forall i | 0 <= i <= |inner|
      ensures !MatchesAt(t, CLOSE, i)
    {
      if i + 4 <= |t| {
        MatchShift(source, t, 3, CLOSE, i);
      }
    }
    UnclosedLines(Lines(inner));
  }

  lemma ReassembledAtEnd(s: string, inner: string, end: nat)
    requires 4 <= end && end + 4 == |s| && s[..4] == "---\n" && s[4..end] == inner && s[end..] == CLOSE
    ensures s == "---\n" + inner + CLOSE
  {
  }

  lemma Reassembled(s: string, inner: string, end: nat)
    requires 4 <= end && end + 5 <= |s| && s[..4] == "---\n" && s[4..end] == inner && s[end..end + 5] == "\n---\n"
    ensures s == "---\n" + inner + "\n---\n" + s[end + 5..]
  {
  }

  /** What a non-empty block is made of. */
  lemma SplitParts(source: string)
    requires SplitFrontmatter(source).Some? && SplitFrontmatter(source).value.lines != []
    ensures var split := SplitFrontmatter(source).value;
      && BlockLines(split.lines) && Unlines(split.lines) != ""
      && (split.atEnd ==> source == "---\n" + Unlines(split.lines) + CLOSE && split.body == "")
      && (!split.atEnd ==> source == Assemble(split.lines, split.body))
  {
    IndexOfIsFirst(source, CLOSE, 3);
    var end := IndexOf(source, CLOSE, 3).value;
    assert source[3] == source[..4][3];
    LinesStayOpen(source, end);
    if end + 4 == |source| {
      ReassembledAtEnd(source, source[4..end], end);
    } else {
      assert source[end..end + 5] == source[end..end + 4] + [source[end + 4]];
      Reassembled(source, source[4..end], end);
    }
  }

  // ---------------------------------------------------------------------------------------------
  // The keys come back
  // ---------------------------------------------------------------------------------------------

  /** A one-line value with no white space or quote at either edge, as ids and hex hashes are. */
  ghost predicate Clean(value: string) {
    && value != "" && SingleLine(value)
    && !IsSpace(value[0]) && !IsSpace(value[|value| - 1])
    && !IsQuote(value[0]) && !IsQuote(value[|value| - 1])
  }

  ghost predicate CleanKeys(keys: SyncKeys) {
    Clean(keys.id) && Clean(keys.hash) && (keys.parentId.Some? && keys.parentId.value != "" ==> Clean(keys.parentId.value))
  }

  function MetaFor(keys: SyncKeys): Meta {
    Meta(Some(keys.id), Some(keys.hash),
         if keys.parentId.Some? && keys.parentId.value != "" then keys.parentId else None,
         if keys.labels != [] then Some(keys.labels) else None)
  }

  lemma TrimsTo(value: string)
    requires value != "" && !IsSpace(value[0]) && !IsSpace(value[|value| - 1])
    ensures Trim(" " + value) == value
  {
    var s := " " + value;
    assert s[0] == ' ' && IsSpace(s[0]);
    assert s[1..] == value;
    assert TrimStart(s) == TrimStart(value) == value;
    assert TrimEnd(value) == value;
  }

  lemma KeyIsFound(line: string, key: Key)
    requires StartsWith(line, KeyName(key))
    ensures KeyOf(line) == Some(key)
  {
    assert line[5] == KeyName(key)[5] by {
      assert line[..|KeyName(key)|][5] == line[5];
    }
    forall k: Key | StartsWith(line, KeyName(k))
      ensures k == key
    {
      assert line[..|KeyName(k)|][5] == line[5];
    }
  }

  lemma KeyLineReads(key: Key, value: string)
    requires value != "" && !IsSpace(value[0]) && !IsSpace(value[|value| - 1])
    ensures KeyOf(KeyLine(key, value)) == Some(key)
    ensures Trim(KeyLine(key, value)[|KeyName(key)|..]) == value
    ensures !StartsWith(KeyLine(key, value), "---")
  {
    var line := KeyLine(key, value);
    TrimsTo(value);
    KeyIsFound(line, key);
    NotARule(line);
  }

  lemma NotARule(line: string)
    requires line != "" && line[0] != '-'
    ensures !StartsWith(line, "---")
  {
  }

  lemma {:induction false} MetaAppend(a: seq<string>, b: seq<string>, other: string -> seq<string>)
    requires forall line :: line in b ==> KeyOf(line).None?
    ensures MetaOf(a + b, other) == MetaOf(a, other)
  {
    if b == [] {
      assert a + b == a;
    } else {
      var n := |b| - 1;
      assert (a + b)[..|a + b| - 1] == a + b[..n];
      MetaAppend(a, b[..n], other);
      assert b[n] in b;
    }
  }

  lemma {:induction false} PlainAppend(a: seq<string>, b: seq<string>)
    ensures PlainLines(a + b) == PlainLines(a) + PlainLines(b)
  {
    if b == [] {
      assert a + b == a;
    } else {
      var n := |b| - 1;
      assert (a + b)[..|a + b| - 1] == a + b[..n];
      PlainAppend(a, b[..n]);
    }
  }

  ghost predicate ReadsBack(lines: seq<string>, meta: Meta, other: string -> seq<string>) {
    BlockLines(lines) && MetaOf(lines, other) == meta && PlainLines(lines) == []
  }

  lemma KeyLineIsSingle(key: Key, value: string)
    requires SingleLine(value)
    ensures SingleLine(KeyLine(key, value))
  {
  }

  lemma OneMoreKey(lines: seq<string>, meta: Meta, key: Key, value: string, other: string -> seq<string>)
    requires ReadsBack(lines, meta, other) && value != "" && SingleLine(value)
    requires !IsSpace(value[0]) && !IsSpace(value[|value| - 1])
    ensures KeyOf(KeyLine(key, value)) == Some(key)
    ensures ReadsBack(lines + [KeyLine(key, value)], WithKey(meta, KeyLine(key, value), key, other), other)
  {
    var line := KeyLine(key, value);
    KeyLineReads(key, value);
    KeyLineIsSingle(key, value);
    ReadsBackSnoc(lines, meta, line, key, other);
  }

  lemma ReadsBackSnoc(lines: seq<string>, meta: Meta, line: string, key: Key, other: string -> seq<string>)
    requires ReadsBack(lines, meta, other) && KeyOf(line) == Some(key)
    requires SingleLine(line) && !StartsWith(line, "---")
    ensures ReadsBack(lines + [line], WithKey(meta, line, key, other), other)
  {
  }

  lemma CleanUnquoted(value: string)
    requires Clean(value)
    ensures StripQuotes(value) == value
  {
  }

  lemma WithCleanKey(meta: Meta, key: Key, value: string, other: string -> seq<string>)
    requires Clean(value) && KeyOf(KeyLine(key, value)) == Some(key)
    ensures key == IdKey ==> WithKey(meta, KeyLine(key, value), key, other) == meta.(cloudId := Some(value))
    ensures key == HashKey ==> WithKey(meta, KeyLine(key, value), key, other) == meta.(cloudHash := Some(value))
    ensures key == ParentKey ==> WithKey(meta, KeyLine(key, value), key, other) == meta.(cloudParent := Some(value))
  {
    KeyLineReads(key, value);
    CleanUnquoted(value);
  }

  lemma CleanKeyReads(lines: seq<string>, meta: Meta, key: Key, value: string, other: string -> seq<string>)
    requires ReadsBack(lines, meta, other) && Clean(value) && key != LabelsKey
    ensures var meta' := match key
        case IdKey => meta.(cloudId := Some(value))
        case HashKey => meta.(cloudHash := Some(value))
        case _ => meta.(cloudParent := Some(value));
      ReadsBack(lines + [KeyLine(key, value)], meta', other)
  {
    OneMoreKey(lines, meta, key, value, other);
    WithCleanKey(meta, key, value, other);
  }

  lemma LabelsKeyReads(lines: seq<string>, meta: Meta, labels: seq<string>, other: string -> seq<string>)
    requires ReadsBack(lines, meta, other)
    ensures ReadsBack(lines + [KeyLine(LabelsKey, Json.QuoteArray(labels))], meta.(cloudLabels := Some(labels)), other)
  {
    var value := Json.QuoteArray(labels);
    Json.ArrayPrintable(labels);
    OneMoreKey(lines, meta, LabelsKey, value, other);
    KeyLineReads(LabelsKey, value);
    Json.ArrayReads(labels);
  }

  lemma MandatoryKeysRead(keys: SyncKeys, other: string -> seq<string>)
    requires CleanKeys(keys)
    ensures ReadsBack([KeyLine(IdKey, keys.id)] + [KeyLine(HashKey, keys.hash)], Meta(Some(keys.id), Some(keys.hash), None, None), other)
  {
    var none: seq<string> := [];
    CleanKeyReads(none, NO_META, IdKey, keys.id, other);
    assert none + [KeyLine(IdKey, keys.id)] == [KeyLine(IdKey, keys.id)];
    CleanKeyReads([KeyLine(IdKey, keys.id)], NO_META.(cloudId := Some(keys.id)), HashKey, keys.hash, other);
  }

  /** The printed key lines parse to the keys. */
  lemma KeyLinesRead(keys: SyncKeys, other: string -> seq<string>)
    requires CleanKeys(keys)
    ensures ReadsBack(KeyLines(keys), MetaFor(keys), other)
  {
    var lines := [KeyLine(IdKey, keys.id)] + [KeyLine(HashKey, keys.hash)];
    var meta := Meta(Some(keys.id), Some(keys.hash), None, None);
    MandatoryKeysRead(keys, other);
    var more := lines + ParentLines(keys);
    var meta' := meta.(cloudParent := MetaFor(keys).cloudParent);
    if ParentLines(keys) == [] {
      assert more == lines;
    } else {
      CleanKeyReads(lines, meta, ParentKey, keys.parentId.value, other);
    }
    assert ReadsBack(more, meta', other);
    if LabelLines(keys) == [] {
      assert more + LabelLines(keys) == more;
    } else {
      LabelsKeyReads(more, meta', keys.labels, other);
    }
  }

  // ---------------------------------------------------------------------------------------------
  // Round trip
  // ---------------------------------------------------------------------------------------------

  /** The sources stamping does not preserve: an empty block, a block closed by the end of the file, a key line of its own. */
  predicate Unfaithful(source: string) {
    match SplitFrontmatter(source)
    case None => false
    case Some(split) => split.lines == [] || split.atEnd || exists line :: line in split.lines && KeyOf(line).Some?
  }

  ghost predicate NoKeyLines(lines: seq<string>) {
    forall line :: line in lines ==> KeyOf(line).None?
  }

  lemma {:induction false} PlainIsShorter(lines: seq<string>)
    ensures NoKeyLines(lines) ==> PlainLines(lines) == lines
    ensures !NoKeyLines(lines) ==> Width(PlainLines(lines)) + 1 < Width(lines)
  {
    if lines == [] {
    } else {
      var n := |lines| - 1;
      var init := lines[..n];
      PlainIsShorter(init);
      assert lines == init + [lines[n]];
      if KeyOf(lines[n]).Some? {
        KeyLineIsDropped(init, lines[n]);
      } else {
        PlainLineIsKept(init, lines[n]);
      }
    }
  }

  lemma KeyLineIsDropped(init: seq<string>, line: string)
    requires KeyOf(line).Some? && (NoKeyLines(init) ==> PlainLines(init) == init)
    requires !NoKeyLines(init) ==> Width(PlainLines(init)) + 1 < Width(init)
    ensures !NoKeyLines(init + [line]) && Width(PlainLines(init + [line])) + 1 < Width(init + [line])
  {
    var lines := init + [line];
    assert lines[|init|] == line && lines[..|init|] == init;
    WidthAppend(init, [line]);
    assert |line| > 1 && Width([line]) == |line| + 1;
    assert PlainLines(lines) == PlainLines(init) + [] == PlainLines(init);
  }

  lemma PlainLineIsKept(init: seq<string>, line: string)
    requires KeyOf(line).None?
    ensures PlainLines(init + [line]) == PlainLines(init) + [line] && Width(init + [line]) == Width(init) + Width([line])
    ensures Width(PlainLines(init + [line])) == Width(PlainLines(init)) + Width([line])
    ensures NoKeyLines(init + [line]) <==> NoKeyLines(init)
  {
    var lines := init + [line];
    assert lines[|init|] == line && lines[..|init|] == init;
    WidthAppend(init, [line]);
    WidthAppend(PlainLines(init), [line]);
  }

  /** Characters of the lines, each with its newline. */
  function Width(lines: seq<string>): nat {
    if lines == [] then 0 else |lines[0]| + 1 + Width(lines[1..])
  }

  lemma {:induction false} WidthAppend(a: seq<string>, b: seq<string>)
    ensures Width(a + b) == Width(a) + Width(b)
  {
    if a == [] {
      assert a + b == b;
    } else {
      assert (a + b)[1..] == a[1..] + b;
      WidthAppend(a[1..], b);
    }
  }

  lemma {:induction false} UnlinesWidth(lines: seq<string>)
    requires lines != []
    ensures |Unlines(lines)| + 1 == Width(lines)
  {
    if |lines| == 1 {
    } else {
      UnlinesWidth(lines[1..]);
    }
  }

  lemma StampedSplits(source: string, keys: SyncKeys)
    requires CleanKeys(keys)
    ensures var split := SplitFrontmatter(source);
      var lines := if split.Some? then split.value.lines else [];
      var body := if split.Some? then split.value.body else source;
      SplitFrontmatter(WithSyncFrontmatter(source, keys)) == Some(Split(KeyLines(keys) + lines, body, false))
  {
    KeyLinesRead(keys, _ => []);
    var split := SplitFrontmatter(source);
    var lines := if split.Some? then split.value.lines else [];
    var body := if split.Some? then split.value.body else source;
    if lines != [] {
      SplitParts(source);
    }
    assert KeyLines(keys) + [] == KeyLines(keys);
    UnlinesWidth(KeyLines(keys) + lines);
    SplitOfAssembled(KeyLines(keys) + lines, body);
  }

  /** Later lines can change an id, but not remove it. */
  lemma {:induction false} IdStays(a: seq<string>, b: seq<string>, other: string -> seq<string>)
    requires MetaOf(a, other).cloudId.Some?
    ensures MetaOf(a + b, other).cloudId.Some?
  {
    if b == [] {
      assert a + b == a;
    } else {
      var n := |b| - 1;
      IdStays(a, b[..n], other);
      assert (a + b)[..|a| + n] == a + b[..n];
    }
  }

  lemma StrippedStamp(source: string, keys: SyncKeys, other: string -> seq<string>) returns (split: Split)
    requires CleanKeys(keys) && SplitFrontmatter(source).Some?
    ensures SplitFrontmatter(source) == Some(split)
    ensures var kept := PlainLines(split.lines);
      Strip(WithSyncFrontmatter(source, keys), other)
      == Stripped(MetaOf(KeyLines(keys) + split.lines, other), if kept == [] then split.body else Assemble(kept, split.body))
  {
    StampedSplits(source, keys);
    KeyLinesRead(keys, other);
    split := SplitFrontmatter(source).value;
    IdStays(KeyLines(keys), split.lines, other);
    PlainAppend(KeyLines(keys), split.lines);
    assert PlainLines(KeyLines(keys) + split.lines) == PlainLines(split.lines);
  }

  /** The length of what stripping returns tells an unfaithful source apart. */
  lemma UnfaithfulChangesLength(source: string, split: Split)
    requires SplitFrontmatter(source) == Some(split) && Unfaithful(source)
    ensures var kept := PlainLines(split.lines);
      |if kept == [] then split.body else Assemble(kept, split.body)| != |source|
  {
    var lines, kept := split.lines, PlainLines(split.lines);
    PlainIsShorter(lines);
    if lines != [] {
      SplitParts(source);
      UnlinesWidth(lines);
      if kept != [] {
        UnlinesWidth(kept);
      }
    }
  }

  /** For every source: stripping a stamped source gives back the keys and the source, unless the source is one of three kinds. */
  lemma StripInvertsStamp(source: string, keys: SyncKeys, other: string -> seq<string>)
    requires CleanKeys(keys)
    ensures Strip(WithSyncFrontmatter(source, keys), other) == Stripped(MetaFor(keys), source) <==> !Unfaithful(source)
  {
    KeyLinesRead(keys, other);
    if SplitFrontmatter(source).None? {
      StampedSplits(source, keys);
      assert KeyLines(keys) + [] == KeyLines(keys);
    } else {
      var split := StrippedStamp(source, keys, other);
      if Unfaithful(source) {
        UnfaithfulChangesLength(source, split);
      } else {
        PlainIsShorter(split.lines);
        MetaAppend(KeyLines(keys), split.lines, other);
        SplitParts(source);
      }
    }
  }

  /** An unfaithful source comes back with another body. */
  lemma UnfaithfulIsSeen(source: string, keys: SyncKeys, other: string -> seq<string>)
    requires CleanKeys(keys) && Unfaithful(source)
    ensures Strip(WithSyncFrontmatter(source, keys), other).body != source
  {
    var split := StrippedStamp(source, keys, other);
    UnfaithfulChangesLength(source, split);
  }

  /** One source of each unfaithful kind. */
  lemma UnfaithfulWitnesses()
    ensures Unfaithful("---\n---\ntext") && Unfaithful("---\na: b\n---") && Unfaithful("---\ncloudId: x\n---\ntext")
  {
    EmptyBlockWitness();
    OpenEndWitness();
    OwnKeyWitness();
  }

  lemma EmptyBlockWitness()
    ensures Unfaithful("---\n---\ntext")
  {
    var s := "---\n---\ntext";
    assert s[..4] == "---\n";
    assert s[3..7] == CLOSE && MatchesAt(s, CLOSE, 3);
    IndexOfIsFirst(s, CLOSE, 3);
    assert IndexOf(s, CLOSE, 3) == Some(3);
  }

  lemma OpenEndWitness()
    ensures Unfaithful("---\na: b\n---")
  {
    var s := "---\na: b\n---";
    forall i | 3 <= i < 8
      ensures !MatchesAt(s, CLOSE, i)
    {
      Mismatch(s, CLOSE, i, 1);
    }
    assert s[8..12] == CLOSE && MatchesAt(s, CLOSE, 8);
    IndexOfIsFirst(s, CLOSE, 3);
    assert IndexOf(s, CLOSE, 3) == Some(8);
  }

  lemma OwnKeyWitness()
    ensures Unfaithful("---\ncloudId: x\n---\ntext")
  {
    var line := "cloudId: x";
    assert line[..8] == KeyName(IdKey);
    KeyIsFound(line, IdKey);
    NotARule(line);
    assert SingleLine(line);
    SplitOfAssembled([line], "text");
    assert Assemble([line], "text") == "---\ncloudId: x\n---\ntext";
  }
}
