/** Reading sync keys that were not printed by a sync, but edited by hand: in any order, repeated, quoted or not. */
module HandEdits {
  import opened Wrappers
  import opened Text
  import opened Frontmatter
  import Json

  // ---------------------------------------------------------------------------------------------
  // Which line counts
  // ---------------------------------------------------------------------------------------------

  /** The last line that starts with the name, if any does. */
  ghost predicate LastNamed(lines: seq<string>, name: string, i: Option<nat>) {
    if i.Some? then i.value < |lines| && StartsWith(lines[i.value], name) && forall k :: i.value < k < |lines| ==> !StartsWith(lines[k], name)
    else forall k :: 0 <= k < |lines| ==> !StartsWith(lines[k], name)
  }

  /** What stands behind the name in that line, without surrounding white space. */
  function TextAt(lines: seq<string>, name: string, i: Option<nat>): Option<string>
    requires i.Some? ==> i.value < |lines| && |lines[i.value]| >= |name|
  {
    if i.Some? then Some(Trim(lines[i.value][|name|..])) else None
  }

  function Unquoted(text: Option<string>): Option<string> {
    if text.Some? then Some(StripQuotes(text.value)) else None
  }

  lemma NamesAreApart(line: string)
    ensures StartsWith(line, "cloudId:") ==> KeyOf(line) == Some(IdKey)
    ensures StartsWith(line, "cloudHash:") ==> KeyOf(line) == Some(HashKey)
    ensures StartsWith(line, "cloudParent:") ==> KeyOf(line) == Some(ParentKey)
    ensures StartsWith(line, "cloudLabels:") ==> KeyOf(line) == Some(LabelsKey)
    ensures KeyOf(line).Some? <==>
      StartsWith(line, "cloudId:") || StartsWith(line, "cloudHash:") || StartsWith(line, "cloudParent:") || StartsWith(line, "cloudLabels:")
  {
    assert forall name :: StartsWith(line, name) && |name| > 5 ==> line[..|name|][5] == line[5];
    assert "cloudId:"[5] == 'I' && "cloudHash:"[5] == 'H' && "cloudParent:"[5] == 'P' && "cloudLabels:"[5] == 'L';
  }

  /** The line with the key that is found in the lines so far. */
  lemma {:induction false} LastOfKey(lines: seq<string>, key: Key) returns (i: Option<nat>)
    ensures LastNamed(lines, KeyName(key), i)
  {
    if lines == [] {
      i := None;
    } else {
      var n := |lines| - 1;
      i := LastOfKey(lines[..n], key);
      if StartsWith(lines[n], KeyName(key)) {
        i := Some(n);
      }
    }
  }

  /** Where the keys of some lines stand. */
  datatype Places = Places(id: Option<nat>, hash: Option<nat>, parent: Option<nat>, labels: Option<nat>)

  ghost predicate AreLast(lines: seq<string>, at: Places) {
    && LastNamed(lines, "cloudId:", at.id) && LastNamed(lines, "cloudHash:", at.hash)
    && LastNamed(lines, "cloudParent:", at.parent) && LastNamed(lines, "cloudLabels:", at.labels)
  }

  ghost predicate ReadFrom(lines: seq<string>, at: Places, meta: Meta, other: string -> seq<string>)
    requires AreLast(lines, at)
  {
    && meta.cloudId == Unquoted(TextAt(lines, "cloudId:", at.id)) && meta.cloudHash == Unquoted(TextAt(lines, "cloudHash:", at.hash))
    && meta.cloudParent == Unquoted(TextAt(lines, "cloudParent:", at.parent))
    && var text := TextAt(lines, "cloudLabels:", at.labels);
       meta.cloudLabels == if text.Some? then Some(ParseLabelList(text.value, other)) else None
  }

  lemma LastPlaces(lines: seq<string>) returns (at: Places)
    ensures AreLast(lines, at)
  {
    var id := LastOfKey(lines, IdKey);
    var hash := LastOfKey(lines, HashKey);
    var parent := LastOfKey(lines, ParentKey);
    var labels := LastOfKey(lines, LabelsKey);
    at := Places(id, hash, parent, labels);
  }

  lemma SamePlaces(lines: seq<string>, at: Places, before: Places)
    requires lines != [] && AreLast(lines, at) && AreLast(lines[..|lines| - 1], before)
    ensures var n := |lines| - 1; var line := lines[n];
      && at.id == (if StartsWith(line, "cloudId:") then Some(n) else before.id)
      && at.hash == (if StartsWith(line, "cloudHash:") then Some(n) else before.hash)
      && at.parent == (if StartsWith(line, "cloudParent:") then Some(n) else before.parent)
      && at.labels == (if StartsWith(line, "cloudLabels:") then Some(n) else before.labels)
  {
    SameLast(lines, "cloudId:", at.id, before.id);
    SameLast(lines, "cloudHash:", at.hash, before.hash);
    SameLast(lines, "cloudParent:", at.parent, before.parent);
    SameLast(lines, "cloudLabels:", at.labels, before.labels);
  }

  lemma OneMoreLine(lines: seq<string>, at: Places, before: Places, meta: Meta, other: string -> seq<string>)
    requires lines != [] && AreLast(lines, at) && AreLast(lines[..|lines| - 1], before)
    requires ReadFrom(lines[..|lines| - 1], before, meta, other)
    ensures var line := lines[|lines| - 1]; var key := KeyOf(line);
      ReadFrom(lines, at, if key.Some? then WithKey(meta, line, key.value, other) else meta, other)
  {
    NamesAreApart(lines[|lines| - 1]);
    SamePlaces(lines, at, before);
  }

  lemma {:induction false} MetaIsOfLast(lines: seq<string>, other: string -> seq<string>, at: Places)
    requires AreLast(lines, at)
    ensures ReadFrom(lines, at, MetaOf(lines, other), other)
  {
    if lines == [] {
    } else {
      var before := LastPlaces(lines[..|lines| - 1]);
      MetaIsOfLast(lines[..|lines| - 1], other, before);
      OneMoreLine(lines, at, before, MetaOf(lines[..|lines| - 1], other), other);
    }
  }

  /** The last line with the name is the very last one, or the last one before it. */
  lemma SameLast(lines: seq<string>, name: string, i: Option<nat>, before: Option<nat>)
    requires lines != [] && LastNamed(lines, name, i) && LastNamed(lines[..|lines| - 1], name, before)
    ensures i == if StartsWith(lines[|lines| - 1], name) then Some(|lines| - 1) else before
  {
    var n := |lines| - 1;
    assert forall k :: 0 <= k < n ==> lines[..n][k] == lines[k];
  }

  // ---------------------------------------------------------------------------------------------
  // Quotes
  // ---------------------------------------------------------------------------------------------

  /** A key's value may stand in quotes of either kind, or without. */
  lemma QuotesAreOptional(value: string, quote: char)
    requires value != "" && !IsQuote(value[0]) && !IsQuote(value[|value| - 1]) && IsQuote(quote)
    ensures StripQuotes(value) == value && StripQuotes([quote] + value + [quote]) == value
  {
    assert ([quote] + value + [quote])[1..] == value + [quote];
    assert (value + [quote])[..|value|] == value;
  }

  // ---------------------------------------------------------------------------------------------
  // The rest
  // ---------------------------------------------------------------------------------------------

  /** `at` names the positions of the lines without a sync key, all of them and in order. */
  ghost predicate KeptAt(lines: seq<string>, kept: seq<string>, at: seq<nat>) {
    && |at| == |kept| && (forall k :: 0 <= k < |at| ==> at[k] < |lines| && kept[k] == lines[at[k]] && KeyOf(kept[k]).None?)
    && (forall j, k :: 0 <= j < k < |at| ==> at[j] < at[k])
    && (forall i :: 0 <= i < |lines| && KeyOf(lines[i]).None? ==> i in at)
  }

  lemma KeepOneMore(lines: seq<string>, kept: seq<string>, at: seq<nat>, line: string)
    requires KeptAt(lines, kept, at)
    ensures KeyOf(line).None? ==> KeptAt(lines + [line], kept + [line], at + [|lines|])
    ensures KeyOf(line).Some? ==> KeptAt(lines + [line], kept, at)
  {
    var more := at + [|lines|];
    assert forall i :: i in at ==> i in more;
    assert |lines| in more;
  }

  lemma {:induction false} PlainLinesAreKept(lines: seq<string>) returns (at: seq<nat>)
    ensures KeptAt(lines, PlainLines(lines), at)
  {
    if lines == [] {
      at := [];
    } else {
      var n := |lines| - 1;
      at := PlainLinesAreKept(lines[..n]);
      assert lines == lines[..n] + [lines[n]];
      KeepOneMore(lines[..n], PlainLines(lines[..n]), at, lines[n]);
      at := if KeyOf(lines[n]).None? then at + [n] else at;
    }
  }

  /** Whatever stands in a frontmatter: each key is read from the last line that starts with it, without quotes; all other lines stay, in
      order; and a source without any key, or without frontmatter, is not touched. */
  lemma AnyFrontmatterIsRead(content: string, other: string -> seq<string>) returns (keys: Places, at: seq<nat>)
    ensures var split, stripped := SplitFrontmatter(content), Strip(content, other);
      if split.None? then stripped == Stripped(NO_META, content)
      else
        && AreLast(split.value.lines, keys) && ReadFrom(split.value.lines, keys, stripped.meta, other)
        && if stripped.meta == NO_META then stripped.body == content
           else exists kept ::
             KeptAt(split.value.lines, kept, at) && stripped.body == if kept == [] then split.value.body else Assemble(kept, split.value.body)
  {
    var split := SplitFrontmatter(content);
    keys, at := Places(None, None, None, None), [];
    if split.Some? {
      keys := LastPlaces(split.value.lines);
      at := PlainLinesAreKept(split.value.lines);
      MetaIsOfLast(split.value.lines, other, keys);
    }
  }
}
