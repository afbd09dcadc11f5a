/** JSON string literals and arrays of strings, as the runtime prints and parses them. */
module Json {
  import opened Wrappers

  function HexDigit(n: nat): char
    requires n < 16
  {
    "0123456789abcdef"[n]
  }

  function HexValue(c: char): Option<nat> {
    if '0' <= c <= '9' then Some(c as nat - '0' as nat)
    else if 'a' <= c <= 'f' then Some(c as nat - 'a' as nat + 10)
    else if 'A' <= c <= 'F' then Some(c as nat - 'A' as nat + 10)
    else None
  }

  function EscapeChar(c: char): string {
    match c
    case '"' => "\\\""
    case '\\' => "\\\\"
    case '\U{8}' => "\\b"
    case '\U{C}' => "\\f"
    case '\n' => "\\n"
    case '\r' => "\\r"
    case '\t' => "\\t"
    case _ => if c < ' ' then "\\u00" + [HexDigit(c as nat / 16), HexDigit(c as nat % 16)] else [c]
  }

  function Escape(s: string): string {
    if s == "" then "" else EscapeChar(s[0]) + Escape(s[1..])
  }

  function Quote(s: string): string {
    "\"" + Escape(s) + "\""
  }

  /** No control characters, so nothing that could end a line. */
  predicate Printable(s: string) {
    forall d :: d in s ==> d >= ' '
  }

  lemma {:induction false} EscapePrintable(s: string)
    ensures Printable(Escape(s))
  {
    if s == "" {
    } else {
      EscapePrintable(s[1..]);
      assert Printable(EscapeChar(s[0]));
    }
  }

  /** One escape sequence after its backslash: the character and how many characters it took. */
  function ReadEscape(s: string): (r: Option<(char, nat)>)
    ensures r.Some? ==> 1 <= r.value.1 <= |s|
  {
    if s == "" then None
    else
      match s[0]
      case '"' => Some(('"', 1))
      case '\\' => Some(('\\', 1))
      case '/' => Some(('/', 1))
      case 'b' => Some(('\U{8}', 1))
      case 'f' => Some(('\U{C}', 1))
      case 'n' => Some(('\n', 1))
      case 'r' => Some(('\r', 1))
      case 't' => Some(('\t', 1))
      case 'u' =>
        if |s| < 5 then None
        else
          var a, b, c, d := HexValue(s[1]), HexValue(s[2]), HexValue(s[3]), HexValue(s[4]);
          if a.None? || b.None? || c.None? || d.None? then None
          else
            var code := ((a.value * 16 + b.value) * 16 + c.value) * 16 + d.value;
            if code >= 0xD800 then None else Some((code as char, 5))
      case _ => None
  }

  /** The body of a string literal up to its closing quote, and the text after that quote. */
  function ReadString(s: string): (r: Option<(string, string)>)
    ensures r.Some? ==> |r.value.1| < |s|
    decreases |s|
  {
    if s == "" || s[0] < ' ' then None
    else if s[0] == '"' then Some(("", s[1..]))
    else if s[0] != '\\' then
      match ReadString(s[1..])
      case None => None
      case Some((text, rest)) => Some(([s[0]] + text, rest))
    else
      match ReadEscape(s[1..])
      case None => None
      case Some((c, used)) =>
        match ReadString(s[1 + used..])
        case None => None
        case Some((text, rest)) => Some(([c] + text, rest))
  }

  /** What follows the backslash of a printed escape reads back as the character. */
  lemma EscapeReads(c: char, tail: string)
    requires |EscapeChar(c)| > 1
    ensures EscapeChar(c)[0] == '\\'
    ensures ReadEscape(EscapeChar(c)[1..] + tail) == Some((c, |EscapeChar(c)| - 1))
  {
    var t := EscapeChar(c)[1..] + tail;
    if |EscapeChar(c)| == 2 {
      assert t[0] == EscapeChar(c)[1];
    } else {
      var high, low := c as nat / 16, c as nat % 16;
      assert t[0] == 'u' && t[1] == '0' && t[2] == '0' && t[3] == HexDigit(high) && t[4] == HexDigit(low);
    }
  }

  lemma EscapedReads(s: string, c: char, used: nat)
    requires |s| > used && s[0] == '\\' && ReadEscape(s[1..]) == Some((c, used)) && ReadString(s[1 + used..]).Some?
    ensures ReadString(s) == Some(([c] + ReadString(s[1 + used..]).value.0, ReadString(s[1 + used..]).value.1))
  {
  }

  lemma EscapeCharReads(c: char, tail: string)
    requires ReadString(tail).Some?
    ensures ReadString(EscapeChar(c) + tail) == Some(([c] + ReadString(tail).value.0, ReadString(tail).value.1))
  {
    var e := EscapeChar(c);
    var s := e + tail;
    assert s[|e|..] == tail;
    if |e| > 1 {
      EscapeReads(c, tail);
      assert s[1..] == e[1..] + tail;
      EscapedReads(s, c, |e| - 1);
    } else {
      assert e == [c] && s[0] == c;
    }
  }

  lemma Regroup(a: string, b: string, c: string)
    ensures (a + b) + c == a + (b + c)
  {
  }

  /** Reading a printed literal gives the string back; `rest` starts with the closing quote. */
  lemma {:induction false} QuoteReads(s: string, rest: string)
    requires rest != "" && rest[0] == '"'
    ensures ReadString(Escape(s) + rest) == Some((s, rest[1..]))
  {
    if s == "" {
      assert Escape(s) + rest == rest;
    } else {
      QuoteReads(s[1..], rest);
      EscapeCharReads(s[0], Escape(s[1..]) + rest);
      Regroup(EscapeChar(s[0]), Escape(s[1..]), rest);
      assert [s[0]] + s[1..] == s;
    }
  }

  // Arrays of strings ---------------------------------------------------------------------------

  /** `item, item, …` after the opening bracket has been written. */
  function QuoteItems(items: seq<string>): string {
    if items == [] then ""
    else if |items| == 1 then Quote(items[0])
    else Quote(items[0]) + ", " + QuoteItems(items[1..])
  }

  function QuoteArray(items: seq<string>): string {
    "[" + QuoteItems(items) + "]"
  }

  function SkipSpace(s: string): (r: string)
    ensures |r| <= |s|
  {
    if s != "" && s[0] in {' ', '\t', '\n', '\r'} then SkipSpace(s[1..]) else s
  }

  /** Items up to the closing bracket; nothing may follow it but white space. */
  function ReadItems(s: string): Option<seq<string>>
    decreases |s|
  {
    var t := SkipSpace(s);
    if t == "" || t[0] != '"' then None
    else
      match ReadString(t[1..])
      case None => None
      case Some((item, rest)) =>
        var u := SkipSpace(rest);
        if u == "" then None
        else if u[0] == ']' then (if SkipSpace(u[1..]) == "" then Some([item]) else None)
        else if u[0] == ',' then
          match ReadItems(u[1..])
          case None => None
          case Some(items) => Some([item] + items)
        else None
  }

  lemma {:induction false} ItemsPrintable(items: seq<string>)
    ensures Printable(QuoteItems(items))
  {
    if items == [] {
    } else {
      EscapePrintable(items[0]);
      ItemsPrintable(items[1..]);
      assert Printable(Quote(items[0]));
    }
  }

  /** A printed array is one line that starts and ends with a bracket. */
  lemma ArrayPrintable(items: seq<string>)
    ensures Printable(QuoteArray(items))
    ensures var r := QuoteArray(items); |r| >= 2 && r[0] == '[' && r[|r| - 1] == ']'
  {
    ItemsPrintable(items);
  }

  /** A JSON array holding only strings; `None` for any other text. */
  function ReadStringArray(s: string): Option<seq<string>> {
    var t := SkipSpace(s);
    if t == "" || t[0] != '[' then None
    else
      var u := SkipSpace(t[1..]);
      if u != "" && u[0] == ']' then (if SkipSpace(u[1..]) == "" then Some([]) else None)
      else ReadItems(u)
  }

  /** The text after an item's literal decides how the list goes on. */
  lemma ItemReads(item: string, after: string)
    ensures var s := Quote(item) + after;
      s[0] == '"' && SkipSpace(s) == s && ReadString(s[1..]) == Some((item, after))
  {
    var s, rest := Quote(item) + after, ['"'] + after;
    assert s[1..] == Escape(item) + rest;
    QuoteReads(item, rest);
    assert rest[1..] == after;
  }

  lemma LastItemReads(item: string)
    ensures ReadItems(Quote(item) + "]") == Some([item])
  {
    ItemReads(item, "]");
    assert "]"[1..] == "";
  }

  lemma NextItemReads(item: string, more: string)
    requires ReadItems(more).Some?
    ensures ReadItems(Quote(item) + (", " + more)) == Some([item] + ReadItems(more).value)
  {
    ItemReads(item, ", " + more);
  }

  lemma PrintedItems(items: seq<string>)
    requires |items| > 1
    ensures QuoteItems(items) + "]" == Quote(items[0]) + (", " + (QuoteItems(items[1..]) + "]"))
  {
    Regroup(Quote(items[0]) + ", ", QuoteItems(items[1..]), "]");
    Regroup(Quote(items[0]), ", ", QuoteItems(items[1..]) + "]");
  }

  lemma {:induction false} ItemsRead(items: seq<string>)
    requires items != []
    ensures ReadItems(QuoteItems(items) + "]") == Some(items)
  {
    if |items| == 1 {
      assert items == [items[0]];
      LastItemReads(items[0]);
    } else {
      assert items == [items[0]] + items[1..];
      ItemsRead(items[1..]);
      NextItemReads(items[0], QuoteItems(items[1..]) + "]");
      PrintedItems(items);
    }
  }

  /** Parsing a printed array of strings gives the array back. */
  lemma ArrayReads(items: seq<string>)
    ensures ReadStringArray(QuoteArray(items)) == Some(items)
  {
    if items == [] {
    } else {
      ItemsRead(items);
      Regroup("[", QuoteItems(items), "]");
    }
  }
}
