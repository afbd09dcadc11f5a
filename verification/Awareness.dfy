/**
 The byte codec of awareness frames, and the rewriting that leaves a sender only its own entries under the identity the
 server knows. Numbers are base-128 with the low digits first (unsigned LEB128, section 7.6 of DWARF 5), at most eight
 digits long.
 */
module Awareness {
  import opened Wrappers

  type Byte = b: nat | b < 256

  /** A client's shared state: its fields, each with its JSON text. */
  type Fields = map<string, string>

  /** `state` is absent when it is null or not an object. */
  datatype Entry = Entry(clientId: nat, clock: nat, state: Option<Fields>)

  datatype Presence = Presence(clientId: nat, identity: string)

  /** Printing a state and parsing UTF-8 JSON; parsing fails, or finds something that is not an object, or an object. */
  datatype Json = Json(print_: Option<Fields> -> seq<Byte>, parse: seq<Byte> -> Option<Option<Fields>>)

  const MAX_ENTRIES := 64

  const MAX_AWARENESS_BYTES := 16_384

  const MAX_DIGITS := 8

  // ---------------------------------------------------------------------------------------------
  // Numbers
  // ---------------------------------------------------------------------------------------------

  function Pow128(k: nat): (p: nat)
    ensures p >= 1
  {
    if k == 0 then 1 else 128 * Pow128(k - 1)
  }

  /** One past the largest number eight digits hold. */
  const LIMIT: nat := 0x100_0000_0000_0000

  function VarUint(n: nat): seq<Byte> {
    if n > 0x7f then [n % 0x80 + 0x80] + VarUint(n / 0x80) else [n]
  }

  /** The number at `at` and the position behind it, when `k` digits were already read. */
  function VarUintFrom(update: seq<Byte>, at: nat, k: nat): Option<(nat, nat)>
    requires at <= |update|
    decreases |update| - at
  {
    if at >= |update| || k >= MAX_DIGITS then None
    else if update[at] < 0x80 then Some((update[at] as nat, at + 1))
    else
      var rest := VarUintFrom(update, at + 1, k + 1);
      if rest.None? then None else Some((update[at] - 0x80 + 0x80 * rest.value.0, rest.value.1))
  }

  function VarUintAt(update: seq<Byte>, at: nat): Option<(nat, nat)>
    requires at <= |update|
  {
    VarUintFrom(update, at, 0)
  }

  /** What is left to read, seen from the digits already read. */
  function Shifted(value: nat, scale: nat, rest: Option<(nat, nat)>): Option<(nat, nat)> {
    if rest.None? then None else Some((value + scale * rest.value.0, rest.value.1))
  }

  lemma ReadStep(update: seq<Byte>, offset: nat, k: nat, value: nat, scale: nat, digit: nat)
    requires offset < |update| && k < MAX_DIGITS && update[offset] == digit + 0x80
    ensures Shifted(value, scale, VarUintFrom(update, offset, k))
         == Shifted(value + digit * scale, scale * 0x80, VarUintFrom(update, offset + 1, k + 1))
  {
    var rest := VarUintFrom(update, offset + 1, k + 1);
    if rest.Some? {
      ShiftOneMore(value, scale, digit, rest.value.0);
    }
  }

  lemma ShiftOneMore(value: nat, scale: nat, digit: nat, rest: nat)
    ensures value + scale * (digit + 0x80 * rest) == (value + digit * scale) + (scale * 0x80) * rest
  {
  }

  lemma NothingLeft(update: seq<Byte>, offset: nat, k: nat, value: nat, scale: nat)
    requires offset <= |update| && (offset == |update| || k >= MAX_DIGITS)
    ensures Shifted(value, scale, VarUintFrom(update, offset, k)) == None
  {
  }

  lemma LastDigit(update: seq<Byte>, offset: nat, k: nat, value: nat, scale: nat)
    requires offset < |update| && k < MAX_DIGITS && update[offset] < 0x80
    ensures Shifted(value, scale, VarUintFrom(update, offset, k)) == Some((value + scale * update[offset], offset + 1))
  {
  }

  lemma NothingShifted(rest: Option<(nat, nat)>)
    ensures Shifted(0, 1, rest) == rest
  {
  }

  lemma {:induction false} VarUintEnds(update: seq<Byte>, at: nat, k: nat)
    requires at <= |update|
    ensures var r := VarUintFrom(update, at, k); r.Some? ==> at < r.value.1 <= |update|
    decreases |update| - at
  {
    if at == |update| || k >= MAX_DIGITS || update[at] < 0x80 {
    } else {
      VarUintEnds(update, at + 1, k + 1);
    }
  }

  method ReadVarUint(update: seq<Byte>, start: nat) returns (r: Option<(nat, nat)>)
    requires start <= |update|
    ensures r == VarUintAt(update, start)
    ensures r.Some? ==> start < r.value.1 <= |update|
  {
    var value: nat, scale: nat, shift, offset := 0, 1, 0, start;
    VarUintEnds(update, start, 0);
    NothingShifted(VarUintAt(update, start));
    ghost var k: nat := 0;
    ghost var whole := VarUintAt(update, start);
    ghost var left := whole;
    while true
      invariant start <= offset <= |update| && k == offset - start && shift == 7 * k && k <= MAX_DIGITS
      invariant left == VarUintFrom(update, offset, k)
      invariant whole == Shifted(value, scale, left)
      decreases |update| - offset
    {
      if offset >= |update| || shift > 49 {
        NothingLeft(update, offset, k, value, scale);
        return None;
      }
      var byte: nat := update[offset];
      offset := offset + 1;
      if byte < 0x80 {
        LastDigit(update, offset - 1, k, value, scale);
        return Some((value + scale * byte, offset));
      }
      var digit: nat := byte - 0x80;
      ReadStep(update, offset - 1, k, value, scale, digit);
      value, scale, shift := value + digit * scale, scale * 0x80, shift + 7;
      k := k + 1;
      left := VarUintFrom(update, offset, k);
    }
  }

  /** A number read ends behind its start and within the bytes, and is below the limit for its digits. */
  lemma {:induction false} VarUintMoves(update: seq<Byte>, at: nat, k: nat)
    requires at <= |update|
    ensures var r := VarUintFrom(update, at, k);
      r.Some? ==> at < r.value.1 <= |update| && k < MAX_DIGITS && r.value.0 < Pow128(MAX_DIGITS - k)
    decreases |update| - at
  {
    if at == |update| || k >= MAX_DIGITS || update[at] < 0x80 {
    } else {
      VarUintMoves(update, at + 1, k + 1);
    }
  }

  lemma LimitIsEightDigits()
    ensures Pow128(MAX_DIGITS) == LIMIT
  {
  }

  ghost predicate At(update: seq<Byte>, at: nat, piece: seq<Byte>) {
    at + |piece| <= |update| && forall i :: 0 <= i < |piece| ==> update[at + i] == piece[i]
  }

  /** Reading a printed number: it comes back when it fits the digits left, and is refused otherwise. */
  lemma {:induction false} VarUintReads(update: seq<Byte>, at: nat, n: nat, k: nat)
    requires k <= MAX_DIGITS && At(update, at, VarUint(n))
    ensures VarUintFrom(update, at, k) == if k < MAX_DIGITS && n < Pow128(MAX_DIGITS - k) then Some((n, at + |VarUint(n)|)) else None
    decreases n
  {
    assert update[at + 0] == VarUint(n)[0];
    if k < MAX_DIGITS && n > 0x7f {
      forall i | 0 <= i < |VarUint(n / 0x80)|
        ensures update[at + 1 + i] == VarUint(n / 0x80)[i]
      {
        assert update[at + (i + 1)] == VarUint(n)[i + 1];
      }
      VarUintReads(update, at + 1, n / 0x80, k + 1);
      if k + 1 < MAX_DIGITS {
      } else {
        assert Pow128(1) == 0x80 * Pow128(0);
      }
    } else if k < MAX_DIGITS {
      assert Pow128(MAX_DIGITS - k) == 0x80 * Pow128(MAX_DIGITS - k - 1);
    }
  }

  // ---------------------------------------------------------------------------------------------
  // Frames
  // ---------------------------------------------------------------------------------------------

  function EncodedEntry(json: Json, e: Entry): seq<Byte> {
    var text := json.print_(e.state);
    VarUint(e.clientId) + VarUint(e.clock) + VarUint(|text|) + text
  }

  function EncodedEntries(json: Json, entries: seq<Entry>): seq<Byte> {
    if entries == [] then [] else EncodedEntry(json, entries[0]) + EncodedEntries(json, entries[1..])
  }

  function Encoded(json: Json, entries: seq<Entry>): seq<Byte> {
    VarUint(|entries|) + EncodedEntries(json, entries)
  }

  function DecodedEntry(json: Json, update: seq<Byte>, at: nat): Option<(Entry, nat)>
    requires at <= |update|
  {
    VarUintMoves(update, at, 0);
    var id := VarUintAt(update, at);
    if id.None? then None
    else
      VarUintMoves(update, id.value.1, 0);
      var clock := VarUintAt(update, id.value.1);
      if clock.None? then None
      else
        VarUintMoves(update, clock.value.1, 0);
        var length := VarUintAt(update, clock.value.1);
        if length.None? then None
        else
          var (n, from) := length.value;
          if from + n > |update| then None
          else
            var state := json.parse(update[from..from + n]);
            if state.None? then None else Some((Entry(id.value.0, clock.value.0, state.value), from + n))
  }

  lemma DecodedEntryMoves(json: Json, update: seq<Byte>, at: nat)
    requires at <= |update|
    ensures var r := DecodedEntry(json, update, at);
      r.Some? ==> at < r.value.1 <= |update| && r.value.0.clientId < LIMIT && r.value.0.clock < LIMIT
  {
    LimitIsEightDigits();
    VarUintMoves(update, at, 0);
    var id := VarUintAt(update, at);
    if id.Some? {
      VarUintMoves(update, id.value.1, 0);
      var clock := VarUintAt(update, id.value.1);
      if clock.Some? {
        VarUintMoves(update, clock.value.1, 0);
      }
    }
  }

  function DecodedEntries(json: Json, update: seq<Byte>, at: nat, count: nat): Option<seq<Entry>>
    requires at <= |update|
    decreases count
  {
    if count == 0 then Some([])
    else
      DecodedEntryMoves(json, update, at);
      var first := DecodedEntry(json, update, at);
      if first.None? then None
      else
        var rest := DecodedEntries(json, update, first.value.1, count - 1);
        Followed([first.value.0], rest)
  }

  function Decoded(json: Json, update: seq<Byte>): Option<seq<Entry>> {
    VarUintMoves(update, 0, 0);
    var count := VarUintAt(update, 0);
    if count.None? || count.value.0 > MAX_ENTRIES then None else DecodedEntries(json, update, count.value.1, count.value.0)
  }

  method ReadEntry(json: Json, update: seq<Byte>, start: nat) returns (r: Option<(Entry, nat)>)
    requires start <= |update|
    ensures r == DecodedEntry(json, update, start)
    ensures r.Some? ==> start < r.value.1 <= |update|
  {
    DecodedEntryMoves(json, update, start);
    var id := ReadVarUint(update, start);
    if id.None? {
      return None;
    }
    var clock := ReadVarUint(update, id.value.1);
    if clock.None? {
      return None;
    }
    var length := ReadVarUint(update, clock.value.1);
    if length.None? {
      return None;
    }
    var (n, offset) := length.value;
    if offset + n > |update| {
      return None;
    }
    var state := json.parse(update[offset..offset + n]);
    if state.None? {
      return None;
    }
    r := Some((Entry(id.value.0, clock.value.0, state.value), offset + n));
  }

  lemma AppendDecoded(entries: seq<Entry>, e: Entry, rest: Option<seq<Entry>>)
    ensures Followed(entries, Followed([e], rest)) == Followed(entries + [e], rest)
  {
    if rest.Some? {
      assert entries + ([e] + rest.value) == (entries + [e]) + rest.value;
    }
  }

  /** `entries`, followed by what is still to decode. */
  function Followed(entries: seq<Entry>, rest: Option<seq<Entry>>): Option<seq<Entry>> {
    if rest.None? then None else Some(entries + rest.value)
  }

  /** One entry more. */
  lemma DecodeStep(json: Json, update: seq<Byte>, entries: seq<Entry>, at: nat, count: nat)
    requires at <= |update| && count > 0
    ensures var first, all := DecodedEntry(json, update, at), Followed(entries, DecodedEntries(json, update, at, count));
      if first.None? then all == None
      else
        && first.value.1 <= |update|
        && all == Followed(entries + [first.value.0], DecodedEntries(json, update, first.value.1, count - 1))
  {
    DecodedEntryMoves(json, update, at);
    var first := DecodedEntry(json, update, at);
    if first.Some? {
      AppendDecoded(entries, first.value.0, DecodedEntries(json, update, first.value.1, count - 1));
    }
  }

  /** Any bytes are decoded or refused; no read leaves them. */
  method DecodeAwareness(json: Json, update: seq<Byte>) returns (r: Option<seq<Entry>>)
    ensures r == Decoded(json, update)
  {
    var count := ReadVarUint(update, 0);
    if count.None? || count.value.0 > MAX_ENTRIES {
      return None;
    }
    var n: nat, offset: nat := count.value.0, count.value.1;
    var entries: seq<Entry> := [];
    FollowedByAll(DecodedEntries(json, update, offset, n));
    for i := 0 to n
      invariant offset <= |update|
      invariant Decoded(json, update) == Followed(entries, DecodedEntries(json, update, offset, n - i))
    {
      var entry := ReadEntry(json, update, offset);
      DecodeStep(json, update, entries, offset, n - i);
      if entry.None? {
        return None;
      }
      entries, offset := entries + [entry.value.0], entry.value.1;
    }
    assert entries + [] == entries;
    r := Some(entries);
  }

  lemma FollowedByAll(rest: Option<seq<Entry>>)
    ensures Followed([], rest) == rest
  {
    assert rest.Some? ==> [] + rest.value == rest.value;
  }

  method WriteVarUint(bytes: seq<Byte>, value: nat) returns (bytes': seq<Byte>)
    ensures bytes' == bytes + VarUint(value)
  {
    var rest := value;
    bytes' := bytes;
    while rest > 0x7f
      invariant bytes' + VarUint(rest) == bytes + VarUint(value)
    {
      assert (bytes' + [rest % 0x80 + 0x80]) + VarUint(rest / 0x80) == bytes' + ([rest % 0x80 + 0x80] + VarUint(rest / 0x80));
      bytes' := bytes' + [rest % 0x80 + 0x80];
      rest := rest / 0x80;
    }
    bytes' := bytes' + [rest];
  }

  method EncodeAwareness(json: Json, entries: seq<Entry>) returns (bytes: seq<Byte>)
    ensures bytes == Encoded(json, entries)
  {
    bytes := WriteVarUint([], |entries|);
    assert [] + VarUint(|entries|) == VarUint(|entries|);
    for i := 0 to |entries|
      invariant bytes + EncodedEntries(json, entries[i..]) == Encoded(json, entries)
    {
      var e, before := entries[i], bytes;
      bytes := WriteVarUint(bytes, e.clientId);
      bytes := WriteVarUint(bytes, e.clock);
      var text := json.print_(e.state);
      bytes := WriteVarUint(bytes, |text|);
      bytes := bytes + text;
      FivePieces(before, VarUint(e.clientId), VarUint(e.clock), VarUint(|text|), text, EncodedEntries(json, entries[i + 1..]));
      assert entries[i..][0] == e && entries[i..][1..] == entries[i + 1..];
    }
    assert bytes + [] == bytes;
  }

  lemma FivePieces(a: seq<Byte>, b: seq<Byte>, c: seq<Byte>, d: seq<Byte>, e: seq<Byte>, f: seq<Byte>)
    ensures a + ((b + c + d + e) + f) == (a + b + c + d + e) + f
  {
  }

  // ---------------------------------------------------------------------------------------------
  // Round trip
  // ---------------------------------------------------------------------------------------------

  /** The entry's state is printed to a text that a length can name and that parses to the state again. */
  ghost predicate ReadsBack(json: Json, e: Entry) {
    |json.print_(e.state)| < LIMIT && json.parse(json.print_(e.state)) == Some(e.state)
  }

  /** What becomes of an entry that is printed and read again, by any codec. */
  function Reread(json: Json, e: Entry): Option<Entry> {
    var text := json.print_(e.state);
    if e.clientId >= LIMIT || e.clock >= LIMIT || |text| >= LIMIT || json.parse(text).None? then None
    else Some(e.(state := json.parse(text).value))
  }

  /** One entry that does not read spoils the frame. */
  function RereadAll(json: Json, entries: seq<Entry>): Option<seq<Entry>> {
    if entries == [] then Some([])
    else
      var first := Reread(json, entries[0]);
      if first.None? then None else Followed([first.value], RereadAll(json, entries[1..]))
  }

  ghost predicate InRange(e: Entry) {
    e.clientId < LIMIT && e.clock < LIMIT
  }

  ghost predicate AllInRange(entries: seq<Entry>) {
    forall e :: e in entries ==> InRange(e)
  }

  lemma AtParts(update: seq<Byte>, at: nat, a: seq<Byte>, b: seq<Byte>)
    requires At(update, at, a + b)
    ensures At(update, at, a) && At(update, at + |a|, b)
  {
    forall i | 0 <= i < |a|
      ensures update[at + i] == a[i]
    {
      assert update[at + i] == (a + b)[i];
    }
    forall i | 0 <= i < |b|
      ensures update[at + |a| + i] == b[i]
    {
      assert update[at + (|a| + i)] == (a + b)[|a| + i];
    }
  }

  lemma AtFour(update: seq<Byte>, at: nat, a: seq<Byte>, b: seq<Byte>, c: seq<Byte>, d: seq<Byte>)
    requires At(update, at, a + b + c + d)
    ensures At(update, at, a) && At(update, at + |a|, b) && At(update, at + |a| + |b|, c) && At(update, at + |a| + |b| + |c|, d)
  {
    AtParts(update, at, a + b + c, d);
    AtParts(update, at, a + b, c);
    AtParts(update, at, a, b);
  }

  lemma AtSlice(update: seq<Byte>, at: nat, a: seq<Byte>)
    requires At(update, at, a)
    ensures update[at..at + |a|] == a
  {
  }

  /** An entry whose three numbers and text are read one after another. */
  lemma EntryOfParts(json: Json, update: seq<Byte>, at: nat, e: Entry, a: nat, b: nat, c: nat)
    requires at <= a <= b <= c && c + |json.print_(e.state)| <= |update| && update[c..c + |json.print_(e.state)|] == json.print_(e.state)
    requires VarUintAt(update, at) == if e.clientId < LIMIT then Some((e.clientId, a)) else None
    requires VarUintAt(update, a) == if e.clock < LIMIT then Some((e.clock, b)) else None
    requires VarUintAt(update, b) == if |json.print_(e.state)| < LIMIT then Some((|json.print_(e.state)|, c)) else None
    ensures var r := Reread(json, e);
      DecodedEntry(json, update, at) == if r.Some? then Some((r.value, c + |json.print_(e.state)|)) else None
  {
  }

  lemma NumberReads(update: seq<Byte>, at: nat, n: nat)
    requires At(update, at, VarUint(n))
    ensures VarUintAt(update, at) == if n < LIMIT then Some((n, at + |VarUint(n)|)) else None
  {
    LimitIsEightDigits();
    VarUintReads(update, at, n, 0);
  }

  lemma EntryReads(json: Json, update: seq<Byte>, at: nat, e: Entry)
    requires At(update, at, EncodedEntry(json, e))
    ensures var r := Reread(json, e);
      DecodedEntry(json, update, at) == if r.Some? then Some((r.value, at + |EncodedEntry(json, e)|)) else None
  {
    var text := json.print_(e.state);
    var id, clock, length := VarUint(e.clientId), VarUint(e.clock), VarUint(|text|);
    AtFour(update, at, id, clock, length, text);
    NumberReads(update, at, e.clientId);
    NumberReads(update, at + |id|, e.clock);
    NumberReads(update, at + |id| + |clock|, |text|);
    AtSlice(update, at + |id| + |clock| + |length|, text);
    EntryOfParts(json, update, at, e, at + |id|, at + |id| + |clock|, at + |id| + |clock| + |length|);
  }

  lemma OneMoreRead(json: Json, update: seq<Byte>, at: nat, next: nat, count: nat, first: Option<Entry>, rest: Option<seq<Entry>>)
    requires at <= |update| && next <= |update|
    requires DecodedEntry(json, update, at) == if first.Some? then Some((first.value, next)) else None
    requires DecodedEntries(json, update, next, count) == rest
    ensures DecodedEntries(json, update, at, count + 1) == if first.Some? then Followed([first.value], rest) else None
  {
  }

  lemma {:induction false} EntriesRead(json: Json, update: seq<Byte>, at: nat, entries: seq<Entry>)
    requires At(update, at, EncodedEntries(json, entries))
    ensures DecodedEntries(json, update, at, |entries|) == RereadAll(json, entries)
    decreases |entries|
  {
    if entries == [] {
    } else {
      var e, rest := entries[0], entries[1..];
      var next := at + |EncodedEntry(json, e)|;
      AtParts(update, at, EncodedEntry(json, e), EncodedEntries(json, rest));
      EntryReads(json, update, at, e);
      EntriesRead(json, update, next, rest);
      OneMoreRead(json, update, at, next, |rest|, Reread(json, e), RereadAll(json, rest));
    }
  }

  /** For every codec and every list: decoding an encoded list of at most 64 entries gives each entry as the codec reads it again,
      or refuses the frame when one does not read; a longer list is refused. */
  lemma DecodedEncoding(json: Json, entries: seq<Entry>)
    ensures Decoded(json, Encoded(json, entries)) == if |entries| <= MAX_ENTRIES then RereadAll(json, entries) else None
  {
    var update, count, body := Encoded(json, entries), VarUint(|entries|), EncodedEntries(json, entries);
    AtParts(update, 0, count, body);
    NumberReads(update, 0, |entries|);
    EntriesRead(json, update, |count|, entries);
  }

  lemma {:induction false} RereadAllAre(json: Json, entries: seq<Entry>)
    ensures var r := RereadAll(json, entries);
      r.Some? ==> |r.value| == |entries| && forall i :: 0 <= i < |entries| ==> Reread(json, entries[i]) == Some(r.value[i])
  {
    if entries == [] {
    } else {
      RereadAllAre(json, entries[1..]);
    }
  }

  lemma {:induction false} RereadIsSame(json: Json, entries: seq<Entry>)
    ensures RereadAll(json, entries) == Some(entries) <==> forall e :: e in entries ==> InRange(e) && ReadsBack(json, e)
  {
    if entries == [] {
    } else {
      var e, rest := entries[0], entries[1..];
      RereadIsSame(json, rest);
      assert entries == [e] + rest;
      assert Reread(json, e) == Some(e) <==> InRange(e) && ReadsBack(json, e);
      RereadAllAre(json, entries);
    }
  }

  /** For every codec and every list: it comes back exactly when it has at most 64 entries, all ids and clocks are below 2^56, and
      every state reads back from its text. */
  lemma RoundTrip(json: Json, entries: seq<Entry>)
    ensures Decoded(json, Encoded(json, entries)) == Some(entries)
      <==> |entries| <= MAX_ENTRIES && forall e :: e in entries ==> InRange(e) && ReadsBack(json, e)
  {
    DecodedEncoding(json, entries);
    RereadIsSame(json, entries);
  }

  /** One state and one text. */
  function OneText(): Json {
    Json((state: Option<Fields>) => if state.None? then [0] else [1],
         (text: seq<Byte>) => if text == [0] then Some(None) else if text == [1] then Some(Some(map["user" := "ada"])) else None)
  }

  /** A list with a state that comes back, and one that a limit on numbers or a lossy codec keeps from coming back. */
  lemma RoundTripWitness()
    ensures var json, entry := OneText(), Entry(7, 1, Some(map["user" := "ada"]));
      && Decoded(json, Encoded(json, [entry])) == Some([entry])
      && Decoded(json, Encoded(json, [entry.(clock := LIMIT)])) != Some([entry.(clock := LIMIT)])
      && Decoded(json, Encoded(json, [entry.(state := Some(map[]))])) != Some([entry.(state := Some(map[]))])
  {
    var json, entry := OneText(), Entry(7, 1, Some(map["user" := "ada"]));
    var late, lossy := entry.(clock := LIMIT), entry.(state := Some(map[]));
    RoundTrip(json, [entry]);
    RoundTrip(json, [late]);
    RoundTrip(json, [lossy]);
    assert late in [late] && lossy in [lossy];
    assert "user" in entry.state.value && "user" !in lossy.state.value;
  }

  /** Whatever the bytes: at most 64 entries come out, with numbers below 2^56. */
  lemma DecodedIsInRange(json: Json, update: seq<Byte>)
    ensures Decoded(json, update).Some? ==> |Decoded(json, update).value| <= MAX_ENTRIES && AllInRange(Decoded(json, update).value)
  {
    VarUintMoves(update, 0, 0);
    var count := VarUintAt(update, 0);
    if count.Some? {
      EntriesInRange(json, update, count.value.1, count.value.0);
    }
  }

  lemma {:induction false} EntriesInRange(json: Json, update: seq<Byte>, at: nat, count: nat)
    requires at <= |update|
    ensures var r := DecodedEntries(json, update, at, count); r.Some? ==> |r.value| == count && AllInRange(r.value)
    decreases count
  {
    if count == 0 {
    } else {
      DecodedEntryMoves(json, update, at);
      var first := DecodedEntry(json, update, at);
      if first.Some? {
        EntriesInRange(json, update, first.value.1, count - 1);
      }
    }
  }

  // ---------------------------------------------------------------------------------------------
  // Rewriting
  // ---------------------------------------------------------------------------------------------

  function Own(entries: seq<Entry>, clientId: nat): seq<Entry> {
    if entries == [] then []
    else Own(entries[..|entries| - 1], clientId) + (if entries[|entries| - 1].clientId == clientId then [entries[|entries| - 1]] else [])
  }

  /** The entry under the identity the server knows. */
  function Identified(e: Entry, presence: Presence): Entry {
    e.(state := if e.state.Some? then Some(e.state.value["user" := presence.identity]) else None)
  }

  function AllIdentified(entries: seq<Entry>, presence: Presence): seq<Entry> {
    seq(|entries|, i requires 0 <= i < |entries| => Identified(entries[i], presence))
  }

  /** The sender's own entries, or nothing to pass on. */
  function OwnEntries(json: Json, update: seq<Byte>, presence: Presence): Option<seq<Entry>> {
    var entries := Decoded(json, update);
    if |update| > MAX_AWARENESS_BYTES || entries.None? || Own(entries.value, presence.clientId) == [] then None
    else Some(AllIdentified(Own(entries.value, presence.clientId), presence))
  }

  method RewriteAwareness(json: Json, update: seq<Byte>, presence: Presence) returns (r: Option<seq<Byte>>)
    ensures var own := OwnEntries(json, update, presence);
      r == if own.Some? then Some(Encoded(json, own.value)) else None
  {
    if |update| > MAX_AWARENESS_BYTES {
      return None;
    }
    var entries := DecodeAwareness(json, update);
    if entries.None? {
      return None;
    }
    var own := Own(entries.value, presence.clientId);
    if |own| == 0 {
      return None;
    }
    var bytes := EncodeAwareness(json, AllIdentified(own, presence));
    r := Some(bytes);
  }

  lemma {:induction false} OwnAreEntries(entries: seq<Entry>, clientId: nat)
    ensures |Own(entries, clientId)| <= |entries|
    ensures forall e :: e in Own(entries, clientId) <==> e in entries && e.clientId == clientId
  {
    if entries == [] {
    } else {
      OwnAreEntries(entries[..|entries| - 1], clientId);
      assert entries == entries[..|entries| - 1] + [entries[|entries| - 1]];
    }
  }

  lemma OwnIsIdentified(json: Json, update: seq<Byte>, presence: Presence)
    requires OwnEntries(json, update, presence).Some?
    ensures var own := OwnEntries(json, update, presence).value;
      && own != [] && |own| <= MAX_ENTRIES && AllInRange(own)
      && forall e :: e in own ==> e.clientId == presence.clientId && (e.state.Some? ==> e.state.value["user" := presence.identity] == e.state.value)
  {
    var own, entries := OwnEntries(json, update, presence).value, Decoded(json, update).value;
    DecodedIsInRange(json, update);
    OwnAreEntries(entries, presence.clientId);
    var mine := Own(entries, presence.clientId);
    forall i | 0 <= i < |mine|
      ensures InRange(own[i]) && own[i] == Identified(mine[i], presence) && mine[i].clientId == presence.clientId
    {
      assert mine[i] in mine;
    }
  }

  /** `at` names the positions of the entries of a client, all of them and in order. */
  ghost predicate OwnAt(entries: seq<Entry>, clientId: nat, at: seq<nat>) {
    && (forall k :: 0 <= k < |at| ==> at[k] < |entries| && entries[at[k]].clientId == clientId)
    && (forall j, k :: 0 <= j < k < |at| ==> at[j] < at[k])
    && (forall i :: 0 <= i < |entries| && entries[i].clientId == clientId ==> i in at)
  }

  lemma {:induction false} OwnPositions(entries: seq<Entry>, clientId: nat) returns (at: seq<nat>)
    ensures OwnAt(entries, clientId, at) && |at| == |Own(entries, clientId)|
    ensures forall k :: 0 <= k < |at| ==> Own(entries, clientId)[k] == entries[at[k]]
  {
    if entries == [] {
      at := [];
    } else {
      var n := |entries| - 1;
      at := OwnPositions(entries[..n], clientId);
      assert forall i :: 0 <= i < n ==> entries[..n][i] == entries[i];
      if entries[n].clientId == clientId {
        var before := at;
        at := before + [n];
        assert forall i :: i in before ==> i in at;
      }
    }
  }

  /** What is passed on of a frame: the sender's own entries, all and in order, with nothing of them changed but the user in each state.
      Nothing is passed on of a frame that is too long, cannot be read, or holds no entry of the sender. */
  lemma OnlyTheUserIsRewritten(json: Json, update: seq<Byte>, presence: Presence) returns (at: seq<nat>)
    ensures OwnEntries(json, update, presence).None? <==>
      || |update| > 16_384
      || Decoded(json, update).None?
      || forall e :: e in Decoded(json, update).value ==> e.clientId != presence.clientId
    ensures OwnEntries(json, update, presence).Some? ==>
      var own, entries := OwnEntries(json, update, presence).value, Decoded(json, update).value;
      && OwnAt(entries, presence.clientId, at) && |own| == |at|
      && forall k :: 0 <= k < |at| ==> RewrittenFrom(own[k], entries[at[k]], presence)
  {
    at := [];
    if Decoded(json, update).Some? {
      var entries := Decoded(json, update).value;
      at := OwnPositions(entries, presence.clientId);
      OwnAreEntries(entries, presence.clientId);
      var own := Own(entries, presence.clientId);
      assert own != [] ==> own[0] in own;
    }
  }

  ghost predicate RewrittenFrom(e: Entry, original: Entry, presence: Presence) {
    && e.clientId == original.clientId && e.clock == original.clock && (e.state.Some? <==> original.state.Some?)
    && (e.state.Some? ==>
          && e.state.value.Keys == original.state.value.Keys + {"user"} && e.state.value["user"] == presence.identity
          && forall key :: key in original.state.value && key != "user" ==> e.state.value[key] == original.state.value[key])
  }

  /** Under any codec whatever, a rewritten frame speaks for its sender only: what everyone else decodes are entries of the sender's
      id, one for each of its own and with their clocks, or nothing. */
  lemma RewrittenFrameSpeaksForItsSender(json: Json, update: seq<Byte>, presence: Presence)
    requires OwnEntries(json, update, presence).Some?
    ensures var own := OwnEntries(json, update, presence).value;
      var heard := Decoded(json, Encoded(json, own));
      heard.Some? ==>
        |heard.value| == |own| && forall i :: 0 <= i < |own| ==> heard.value[i].clientId == presence.clientId && heard.value[i].clock == own[i].clock
  {
    var own := OwnEntries(json, update, presence).value;
    OwnIsIdentified(json, update, presence);
    DecodedEncoding(json, own);
    RereadAllAre(json, own);
    assert forall i :: 0 <= i < |own| ==> own[i] in own;
  }

  /** What everyone else decodes from a rewritten frame is exactly the sender's own entries, in order, each under the identity the
      server knows, exactly when their states read back; a frame without any, or one that cannot be read, is not passed on. */
  lemma RewrittenFrameIsTheSendersOwn(json: Json, update: seq<Byte>, presence: Presence)
    requires OwnEntries(json, update, presence).Some?
    ensures var own := OwnEntries(json, update, presence).value;
      && (Decoded(json, Encoded(json, own)) == Some(own) <==> forall e :: e in own ==> ReadsBack(json, e))
      && own != []
      && (forall e :: e in own ==> e.clientId == presence.clientId && (e.state.Some? ==> e.state.value["user" := presence.identity] == e.state.value))
  {
    OwnIsIdentified(json, update, presence);
    RoundTrip(json, OwnEntries(json, update, presence).value);
  }

  /** A frame holding the sender's entry and another client's comes out with the sender's alone, under the known identity. */
  lemma RewriteWitness()
    ensures var json, mine, other := OneText(), Entry(7, 1, Some(map["user" := "ada"])), Entry(8, 1, None);
      OwnEntries(json, Encoded(json, [mine, other]), Presence(7, "ada")) == Some([mine])
  {
    var json, mine, other := OneText(), Entry(7, 1, Some(map["user" := "ada"])), Entry(8, 1, None);
    var update, presence := Encoded(json, [mine, other]), Presence(7, "ada");
    RoundTrip(json, [mine, other]);
    SmallEntry(json, mine);
    SmallEntry(json, other);
    assert [mine, other][1..] == [other] && [other][1..] == [];
    assert EncodedEntries(json, [other]) == EncodedEntry(json, other) + [];
    assert VarUint(2) == [2];
    OwnOfTwo(mine, other);
    assert mine.state.value["user" := "ada"] == mine.state.value;
    assert AllIdentified([mine], presence) == [mine];
  }

  lemma SmallEntry(json: Json, e: Entry)
    requires e.clientId < 0x80 && e.clock < 0x80 && |json.print_(e.state)| == 1
    ensures |EncodedEntry(json, e)| == 4
  {
    assert VarUint(e.clientId) == [e.clientId] && VarUint(e.clock) == [e.clock] && VarUint(1) == [1];
  }

  lemma OwnOfTwo(mine: Entry, other: Entry)
    requires mine.clientId != other.clientId
    ensures Own([mine, other], mine.clientId) == [mine]
  {
    assert [mine][..0] == [];
    assert Own([mine], mine.clientId) == [mine];
    assert [mine, other][..1] == [mine];
  }
}
