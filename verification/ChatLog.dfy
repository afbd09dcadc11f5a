/** Numbered channel messages, and a reader that asks again and again for what came after the last number it saw. */
module ChatLog {
  import opened Wrappers
  import opened Numbers

  datatype Key = Key(channel: string, seqNo: nat)

  /** A message row; its channel and number are the key. */
  datatype Row = Row(id: string, thread: Option<string>)

  datatype Filter = All | TopLevel | InThread(root: string)

  /** The last number of every channel, and the messages still there. */
  datatype Store = Store(channels: map<string, nat>, messages: map<Key, Row>)

  predicate Matches(f: Filter, row: Row) {
    match f
    case All => true
    case TopLevel => row.thread == None
    case InThread(root) => row.thread == Some(root)
  }

  // ---------------------------------------------------------------------------------------------
  // Posting and listing
  // ---------------------------------------------------------------------------------------------

  predicate IdTaken(s: Store, id: string) {
    exists k :: k in s.messages && s.messages[k].id == id
  }

  /** A post fails, and changes nothing, without its channel's row or when one of the table's keys is taken. */
  predicate Postable(s: Store, channel: string, row: Row) {
    channel in s.channels && !IdTaken(s, row.id) && Key(channel, s.channels[channel] + 1) !in s.messages
  }

  function Posted(s: Store, channel: string, row: Row): Store
    requires Postable(s, channel, row)
  {
    var n := s.channels[channel] + 1;
    Store(s.channels[channel := n], s.messages[Key(channel, n) := row])
  }

  predicate Listed(s: Store, channel: string, f: Filter, after: nat, n: nat) {
    n > after && Key(channel, n) in s.messages && Matches(f, s.messages[Key(channel, n)])
  }

  /** The lowest `limit` matching numbers above `after`, ascending. */
  ghost predicate IsPage(s: Store, channel: string, f: Filter, after: nat, limit: nat, page: seq<nat>) {
    && Ascending(page) && |page| <= limit
    && (forall n :: n in page ==> Listed(s, channel, f, after, n))
    && (forall n :: Listed(s, channel, f, after, n) && n !in page ==> |page| == limit && forall m :: m in page ==> m < n)
  }

  class CloudChatStore {
    var channels: map<string, nat>
    var messages: map<Key, Row>

    constructor ()
      ensures State() == Store(map[], map[])
    {
      channels, messages := map[], map[];
    }

    ghost function State(): Store
      reads this
    {
      Store(channels, messages)
    }

    method PostMessage(channel: string, row: Row) returns (seqNo: Option<nat>)
      modifies this
      ensures if Postable(old(State()), channel, row)
        then State() == Posted(old(State()), channel, row) && seqNo == Some(channels[channel])
        else State() == old(State()) && seqNo == None
    {
      if channel !in channels {
        return None;
      }
      var n := channels[channel] + 1;
      if Key(channel, n) in messages || exists k :: k in messages && messages[k].id == row.id {
        assert Key(channel, n) !in messages ==> IdTaken(old(State()), row.id);
        return None;
      }
      channels := channels[channel := n];
      messages := messages[Key(channel, n) := row];
      seqNo := Some(n);
    }

    method ListMessages(channel: string, f: Filter, after: nat, limit: nat) returns (page: seq<nat>)
      ensures IsPage(State(), channel, f, after, limit, page)
    {
      var listed := set k | k in messages && k.channel == channel && k.seqNo > after && Matches(f, messages[k]) :: k.seqNo;
      forall n: nat
        ensures n in listed <==> Listed(State(), channel, f, after, n)
      {
        if Listed(State(), channel, f, after, n) {
          assert Key(channel, n) in messages;
          assert Key(channel, n).seqNo in listed;
        }
      }
      page := SelectLowest(listed, limit);
    }

    /** Retention, or any other removal. */
    method DeleteRows(keys: set<Key>)
      modifies this
      ensures State() == Store(old(channels), old(messages) - keys)
    {
      messages := messages - keys;
    }
  }

  // ---------------------------------------------------------------------------------------------
  // Runs with one reader
  // ---------------------------------------------------------------------------------------------

  /** The reader of one channel, with what it got so far; and, to tell what it should have got, every message ever posted
      there (number `i + 1` at position `i`) and the numbers removed before it could read them. */
  datatype World = World(store: Store, log: seq<Row>, cursor: nat, got: seq<nat>, missed: set<nat>)

  datatype Reader = Reader(channel: string, filter: Filter, start: nat)

  datatype Event =
    | CreateChannel(name: string)
    | Post(to: string, row: Row)
    | Remove(keys: set<Key>)
    | Poll(limit: nat, page: seq<nat>)

  /** Polls ask for at least one message and get a page of the table as it is. */
  ghost predicate Possible(r: Reader, w: World, e: Event) {
    e.Poll? ==> e.limit >= 1 && IsPage(w.store, r.channel, r.filter, w.cursor, e.limit, e.page)
  }

  function Unread(r: Reader, w: World, keys: set<Key>): set<nat> {
    set k | k in keys && k.channel == r.channel && k in w.store.messages && k.seqNo > w.cursor :: k.seqNo
  }

  function Step(r: Reader, w: World, e: Event): World {
    match e
    case CreateChannel(name) =>
      if name in w.store.channels then w else w.(store := w.store.(channels := w.store.channels[name := 0]))
    case Post(channel, row) =>
      if !Postable(w.store, channel, row) then w
      else w.(store := Posted(w.store, channel, row), log := if channel == r.channel then w.log + [row] else w.log)
    case Remove(keys) =>
      w.(store := w.store.(messages := w.store.messages - keys), missed := w.missed + Unread(r, w, keys))
    case Poll(_, page) =>
      w.(got := w.got + page, cursor := if page == [] then w.cursor else page[|page| - 1])
  }

  ghost predicate ValidRun(r: Reader, events: seq<Event>) {
    events == [] ||
    (ValidRun(r, events[..|events| - 1]) && Possible(r, Run(r, events[..|events| - 1]), events[|events| - 1]))
  }

  function Run(r: Reader, events: seq<Event>): World {
    if events == [] then World(Store(map[], map[]), [], r.start, [], {})
    else Step(r, Run(r, events[..|events| - 1]), events[|events| - 1])
  }

  // ---------------------------------------------------------------------------------------------
  // What the reader gets
  // ---------------------------------------------------------------------------------------------

  predicate Due(r: Reader, w: World, n: nat) {
    r.start < n <= w.cursor && n <= |w.log| && Matches(r.filter, w.log[n - 1]) && n !in w.missed
  }

  /** The table holds what was posted under the number it got, and still holds everything above the cursor that is not
      counted as missed. */
  ghost predicate TableFits(r: Reader, w: World) {
    && (r.channel in w.store.channels ==> w.store.channels[r.channel] == |w.log|)
    && (r.channel !in w.store.channels ==> w.log == [])
    && (forall c, n {:trigger Key(c, n)} :: Key(c, n) in w.store.messages ==> c in w.store.channels && 1 <= n <= w.store.channels[c])
    && (forall n {:trigger Key(r.channel, n)} :: Key(r.channel, n) in w.store.messages ==> w.store.messages[Key(r.channel, n)] == w.log[n - 1])
    && (forall n {:trigger Key(r.channel, n)} :: w.cursor < n <= |w.log| && n !in w.missed ==> Key(r.channel, n) in w.store.messages)
    && (forall n :: n in w.missed ==> n <= |w.log| && Key(r.channel, n) !in w.store.messages)
  }

  ghost predicate ReaderFits(r: Reader, w: World) {
    && r.start <= w.cursor && (r.start < w.cursor ==> w.cursor <= |w.log|)
    && Ascending(w.got) && (forall n :: n in w.got <==> Due(r, w, n))
  }

  lemma PollFits(r: Reader, w: World, limit: nat, page: seq<nat>)
    requires TableFits(r, w) && ReaderFits(r, w) && Possible(r, w, Poll(limit, page))
    ensures TableFits(r, Step(r, w, Poll(limit, page))) && ReaderFits(r, Step(r, w, Poll(limit, page)))
  {
    var after := Step(r, w, Poll(limit, page));
    if page != [] {
      assert page[|page| - 1] in page;
      forall m, n | m in w.got && n in page
        ensures m < n
      {
        assert Due(r, w, m) && Listed(w.store, r.channel, r.filter, w.cursor, n);
      }
      AscendingConcat(w.got, page);
      forall n
        ensures n in after.got <==> Due(r, after, n)
      {
        assert n in after.got <==> n in w.got || n in page;
        PollReads(r, w, limit, page, n);
      }
    }
  }

  lemma PollReads(r: Reader, w: World, limit: nat, page: seq<nat>, n: nat)
    requires TableFits(r, w) && ReaderFits(r, w) && Possible(r, w, Poll(limit, page)) && page != []
    ensures var after := Step(r, w, Poll(limit, page)); Due(r, after, n) <==> Due(r, w, n) || n in page
  {
    var last := page[|page| - 1];
    assert last in page;
    assert Listed(w.store, r.channel, r.filter, w.cursor, last);
    if n in page {
      var i :| 0 <= i < |page| && page[i] == n;
      assert Listed(w.store, r.channel, r.filter, w.cursor, n);
    }
    if w.cursor < n <= last && n <= |w.log| && n !in w.missed && Matches(r.filter, w.log[n - 1]) {
      assert Key(r.channel, n) in w.store.messages;
      assert Listed(w.store, r.channel, r.filter, w.cursor, n);
    }
  }

  lemma CreateFits(r: Reader, w: World, name: string)
    requires TableFits(r, w) && ReaderFits(r, w)
    ensures TableFits(r, Step(r, w, CreateChannel(name))) && ReaderFits(r, Step(r, w, CreateChannel(name)))
  {
  }

  lemma PostFits(r: Reader, w: World, channel: string, row: Row)
    requires TableFits(r, w) && ReaderFits(r, w)
    ensures TableFits(r, Step(r, w, Post(channel, row))) && ReaderFits(r, Step(r, w, Post(channel, row)))
  {
  }

  lemma RemoveFits(r: Reader, w: World, keys: set<Key>)
    requires TableFits(r, w) && ReaderFits(r, w)
    ensures TableFits(r, Step(r, w, Remove(keys))) && ReaderFits(r, Step(r, w, Remove(keys)))
  {
  }

  lemma StepFits(r: Reader, w: World, e: Event)
    requires TableFits(r, w) && ReaderFits(r, w) && Possible(r, w, e)
    ensures TableFits(r, Step(r, w, e)) && ReaderFits(r, Step(r, w, e))
  {
    match e
    case CreateChannel(name) => CreateFits(r, w, name);
    case Post(channel, row) => PostFits(r, w, channel, row);
    case Remove(keys) => RemoveFits(r, w, keys);
    case Poll(limit, page) => PollFits(r, w, limit, page);
  }

  lemma {:induction false} RunFits(r: Reader, events: seq<Event>)
    requires ValidRun(r, events)
    ensures TableFits(r, Run(r, events)) && ReaderFits(r, Run(r, events))
  {
    if events == [] {
    } else {
      var n := |events| - 1;
      RunFits(r, events[..n]);
      StepFits(r, Run(r, events[..n]), events[n]);
    }
  }

  /** Over any interleaving of posts, removals and polls, the reader has got exactly the matching messages posted above its
      start and up to its cursor, each once and in posting order, except those removed before it read them. */
  lemma PollerMissesNothing(r: Reader, events: seq<Event>)
    requires ValidRun(r, events)
    ensures var w := Run(r, events);
      && (forall n :: n in w.got <==> r.start < n <= w.cursor && n <= |w.log| && Matches(r.filter, w.log[n - 1]) && n !in w.missed)
      && (forall i, j :: 0 <= i < j < |w.got| ==> w.got[i] < w.got[j])
  {
    RunFits(r, events);
  }

  /** A channel's numbers count all posts ever made to it, so no number comes back after a removal, and a post to an
      existing channel under a new id always goes through. */
  lemma NumbersAreNeverReused(r: Reader, events: seq<Event>, row: Row)
    requires ValidRun(r, events) && r.channel in Run(r, events).store.channels && !IdTaken(Run(r, events).store, row.id)
    ensures var w := Run(r, events);
      && Postable(w.store, r.channel, row) && Posted(w.store, r.channel, row).channels[r.channel] == |w.log| + 1
      && (forall n: nat :: Key(r.channel, n) in w.store.messages || n in w.got || n in w.missed ==> n <= |w.log|)
  {
    RunFits(r, events);
    var w := Run(r, events);
    forall n | n in w.got
      ensures n <= |w.log|
    {
      assert Due(r, w, n);
    }
  }

  ghost predicate CaughtUp(r: Reader, w: World) {
    forall n :: r.start < n <= |w.log| && Matches(r.filter, w.log[n - 1]) && n !in w.missed ==> n in w.got
  }

  /** An empty page means that the reader has everything. */
  lemma EmptyPageMeansCaughtUp(r: Reader, w: World, limit: nat)
    requires TableFits(r, w) && ReaderFits(r, w) && Possible(r, w, Poll(limit, []))
    ensures CaughtUp(r, w)
  {
    forall n | r.start < n <= |w.log| && Matches(r.filter, w.log[n - 1]) && n !in w.missed
      ensures n in w.got
    {
      AboveIsListed(r, w, n);
      if n <= w.cursor {
        assert Due(r, w, n);
      }
    }
  }

  lemma AboveIsListed(r: Reader, w: World, n: nat)
    requires TableFits(r, w)
    ensures w.cursor < n <= |w.log| && Matches(r.filter, w.log[n - 1]) && n !in w.missed ==> Listed(w.store, r.channel, r.filter, w.cursor, n)
  {
  }

  lemma PollAdvances(r: Reader, w: World, limit: nat, page: seq<nat>)
    requires TableFits(r, w) && ReaderFits(r, w) && Possible(r, w, Poll(limit, page))
    ensures var after := Step(r, w, Poll(limit, page));
      && after.log == w.log && after.missed == w.missed && (CaughtUp(r, w) ==> CaughtUp(r, after))
      && (CaughtUp(r, after) || after.cursor >= w.cursor + 1)
  {
    if page == [] {
      EmptyPageMeansCaughtUp(r, w, limit);
      assert w.got + page == w.got;
    } else {
      assert Listed(w.store, r.channel, r.filter, w.cursor, page[|page| - 1]);
    }
  }

  lemma {:induction false} PollsAdvance(r: Reader, events: seq<Event>, polls: seq<Event>)
    requires ValidRun(r, events + polls) && forall e :: e in polls ==> e.Poll?
    ensures ValidRun(r, events)
    ensures var w, after := Run(r, events), Run(r, events + polls);
      && after.log == w.log && after.missed == w.missed
      && (CaughtUp(r, after) || after.cursor >= w.cursor + |polls|)
  {
    if polls == [] {
      assert events + polls == events;
    } else {
      var n := |polls| - 1;
      assert (events + polls)[..|events + polls| - 1] == events + polls[..n];
      PollsAdvance(r, events, polls[..n]);
      RunFits(r, events + polls[..n]);
      PollAdvances(r, Run(r, events + polls[..n]), polls[n].limit, polls[n].page);
    }
  }

  /** With no further posts, as many polls as there are numbers above the cursor read everything, whatever their limits. */
  lemma EnoughPollsReadEverything(r: Reader, events: seq<Event>, polls: seq<Event>)
    requires ValidRun(r, events + polls) && (forall e :: e in polls ==> e.Poll?)
    requires |Run(r, events).log| <= Run(r, events).cursor + |polls|
    ensures CaughtUp(r, Run(r, events + polls))
  {
    PollsAdvance(r, events, polls);
    RunFits(r, events + polls);
  }

  // ---------------------------------------------------------------------------------------------
  // Posts and channels
  // ---------------------------------------------------------------------------------------------

  /** At any time in any run: a post to a channel that exists, under an id no message has, is added to the channel under its next number
      and changes nothing else; any other post changes nothing at all. */
  lemma PostGoesThrough(r: Reader, events: seq<Event>, channel: string, row: Row)
    requires ValidRun(r, events)
    ensures var store, after := Run(r, events).store, Step(r, Run(r, events), Post(channel, row)).store;
      if channel in store.channels && forall k :: k in store.messages ==> store.messages[k].id != row.id then
        var n := store.channels[channel] + 1;
        && Key(channel, n) !in store.messages && after.messages == store.messages[Key(channel, n) := row]
        && after.channels == store.channels[channel := n]
      else after == store
  {
    RunFits(r, events);
  }

  /** A new channel is there, and empty of numbers; one that exists keeps its count. */
  lemma ChannelIsThere(r: Reader, w: World, name: string)
    ensures var after := Step(r, w, CreateChannel(name)).store;
      && name in after.channels && after.messages == w.store.messages
      && (name !in w.store.channels ==> after.channels == w.store.channels[name := 0])
      && (name in w.store.channels ==> after == w.store)
  {
  }

  /** What the reader of a whole channel, of its top level and of one thread has got. */
  lemma PollerGetsItsThread(r: Reader, events: seq<Event>, n: nat)
    requires ValidRun(r, events)
    ensures var w := Run(r, events); var there := r.start < n <= w.cursor && n <= |w.log| && n !in w.missed;
      && (r.filter == All ==> (n in w.got <==> there))
      && (r.filter == TopLevel ==> (n in w.got <==> there && w.log[n - 1].thread == None))
      && (r.filter.InThread? ==> (n in w.got <==> there && w.log[n - 1].thread == Some(r.filter.root)))
  {
    PollerMissesNothing(r, events);
  }
}
