/**
 Fan-out of chat events to several processes: each emits its own events at once and tails the shared log for those of the
 others. The log is pruned by age.
 */
module EventLog {
  import opened Wrappers
  import opened Numbers

  datatype ChatEvent = ChatEvent(channel: string, seqNo: nat, messageId: string)

  /** A log row; its number is the key. */
  datatype Entry = Entry(origin: string, event: ChatEvent, createdAt: int)

  /** The log table. Numbers are never handed out twice, also when rows were pruned. */
  datatype Table = Table(rows: map<nat, Entry>, lastId: nat)

  /** Events older than this are taken as seen when tailing starts. */
  const STREAM_CATCH_UP_MS := 30_000

  const PRUNE_EVERY_MS := 60_000

  const KEEP_MS := 10 * 60_000

  const BATCH := 1000

  // ---------------------------------------------------------------------------------------------
  // One process
  // ---------------------------------------------------------------------------------------------

  function Above(t: Table, cursor: nat): set<nat> {
    set n | n in t.rows && n > cursor
  }

  ghost predicate IsBatch(t: Table, cursor: nat, batch: seq<nat>) {
    IsLowest(Above(t, cursor), BATCH, batch)
  }

  function LastOf(batch: seq<nat>, cursor: nat): nat {
    if batch == [] then cursor else batch[|batch| - 1]
  }

  /** The rows of the batch that another process wrote. */
  function Foreign(rows: map<nat, Entry>, origin: string, batch: seq<nat>): seq<nat> {
    if batch == [] then []
    else
      var n := batch[|batch| - 1];
      Foreign(rows, origin, batch[..|batch| - 1]) + (if n in rows && rows[n].origin != origin then [n] else [])
  }

  function EventsOf(rows: map<nat, Entry>, batch: seq<nat>): seq<ChatEvent>
    requires forall n :: n in batch ==> n in rows
  {
    seq(|batch|, i requires 0 <= i < |batch| => rows[batch[i]].event)
  }

  lemma {:induction false} ForeignAreRows(rows: map<nat, Entry>, origin: string, batch: seq<nat>)
    ensures forall n :: n in Foreign(rows, origin, batch) <==> n in batch && n in rows && rows[n].origin != origin
  {
    if batch == [] {
    } else {
      ForeignAreRows(rows, origin, batch[..|batch| - 1]);
      assert batch == batch[..|batch| - 1] + [batch[|batch| - 1]];
    }
  }

  lemma {:induction false} ForeignAscends(rows: map<nat, Entry>, origin: string, batch: seq<nat>)
    requires Ascending(batch)
    ensures Ascending(Foreign(rows, origin, batch))
  {
    if batch == [] {
    } else {
      var n := |batch| - 1;
      ForeignAscends(rows, origin, batch[..n]);
      ForeignAreRows(rows, origin, batch[..n]);
      AscendingConcat(Foreign(rows, origin, batch[..n]), if batch[n] in rows && rows[batch[n]].origin != origin then [batch[n]] else []);
    }
  }

  function Inserted(t: Table, e: Entry): Table {
    Table(t.rows[t.lastId + 1 := e], t.lastId + 1)
  }

  function Pruned(t: Table, now: int): Table {
    t.(rows := map n | n in t.rows && t.rows[n].createdAt >= now - KEEP_MS :: t.rows[n])
  }

  predicate Prunes(lastPrune: int, now: int) {
    now - lastPrune > PRUNE_EVERY_MS
  }

  /** The highest number of the selected rows, or 0. */
  ghost predicate IsMax(some: set<nat>, max: nat) {
    (some == {} ==> max == 0) && (some != {} ==> max in some) && forall n :: n in some ==> n <= max
  }

  function Settled(t: Table, now: int): set<nat> {
    set n | n in t.rows && t.rows[n].createdAt < now - STREAM_CATCH_UP_MS
  }

  method MaxId(some: set<nat>) returns (max: nat)
    ensures IsMax(some, max)
  {
    max := 0;
    var rest := some;
    while rest != {}
      invariant rest <= some && (max == 0 || max in some)
      invariant forall n :: n in some ==> n in rest || n <= max
      decreases rest
    {
      var n :| n in rest;
      max := if n > max then n else max;
      rest := rest - {n};
    }
  }

  class ChatEventLog {
    var rows: map<nat, Entry>
    var lastId: nat

    constructor ()
      ensures State() == Table(map[], 0)
    {
      rows, lastId := map[], 0;
    }

    ghost function State(): Table
      reads this
    {
      Table(rows, lastId)
    }

    method Insert(e: Entry)
      modifies this
      ensures State() == Inserted(old(State()), e)
    {
      rows, lastId := rows[lastId + 1 := e], lastId + 1;
    }

    method Prune(now: int)
      modifies this
      ensures State() == Pruned(old(State()), now)
    {
      rows := map n | n in rows && rows[n].createdAt >= now - KEEP_MS :: rows[n];
    }
  }

  /** One process on the shared log. `emitted` is what its listeners were handed, in order. */
  class CloudChatStore {
    const origin: string
    const log: ChatEventLog
    var tailCursor: nat
    var tailing: bool
    var lastPrune: int
    var emitted: seq<ChatEvent>

    constructor (origin: string, log: ChatEventLog)
      ensures this.origin == origin && this.log == log && !tailing && lastPrune == 0 && emitted == []
      ensures IsMax(log.rows.Keys, tailCursor)
    {
      var max := MaxId(log.rows.Keys);
      this.origin, this.log, tailCursor, tailing, lastPrune, emitted := origin, log, max, false, 0, [];
    }

    method Publish(event: ChatEvent, now: int)
      modifies this, log
      ensures emitted == old(emitted) + [event] && tailCursor == old(tailCursor) && tailing == old(tailing)
      ensures var after := Inserted(old(log.State()), Entry(origin, event, now));
        log.State() == (if Prunes(old(lastPrune), now) then Pruned(after, now) else after)
        && lastPrune == (if Prunes(old(lastPrune), now) then now else old(lastPrune))
    {
      emitted := emitted + [event];
      log.Insert(Entry(origin, event, now));
      if now - lastPrune > PRUNE_EVERY_MS {
        lastPrune := now;
        log.Prune(now);
      }
    }

    method TailOnce() returns (delivered: nat, ghost batch: seq<nat>)
      modifies this
      ensures IsBatch(log.State(), old(tailCursor), batch) && tailCursor == LastOf(batch, old(tailCursor))
      ensures (forall n :: n in Foreign(log.rows, origin, batch) ==> n in log.rows)
        && emitted == old(emitted) + EventsOf(log.rows, Foreign(log.rows, origin, batch))
        && delivered == |Foreign(log.rows, origin, batch)|
      ensures tailing == old(tailing) && lastPrune == old(lastPrune)
    {
      var ids := SelectLowest((set n | n in log.rows && n > tailCursor), BATCH);
      batch := ids;
      delivered := 0;
      ForeignAreRows(log.rows, origin, ids[..0]);
      for i := 0 to |ids|
        invariant tailCursor == LastOf(ids[..i], old(tailCursor))
        invariant tailing == old(tailing) && lastPrune == old(lastPrune)
        invariant (forall n :: n in Foreign(log.rows, origin, ids[..i]) ==> n in log.rows)
          && emitted == old(emitted) + EventsOf(log.rows, Foreign(log.rows, origin, ids[..i]))
          && delivered == |Foreign(log.rows, origin, ids[..i])|
      {
        assert ids[i] in ids;
        var row := log.rows[ids[i]];
        tailCursor := ids[i];
        ForeignAreRows(log.rows, origin, ids[..i + 1]);
        assert ids[..i + 1][..i] == ids[..i];
        if row.origin == origin {
          assert Foreign(log.rows, origin, ids[..i + 1]) == Foreign(log.rows, origin, ids[..i]) + [];
          continue;
        }
        EventsOfOneMore(log.rows, Foreign(log.rows, origin, ids[..i]), ids[i]);
        emitted := emitted + [row.event];
        delivered := delivered + 1;
      }
      assert ids[..|ids|] == ids;
    }

    method StartTail(now: int) returns (ghost settled: nat)
      modifies this
      ensures emitted == old(emitted) && lastPrune == old(lastPrune) && tailing
      ensures IsMax(Settled(log.State(), now), settled)
      ensures tailCursor == if !old(tailing) && settled > old(tailCursor) then settled else old(tailCursor)
    {
      var max := MaxId(Settled(Table(log.rows, log.lastId), now));
      settled := max;
      if tailing {
        return;
      }
      tailCursor := if max > tailCursor then max else tailCursor;
      tailing := true;
    }

    method StopTail()
      modifies this
      ensures emitted == old(emitted) && lastPrune == old(lastPrune) && tailCursor == old(tailCursor) && !tailing
    {
      tailing := false;
    }
  }

  lemma EventsOfOneMore(rows: map<nat, Entry>, batch: seq<nat>, n: nat)
    requires (forall m :: m in batch ==> m in rows) && n in rows
    ensures (forall m :: m in batch + [n] ==> m in rows) && EventsOf(rows, batch + [n]) == EventsOf(rows, batch) + [rows[n].event]
  {
  }

  // ---------------------------------------------------------------------------------------------
  // Any number of processes
  // ---------------------------------------------------------------------------------------------

  /** A process with the numbers of the rows it emitted: others' rows when it read them, its own when it wrote them.
      `since` is its cursor when it last began to tail; `lost` are the numbers pruned before it
      could read them. */
  datatype Process = Process(cursor: nat, tailing: bool, lastPrune: int, delivered: seq<nat>, own: seq<nat>, since: nat, lost: set<nat>)

  /** The table, the processes by origin, and every entry ever written (number `i + 1` at position `i`). */
  datatype System = System(table: Table, procs: map<string, Process>, history: seq<Entry>)

  datatype Step =
    | Start(origin: string, max: nat)
    | Publish(origin: string, event: ChatEvent, now: int)
    | TailOnce(origin: string, batch: seq<nat>)
    | StartTail(origin: string, now: int, settled: nat)
    | StopTail(origin: string)

  /** The queries of a step return what the table holds. */
  ghost predicate Possible(s: System, e: Step) {
    match e
    case Start(origin, max) => origin !in s.procs && IsMax(s.table.rows.Keys, max)
    case Publish(origin, _, _) => origin in s.procs
    case TailOnce(origin, batch) => origin in s.procs && IsBatch(s.table, s.procs[origin].cursor, batch)
    case StartTail(origin, now, settled) => origin in s.procs && IsMax(Settled(s.table, now), settled)
    case StopTail(origin) => origin in s.procs
  }

  /** The rows a prune takes from a process that has not read them. */
  function Unread(before: Table, after: Table, cursor: nat): set<nat> {
    set n | n in before.rows && n !in after.rows && n > cursor
  }

  function Begun(proc: Process, settled: nat): Process {
    if proc.tailing then proc
    else
      var cursor := if settled > proc.cursor then settled else proc.cursor;
      proc.(cursor := cursor, tailing := true, since := cursor)
  }

  function Written(t: Table, lastPrune: int, e: Entry): Table {
    if Prunes(lastPrune, e.createdAt) then Pruned(Inserted(t, e), e.createdAt) else Inserted(t, e)
  }

  function Next(s: System, e: Step): System {
    if !e.Start? && e.origin !in s.procs then s
    else
    match e
    case Start(origin, max) =>
      s.(procs := s.procs[origin := Process(max, false, 0, [], [], max, set n | max < n <= s.table.lastId && n !in s.table.rows)])
    case Publish(origin, event, now) =>
      var entry := Entry(origin, event, now);
      var table := Written(s.table, s.procs[origin].lastPrune, entry);
      var procs := map o | o in s.procs ::
        s.procs[o].(lost := s.procs[o].lost + Unread(Inserted(s.table, entry), table, s.procs[o].cursor),
                    own := if o == origin then s.procs[o].own + [table.lastId] else s.procs[o].own,
                    lastPrune := if o == origin && Prunes(s.procs[o].lastPrune, now) then now else s.procs[o].lastPrune);
      System(table, procs, s.history + [entry])
    case TailOnce(origin, batch) =>
      var proc := s.procs[origin];
      s.(procs := s.procs[origin := proc.(cursor := LastOf(batch, proc.cursor),
                                          delivered := proc.delivered + Foreign(s.table.rows, origin, batch))])
    case StartTail(origin, _, settled) => s.(procs := s.procs[origin := Begun(s.procs[origin], settled)])
    case StopTail(origin) => s.(procs := s.procs[origin := s.procs[origin].(tailing := false)])
  }

  ghost predicate ValidRun(steps: seq<Step>) {
    steps == [] || (ValidRun(steps[..|steps| - 1]) && Possible(Run(steps[..|steps| - 1]), steps[|steps| - 1]))
  }

  function Run(steps: seq<Step>): System {
    if steps == [] then System(Table(map[], 0), map[], []) else Next(Run(steps[..|steps| - 1]), steps[|steps| - 1])
  }

  predicate ForeignTo(s: System, origin: string, n: nat) {
    1 <= n <= |s.history| && s.history[n - 1].origin != origin
  }

  ghost predicate TableFits(s: System) {
    && s.table.lastId == |s.history|
    && (forall n :: n in s.table.rows ==> 1 <= n <= |s.history| && s.table.rows[n] == s.history[n - 1])
    && (forall i :: 0 <= i < |s.history| ==> s.history[i].origin in s.procs)
  }

  /** What `origin` was handed of the others, once and in the order of the log: since it last began to tail, every entry up
      to its cursor that was not pruned before it could be read. */
  ghost predicate ReadFits(s: System, origin: string, proc: Process) {
    && proc.since <= proc.cursor <= |s.history| && Ascending(proc.delivered)
    && (forall n :: n in proc.delivered ==> ForeignTo(s, origin, n) && n <= proc.cursor && n !in proc.lost)
    && (forall n :: proc.since < n <= proc.cursor && ForeignTo(s, origin, n) && n !in proc.lost ==> n in proc.delivered)
  }

  /** Its own entries, each once and in order. */
  ghost predicate OwnFits(s: System, origin: string, proc: Process) {
    && Ascending(proc.own)
    && (forall n :: n in proc.own <==> 1 <= n <= |s.history| && s.history[n - 1].origin == origin)
  }

  /** What is above the cursor is in the table or lost. */
  ghost predicate RowsFit(s: System, proc: Process) {
    && (forall n :: proc.cursor < n <= |s.history| && n !in proc.lost ==> n in s.table.rows)
    && (forall n :: n in proc.lost ==> n <= |s.history| && n !in s.table.rows)
  }

  ghost predicate ProcessFits(s: System, origin: string, proc: Process) {
    ReadFits(s, origin, proc) && OwnFits(s, origin, proc) && RowsFit(s, proc)
  }

  ghost predicate Fits(s: System) {
    TableFits(s) && forall o :: o in s.procs ==> ProcessFits(s, o, s.procs[o])
  }

  lemma TailReads(s: System, origin: string, proc: Process, batch: seq<nat>)
    requires TableFits(s) && ProcessFits(s, origin, proc) && IsBatch(s.table, proc.cursor, batch)
    ensures ReadFits(s, origin, proc.(cursor := LastOf(batch, proc.cursor),
                                      delivered := proc.delivered + Foreign(s.table.rows, origin, batch)))
  {
    var more := Foreign(s.table.rows, origin, batch);
    ForeignAreRows(s.table.rows, origin, batch);
    ForeignAscends(s.table.rows, origin, batch);
    AscendingConcat(proc.delivered, more);
    if batch != [] {
      assert batch[|batch| - 1] in batch;
    }
    forall n | proc.since < n <= LastOf(batch, proc.cursor) && ForeignTo(s, origin, n) && n !in proc.lost
      ensures n in proc.delivered + more
    {
      if n > proc.cursor {
        assert n in Above(s.table, proc.cursor);
      }
    }
  }

  /** Steps that touch neither table nor history leave the other processes as they were. */
  lemma OthersFit(s: System, after: System, origin: string)
    requires Fits(s) && after.table == s.table && after.history == s.history && origin in after.procs
    requires forall o :: o in after.procs && o != origin ==> o in s.procs && after.procs[o] == s.procs[o]
    requires s.procs.Keys <= after.procs.Keys && ProcessFits(after, origin, after.procs[origin])
    ensures Fits(after)
  {
    forall o | o in after.procs && o != origin
      ensures ProcessFits(after, o, after.procs[o])
    {
      assert ProcessFits(s, o, s.procs[o]);
      SameProcess(s, after, o, s.procs[o]);
    }
  }

  lemma SameProcess(s: System, after: System, o: string, proc: Process)
    requires ProcessFits(s, o, proc) && after.table == s.table && after.history == s.history
    ensures ProcessFits(after, o, proc)
  {
  }

  lemma TailFits(s: System, origin: string, batch: seq<nat>)
    requires Fits(s) && Possible(s, TailOnce(origin, batch))
    ensures Fits(Next(s, TailOnce(origin, batch)))
  {
    var proc, after := s.procs[origin], Next(s, TailOnce(origin, batch));
    TailReads(s, origin, proc, batch);
    if batch != [] {
      assert batch[|batch| - 1] in batch;
    }
    SameProcess(s, after, origin, after.procs[origin]);
    OthersFit(s, after, origin);
  }

  // Publishing -----------------------------------------------------------------------------------

  ghost predicate OneMore(s: System, after: System, origin: string) {
    && |after.history| == |s.history| + 1 && after.history[..|s.history|] == s.history
    && after.history[|s.history|].origin == origin
  }

  lemma PublishKeepsReads(s: System, after: System, origin: string, o: string, proc: Process, more: set<nat>)
    requires OneMore(s, after, origin) && ReadFits(s, o, proc) && forall n :: n in more ==> n > proc.cursor
    ensures ReadFits(after, o, proc.(lost := proc.lost + more))
  {
  }

  lemma PublishKeepsOwn(s: System, after: System, origin: string, o: string, proc: Process)
    requires OneMore(s, after, origin) && OwnFits(s, o, proc)
    ensures OwnFits(after, o, proc.(own := if o == origin then proc.own + [|s.history| + 1] else proc.own))
  {
    if o == origin {
      AscendingConcat(proc.own, [|s.history| + 1]);
    }
    forall i | 0 <= i < |s.history|
      ensures after.history[i] == s.history[i]
    {
    }
  }

  lemma PublishKeepsRows(s: System, origin: string, event: ChatEvent, now: int, o: string)
    requires TableFits(s) && origin in s.procs && o in s.procs && RowsFit(s, s.procs[o])
    ensures var after := Next(s, Publish(origin, event, now)); RowsFit(after, after.procs[o])
  {
  }

  lemma PublishFits(s: System, origin: string, event: ChatEvent, now: int)
    requires Fits(s) && origin in s.procs
    ensures Fits(Next(s, Publish(origin, event, now)))
  {
    var after := Next(s, Publish(origin, event, now));
    var entry := Entry(origin, event, now);
    var table := Written(s.table, s.procs[origin].lastPrune, entry);
    assert OneMore(s, after, origin);
    PublishKeepsTable(s, origin, event, now);
    forall o | o in after.procs
      ensures ProcessFits(after, o, after.procs[o])
    {
      var proc := s.procs[o];
      assert ProcessFits(s, o, proc);
      PublishKeepsReads(s, after, origin, o, proc, Unread(Inserted(s.table, entry), table, proc.cursor));
      PublishKeepsOwn(s, after, origin, o, proc);
      PublishKeepsRows(s, origin, event, now, o);
    }
  }

  lemma PublishKeepsTable(s: System, origin: string, event: ChatEvent, now: int)
    requires TableFits(s) && origin in s.procs
    ensures TableFits(Next(s, Publish(origin, event, now)))
  {
  }

  lemma {:induction false} RunFits(steps: seq<Step>)
    requires ValidRun(steps)
    ensures Fits(Run(steps))
  {
    if steps == [] {
    } else {
      var n := |steps| - 1;
      var s, e := Run(steps[..n]), steps[n];
      RunFits(steps[..n]);
      match e
      case Publish(origin, event, now) => PublishFits(s, origin, event, now);
      case TailOnce(origin, batch) => TailFits(s, origin, batch);
      case Start(origin, max) => StartFits(s, origin, max);
      case _ => TailSwitchFits(s, e);
    }
  }

  lemma StartFits(s: System, origin: string, max: nat)
    requires Fits(s) && Possible(s, Start(origin, max))
    ensures Fits(Next(s, Start(origin, max)))
  {
    var after := Next(s, Start(origin, max));
    var proc := after.procs[origin];
    assert max <= |s.history|;
    assert ReadFits(after, origin, proc) && OwnFits(after, origin, proc);
    assert RowsFit(after, proc);
    OthersFit(s, after, origin);
  }

  lemma SwitchedFits(s: System, o: string, proc: Process, settled: nat)
    requires ProcessFits(s, o, proc) && settled <= |s.history|
    ensures ProcessFits(s, o, Begun(proc, settled)) && ProcessFits(s, o, proc.(tailing := false))
  {
  }

  lemma TailSwitchFits(s: System, e: Step)
    requires Fits(s) && Possible(s, e) && (e.StartTail? || e.StopTail?)
    ensures Fits(Next(s, e))
  {
    var after := Next(s, e);
    assert e.StartTail? && e.settled > 0 ==> e.settled in Settled(s.table, e.now);
    SwitchedFits(s, e.origin, s.procs[e.origin], if e.StartTail? then e.settled else 0);
    SameProcess(s, after, e.origin, after.procs[e.origin]);
    OthersFit(s, after, e.origin);
  }

  /** Over any interleaving of processes publishing, tailing, starting and stopping: nothing is handed out twice or out of
      order, and since a process last began to tail it got every foreign entry up to its cursor unless that was pruned
      before it could be read. */
  lemma EachProcessHearsEachEventOnce(steps: seq<Step>, origin: string)
    requires ValidRun(steps) && origin in Run(steps).procs
    ensures var s := Run(steps); var proc := s.procs[origin];
      && (forall i, j :: 0 <= i < j < |proc.delivered| ==> proc.delivered[i] < proc.delivered[j])
      && (forall n :: n in proc.delivered ==> ForeignTo(s, origin, n))
      && (forall n :: proc.since < n <= proc.cursor ==> (n in proc.delivered <==> ForeignTo(s, origin, n) && n !in proc.lost))
      && (forall n :: n in proc.own <==> 1 <= n <= |s.history| && s.history[n - 1].origin == origin)
      && (forall i, j :: 0 <= i < j < |proc.own| ==> proc.own[i] < proc.own[j])
  {
    RunFits(steps);
    assert ProcessFits(Run(steps), origin, Run(steps).procs[origin]);
  }

  ghost predicate UnreadIsRecent(s: System, reader: string, now: int)
    requires reader in s.procs
  {
    forall n :: n in s.table.rows && n > s.procs[reader].cursor ==> s.table.rows[n].createdAt >= now - KEEP_MS
  }

  /** A publisher's prune takes nothing from a process exactly when every row that process has still to read is at most ten
      minutes old. */
  lemma PruneTakesOnlyStaleRows(steps: seq<Step>, origin: string, event: ChatEvent, now: int, reader: string)
    requires ValidRun(steps) && origin in Run(steps).procs && reader in Run(steps).procs
    requires Prunes(Run(steps).procs[origin].lastPrune, now)
    ensures var s := Run(steps); var after := Next(s, Publish(origin, event, now));
      (after.procs[reader].lost == s.procs[reader].lost) <==> UnreadIsRecent(s, reader, now)
  {
    RunFits(steps);
    var s := Run(steps);
    var after := Next(s, Publish(origin, event, now));
    assert ProcessFits(s, reader, s.procs[reader]);
    var entry := Entry(origin, event, now);
    var taken := Unread(Inserted(s.table, entry), after.table, s.procs[reader].cursor);
    forall n
      ensures n in taken <==> n in s.table.rows && n > s.procs[reader].cursor && s.table.rows[n].createdAt < now - KEEP_MS
    {
    }
    assert after.procs[reader].lost == s.procs[reader].lost + taken;
  }

  /** Beginning to tail never goes back, and a running tail does not begin again. A row still to be read is passed over exactly when it
      or a later one is more than thirty seconds old. */
  lemma StartSkipsOnlySettled(s: System, origin: string, now: int, settled: nat, n: nat)
    requires origin in s.procs && Possible(s, StartTail(origin, now, settled)) && n in s.table.rows && n > s.procs[origin].cursor
    ensures var proc, after := s.procs[origin], Next(s, StartTail(origin, now, settled)).procs[origin];
      && after.tailing && after.cursor >= proc.cursor && after.delivered == proc.delivered && after.own == proc.own
      && (proc.tailing ==> after == proc)
      && (!proc.tailing ==> (after.cursor >= n <==> exists m :: m in s.table.rows && m >= n && s.table.rows[m].createdAt < now - 30_000))
  {
    assert forall m :: m in Settled(s.table, now) <==> m in s.table.rows && s.table.rows[m].createdAt < now - 30_000;
  }

  /** A publisher prunes at most once a minute, and then exactly the rows that are more than ten minutes old; otherwise nothing goes. */
  lemma PublishPrunesOncePerMinute(s: System, origin: string, event: ChatEvent, now: int)
    requires origin in s.procs
    ensures var proc, after := s.procs[origin], Next(s, Publish(origin, event, now));
      && (after.procs[origin].lastPrune == if now > proc.lastPrune + 60_000 then now else proc.lastPrune)
      && after.procs.Keys == s.procs.Keys && (forall o :: o in s.procs && o != origin ==> after.procs[o].lastPrune == s.procs[o].lastPrune)
      && after.table.lastId == s.table.lastId + 1
      && forall n :: n in after.table.rows <==>
           (n in s.table.rows || n == after.table.lastId)
           && var row := if n == after.table.lastId then Entry(origin, event, now) else s.table.rows[n];
              now <= proc.lastPrune + 60_000 || row.createdAt >= now - 600_000
  {
  }

  /** One read of a process takes the rows it has not read in order, hands out the others' ones among them, and leaves something unread
      only after a thousand; stopping to tail loses nothing. */
  lemma TailMakesProgress(s: System, origin: string, batch: seq<nat>)
    requires Possible(s, TailOnce(origin, batch))
    ensures var proc, after := s.procs[origin], Next(s, TailOnce(origin, batch)).procs[origin];
      && (forall n :: n in s.table.rows && n > proc.cursor ==> (n <= after.cursor <==> n in batch))
      && (forall n :: n in s.table.rows && proc.cursor < n <= after.cursor && s.table.rows[n].origin != origin ==> n in after.delivered)
      && (|batch| < 1000 ==> forall n :: n in s.table.rows ==> n <= after.cursor)
      && after.own == proc.own && after.tailing == proc.tailing
    ensures Next(s, StopTail(origin)).procs[origin] == s.procs[origin].(tailing := false)
  {
    ForeignAreRows(s.table.rows, origin, batch);
    assert forall n :: n in Above(s.table, s.procs[origin].cursor) <==> n in s.table.rows && n > s.procs[origin].cursor;
    if batch != [] {
      assert batch[|batch| - 1] in batch;
    }
  }

  /** A process starts behind all that is in the table, with nothing handed out, not tailing, and free to prune. */
  lemma ProcessStarts(s: System, origin: string, max: nat)
    requires Possible(s, Start(origin, max))
    ensures var proc := Next(s, Start(origin, max)).procs[origin];
      && (forall n :: n in s.table.rows ==> n <= proc.cursor) && (proc.cursor == 0 || proc.cursor in s.table.rows)
      && !proc.tailing && proc.delivered == [] && proc.own == [] && proc.lastPrune == 0
  {
  }
}
