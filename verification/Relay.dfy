/**
 The live-editing relay: every update of an editor is stored before it is applied, passed on and acknowledged; rooms are
 compacted into snapshots, unloaded when empty, and loaded again from the tables. A shared document is the set of
 updates applied to it.
 */
module Relay {
  import opened Wrappers

  type DocumentId = string

  /** One encoded update of the shared document. */
  type Update = seq<bv8>

  datatype RoomRow = RoomRow(state: set<Update>, baseSource: string)

  /** The room table and, for every document, the updates stored since its snapshot; row `n` has number `n + 1`. */
  datatype Tables = Tables(rooms: map<DocumentId, RoomRow>, updates: map<DocumentId, seq<Update>>)

  datatype ErrorCode = ReadOnly | BadUpdate | RoomFull

  datatype Frame =
    | Init(state: set<Update>, readOnly: bool)
    | UpdateFrame(update: Update)
    | Ack(id: int)
    | Refusal(code: ErrorCode, id: int)

  /** A connection: what was sent to it, and which of its own updates were acknowledged. */
  datatype Client = Client(readOnly: bool, sent: seq<Frame>, own: set<Update>)

  /** `edited` tells whether the room knows somebody to save in the name of: the author of an update it accepted, or the last author
      of the updates it was loaded with. */
  datatype Room = Room(doc: set<Update>, clients: map<nat, Client>, baseSource: string, pendingBytes: nat, snapshotBytes: nat, edited: bool)

  /** What opening a page finds: its source, that source encoded, the edit that merges it into a stored room, and whether the last
      author of stored updates is known and may still edit. */
  datatype Page = Page(source: string, initial: set<Update>, edit: Option<Update>, authored: bool)

  /** Limits, the update format's validity test and the length of an encoded state. */
  datatype Config = Config(maxClients: nat, compactAfter: nat, maxRoomBytes: nat, valid: Update -> bool, stateBytes: set<Update> -> nat)

  /** The tables, the rooms in memory, and the unloaded rooms that a checkpoint timer still holds. */
  datatype System = System(tables: Tables, rooms: map<DocumentId, Room>, retired: set<(DocumentId, Room)>)

  // ---------------------------------------------------------------------------------------------
  // Tables
  // ---------------------------------------------------------------------------------------------

  function Pending(t: Tables, id: DocumentId): seq<Update> {
    if id in t.updates then t.updates[id] else []
  }

  function Snapshot(t: Tables, id: DocumentId): set<Update> {
    if id in t.rooms then t.rooms[id].state else {}
  }

  function UpdatesOf(s: seq<Update>): set<Update> {
    set u | u in s
  }

  /** Everything a reload would find. */
  function Stored(t: Tables, id: DocumentId): set<Update> {
    Snapshot(t, id) + UpdatesOf(Pending(t, id))
  }

  function Appended(t: Tables, id: DocumentId, u: Update): Tables {
    t.(updates := t.updates[id := Pending(t, id) + [u]])
  }

  /** The snapshot replaces the room's row and drops the updates it holds. */
  function Compacted(t: Tables, id: DocumentId, state: set<Update>, baseSource: string): Tables {
    Tables(t.rooms[id := RoomRow(state, baseSource)], t.updates - {id})
  }

  class CloudDatabase {
    var rooms: map<DocumentId, RoomRow>
    var updates: map<DocumentId, seq<Update>>

    constructor ()
      ensures Contents() == Tables(map[], map[])
    {
      rooms, updates := map[], map[];
    }

    ghost function Contents(): Tables
      reads this
    {
      Tables(rooms, updates)
    }

    method ReadCollabRoom(id: DocumentId) returns (row: Option<RoomRow>, pending: seq<Update>)
      ensures row == (if id in rooms then Some(rooms[id]) else None) && pending == Pending(Contents(), id)
    {
      row := if id in rooms then Some(rooms[id]) else None;
      pending := if id in updates then updates[id] else [];
    }

    method AppendCollabUpdate(id: DocumentId, u: Update) returns (number: nat)
      modifies this
      ensures Contents() == Appended(old(Contents()), id, u) && number == |Pending(Contents(), id)|
    {
      var rows := if id in updates then updates[id] else [];
      updates := updates[id := rows + [u]];
      number := |rows| + 1;
    }

    method WriteCollabSnapshot(id: DocumentId, state: set<Update>, baseSource: string)
      modifies this
      ensures Contents() == Compacted(old(Contents()), id, state, baseSource)
    {
      rooms := rooms[id := RoomRow(state, baseSource)];
      updates := updates - {id};
    }
  }

  // ---------------------------------------------------------------------------------------------
  // The steps
  // ---------------------------------------------------------------------------------------------

  function Told(clients: map<nat, Client>, frame: Frame, except: Option<nat>): map<nat, Client> {
    map c | c in clients :: if except == Some(c) then clients[c] else clients[c].(sent := clients[c].sent + [frame])
  }

  function Snapshotted(cfg: Config, sys: System, id: DocumentId): System
    requires id in sys.rooms
  {
    var room := sys.rooms[id];
    sys.(tables := Compacted(sys.tables, id, room.doc, room.baseSource),
         rooms := sys.rooms[id := room.(pendingBytes := 0, snapshotBytes := cfg.stateBytes(room.doc))])
  }

  /** An edit of the server itself, if it changes anything: stored, applied, and told to every client. */
  function ServerEdited(sys: System, id: DocumentId, edit: Option<Update>): System
    requires id in sys.rooms
  {
    match edit
    case None => sys
    case Some(u) =>
      var room := sys.rooms[id];
      sys.(tables := Appended(sys.tables, id, u),
           rooms := sys.rooms[id := room.(doc := room.doc + {u}, pendingBytes := room.pendingBytes + |u|,
                                          clients := Told(room.clients, UpdateFrame(u), None))])
  }

  function Merged(cfg: Config, sys: System, id: DocumentId, source: string, edit: Option<Update>): System
    requires id in sys.rooms
  {
    var after := ServerEdited(sys, id, edit);
    var room := after.rooms[id];
    Snapshotted(cfg, after.(rooms := after.rooms[id := room.(baseSource := source)]), id)
  }

  /** Updates stored since the snapshot are saved in the name of their last author. */
  predicate Recovered(t: Tables, id: DocumentId, page: Page) {
    id in t.rooms && Pending(t, id) != [] && page.authored
  }

  /** Load the room from the tables, or start it from the page's source. */
  function Opened(cfg: Config, sys: System, id: DocumentId, page: Page): (r: System)
    ensures id in r.rooms
  {
    if id in sys.rooms then sys
    else
      var persisted := id in sys.tables.rooms;
      var doc := if persisted then Stored(sys.tables, id) else page.initial;
      var baseSource := if persisted then sys.tables.rooms[id].baseSource else page.source;
      var after := sys.(rooms := sys.rooms[id := Room(doc, map[], baseSource, 0, 0, Recovered(sys.tables, id, page))]);
      if baseSource != page.source then Merged(cfg, after, id, page.source, page.edit) else Snapshotted(cfg, after, id)
  }

  predicate Admitted(cfg: Config, room: Room, c: nat) {
    |room.clients| < cfg.maxClients && c !in room.clients
  }

  function Joined(cfg: Config, sys: System, id: DocumentId, c: nat, readOnly: bool, page: Page): System
  {
    var after := Opened(cfg, sys, id, page);
    var room := after.rooms[id];
    if !Admitted(cfg, room, c) then after
    else after.(rooms := after.rooms[id := room.(clients := room.clients[c := Client(readOnly, [Init(room.doc, readOnly)], {})])])
  }

  /** Why an update of a connected client is turned down; the first reason in this order. */
  function Refused(cfg: Config, room: Room, c: nat, update: Option<Update>): Option<ErrorCode>
    requires c in room.clients
  {
    if room.clients[c].readOnly then Some(ReadOnly)
    else if update.None? || !cfg.valid(update.value) then Some(BadUpdate)
    else if room.snapshotBytes + room.pendingBytes + |update.value| > cfg.maxRoomBytes then Some(RoomFull)
    else None
  }

  predicate Connected(sys: System, id: DocumentId, c: nat) {
    id in sys.rooms && c in sys.rooms[id].clients
  }

  predicate Accepted(cfg: Config, sys: System, id: DocumentId, c: nat, update: Option<Update>) {
    Connected(sys, id, c) && Refused(cfg, sys.rooms[id], c, update) == None
  }

  function Reply(clients: map<nat, Client>, c: nat, frame: Frame): map<nat, Client>
    requires c in clients
  {
    clients[c := clients[c].(sent := clients[c].sent + [frame])]
  }

  function Relayed(room: Room, c: nat, u: Update, msg: int): Room
    requires c in room.clients
  {
    var others := Told(room.clients, UpdateFrame(u), Some(c));
    var own := others[c := others[c].(own := others[c].own + {u})];
    room.(doc := room.doc + {u}, pendingBytes := room.pendingBytes + |u|, clients := Reply(own, c, Ack(msg)), edited := true)
  }

  function Received(cfg: Config, sys: System, id: DocumentId, c: nat, update: Option<Update>, msg: int): System {
    if !Connected(sys, id, c) then sys
    else
      var room := sys.rooms[id];
      match Refused(cfg, room, c, update)
      case Some(code) => sys.(rooms := sys.rooms[id := room.(clients := Reply(room.clients, c, Refusal(code, msg)))])
      case None =>
        var after := sys.(tables := Appended(sys.tables, id, update.value), rooms := sys.rooms[id := Relayed(room, c, update.value, msg)]);
        if after.rooms[id].pendingBytes > cfg.compactAfter then Snapshotted(cfg, after, id) else after
  }

  function Left(sys: System, id: DocumentId, c: nat): System {
    if !Connected(sys, id, c) then sys
    else sys.(rooms := sys.rooms[id := sys.rooms[id].(clients := sys.rooms[id].clients - {c})])
  }

  /** After the last client left and the final checkpoint ended; `timer` tells whether a further checkpoint was scheduled or queued
      meanwhile. */
  function Unloaded(cfg: Config, sys: System, id: DocumentId, timer: bool): System {
    if id !in sys.rooms || sys.rooms[id].clients != map[] then sys
    else
      var after := Snapshotted(cfg, sys, id);
      after.(rooms := after.rooms - {id}, retired := after.retired + if timer then {(id, after.rooms[id])} else {})
  }

  function Written(cfg: Config, sys: System, id: DocumentId, source: string, edit: Option<Update>): System {
    if id !in sys.rooms || source == sys.rooms[id].baseSource then sys else Merged(cfg, sys, id, source, edit)
  }

  /** The end of a successful checkpoint: fill in block ids, then snapshot. A room nobody edited is not saved. */
  function Checkpointed(cfg: Config, sys: System, id: DocumentId, edit: Option<Update>): System {
    if id !in sys.rooms || !sys.rooms[id].edited then sys else Snapshotted(cfg, ServerEdited(sys, id, edit), id)
  }

  function Optional(edit: Option<Update>): set<Update> {
    if edit.Some? then {edit.value} else {}
  }

  /** The end of a successful checkpoint of an unloaded room: it snapshots the room it was scheduled for, whatever has happened since.
      Another one may follow. */
  function LateCheckpointed(sys: System, id: DocumentId, room: Room, edit: Option<Update>): System {
    if !EndsLate(sys, id, room) then sys
    else
      var doc := room.doc + Optional(edit);
      sys.(tables := Compacted(sys.tables, id, doc, room.baseSource),
           retired := sys.retired - {(id, room)} + {(id, room.(doc := doc))})
  }

  predicate EndsLate(sys: System, id: DocumentId, room: Room) {
    (id, room) in sys.retired && room.edited
  }

  function Rechecked(sys: System, id: DocumentId, c: nat, readOnly: bool): System {
    if !Connected(sys, id, c) then sys
    else
      var room := sys.rooms[id];
      sys.(rooms := sys.rooms[id := room.(clients := room.clients[c := room.clients[c].(readOnly := readOnly)])])
  }

  // ---------------------------------------------------------------------------------------------
  // The hub
  // ---------------------------------------------------------------------------------------------

  method Broadcast(clients: map<nat, Client>, frame: Frame, except: Option<nat>) returns (told: map<nat, Client>)
    ensures told == Told(clients, frame, except)
  {
    told := clients;
    var rest := clients.Keys;
    while rest != {}
      invariant rest <= clients.Keys == told.Keys
      invariant forall c :: c in clients ==> told[c] == if c in rest then clients[c] else Told(clients, frame, except)[c]
      decreases |rest|
    {
      var c :| c in rest;
      rest := rest - {c};
      if except != Some(c) {
        told := told[c := told[c].(sent := told[c].sent + [frame])];
      }
    }
  }

  class CloudCollabHub {
    const cfg: Config
    const store: CloudDatabase
    var rooms: map<DocumentId, Room>
    var retired: set<(DocumentId, Room)>

    constructor (cfg: Config, store: CloudDatabase)
      ensures this.cfg == cfg && this.store == store && State() == System(store.Contents(), map[], {})
    {
      this.cfg, this.store, rooms, retired := cfg, store, map[], {};
    }

    ghost function State(): System
      reads this, store
    {
      System(store.Contents(), rooms, retired)
    }

    method TakeSnapshot(id: DocumentId)
      requires id in rooms
      modifies this, store
      ensures State() == Snapshotted(cfg, old(State()), id)
    {
      var room := rooms[id];
      store.WriteCollabSnapshot(id, room.doc, room.baseSource);
      rooms := rooms[id := room.(pendingBytes := 0, snapshotBytes := cfg.stateBytes(room.doc))];
    }

    /** What the document's update handler does with an edit of the server. */
    method ServerEdit(id: DocumentId, edit: Option<Update>)
      requires id in rooms
      modifies this, store
      ensures State() == ServerEdited(old(State()), id, edit)
    {
      if edit.None? {
        return;
      }
      var room := rooms[id];
      var _ := store.AppendCollabUpdate(id, edit.value);
      var clients := Broadcast(room.clients, UpdateFrame(edit.value), None);
      rooms := rooms[id := room.(doc := room.doc + {edit.value}, pendingBytes := room.pendingBytes + |edit.value|, clients := clients)];
    }

    method MergeExternal(id: DocumentId, source: string, edit: Option<Update>)
      requires id in rooms
      modifies this, store
      ensures State() == Merged(cfg, old(State()), id, source, edit)
    {
      ServerEdit(id, edit);
      rooms := rooms[id := rooms[id].(baseSource := source)];
      TakeSnapshot(id);
    }

    method OpenRoom(id: DocumentId, page: Page)
      modifies this, store
      ensures State() == Opened(cfg, old(State()), id, page)
    {
      if id in rooms {
        return;
      }
      var row, pending := store.ReadCollabRoom(id);
      var doc, baseSource := page.initial, page.source;
      if row.Some? {
        doc, baseSource := row.value.state, row.value.baseSource;
        for i := 0 to |pending|
          invariant doc == row.value.state + UpdatesOf(pending[..i])
        {
          assert UpdatesOf(pending[..i + 1]) == UpdatesOf(pending[..i]) + {pending[i]};
          doc := doc + {pending[i]};
        }
        assert pending[..|pending|] == pending;
      }
      rooms := rooms[id := Room(doc, map[], baseSource, 0, 0, row.Some? && pending != [] && page.authored)];
      if baseSource != page.source {
        MergeExternal(id, page.source, page.edit);
      } else {
        TakeSnapshot(id);
      }
    }

    method Join(id: DocumentId, c: nat, readOnly: bool, page: Page) returns (joined: bool)
      modifies this, store
      ensures State() == Joined(cfg, old(State()), id, c, readOnly, page)
      ensures joined <==> Admitted(cfg, Opened(cfg, old(State()), id, page).rooms[id], c)
    {
      OpenRoom(id, page);
      var room := rooms[id];
      if |room.clients| >= cfg.maxClients || c in room.clients {
        return false;
      }
      rooms := rooms[id := room.(clients := room.clients[c := Client(readOnly, [Init(room.doc, readOnly)], {})])];
      joined := true;
    }

    method Refuse(id: DocumentId, c: nat, code: ErrorCode, msg: int)
      requires id in rooms && c in rooms[id].clients
      modifies this`rooms
      ensures rooms == old(rooms)[id := old(rooms)[id].(clients := Reply(old(rooms)[id].clients, c, Refusal(code, msg)))]
    {
      var room := rooms[id];
      rooms := rooms[id := room.(clients := Reply(room.clients, c, Refusal(code, msg)))];
    }

    /** An update message: store it, apply it, pass it on, acknowledge it, and compact when enough is pending. */
    method HandleUpdate(id: DocumentId, c: nat, update: Option<Update>, msg: int)
      modifies this, store
      ensures State() == Received(cfg, old(State()), id, c, update, msg)
    {
      if id !in rooms || c !in rooms[id].clients {
        return;
      }
      var room := rooms[id];
      if room.clients[c].readOnly {
        Refuse(id, c, ReadOnly, msg);
        return;
      }
      if update.None? || !cfg.valid(update.value) {
        Refuse(id, c, BadUpdate, msg);
        return;
      }
      var u := update.value;
      if room.snapshotBytes + room.pendingBytes + |u| > cfg.maxRoomBytes {
        Refuse(id, c, RoomFull, msg);
        return;
      }
      var _ := store.AppendCollabUpdate(id, u);
      room := room.(pendingBytes := room.pendingBytes + |u|);
      room := room.(doc := room.doc + {u}, edited := true);
      var clients := Broadcast(room.clients, UpdateFrame(u), Some(c));
      clients := clients[c := clients[c].(own := clients[c].own + {u}, sent := clients[c].sent + [Ack(msg)])];
      rooms := rooms[id := room.(clients := clients)];
      assert rooms[id] == Relayed(old(rooms)[id], c, u, msg);
      if rooms[id].pendingBytes > cfg.compactAfter {
        TakeSnapshot(id);
      }
    }

    method Leave(id: DocumentId, c: nat)
      modifies this
      ensures State() == Left(old(State()), id, c)
    {
      if id in rooms && c in rooms[id].clients {
        rooms := rooms[id := rooms[id].(clients := rooms[id].clients - {c})];
      }
    }

    method Unload(id: DocumentId, timer: bool)
      modifies this, store
      ensures State() == Unloaded(cfg, old(State()), id, timer)
    {
      if id in rooms && rooms[id].clients == map[] {
        TakeSnapshot(id);
        if timer {
          retired := retired + {(id, rooms[id])};
        }
        rooms := rooms - {id};
      }
    }

    method DocumentWritten(id: DocumentId, source: string, edit: Option<Update>)
      modifies this, store
      ensures State() == Written(cfg, old(State()), id, source, edit)
    {
      if id in rooms && source != rooms[id].baseSource {
        MergeExternal(id, source, edit);
      }
    }

    method EndCheckpoint(id: DocumentId, edit: Option<Update>)
      modifies this, store
      ensures State() == Checkpointed(cfg, old(State()), id, edit)
    {
      if id in rooms && rooms[id].edited {
        ServerEdit(id, edit);
        TakeSnapshot(id);
      }
    }

    method EndLateCheckpoint(id: DocumentId, room: Room, edit: Option<Update>)
      modifies this, store
      ensures State() == LateCheckpointed(old(State()), id, room, edit)
    {
      if (id, room) in retired && room.edited {
        var doc := room.doc + Optional(edit);
        retired := retired - {(id, room)} + {(id, room.(doc := doc))};
        store.WriteCollabSnapshot(id, doc, room.baseSource);
      }
    }
  }

  // ---------------------------------------------------------------------------------------------
  // Runs
  // ---------------------------------------------------------------------------------------------

  /** A crash loses the rooms and the timers. It may come between storing an update and everything after it, the acknowledgement
      included, or after the acknowledgement and before the compaction. */
  datatype Event =
    | Join(id: DocumentId, c: nat, readOnly: bool, page: Page)
    | Message(id: DocumentId, c: nat, update: Option<Update>, msg: int)
    | Leave(id: DocumentId, c: nat)
    | Unload(id: DocumentId, timer: bool)
    | DocumentWritten(id: DocumentId, source: string, edit: Option<Update>)
    | EndCheckpoint(id: DocumentId, edit: Option<Update>)
    | EndLateCheckpoint(id: DocumentId, room: Room, edit: Option<Update>)
    | Recheck(id: DocumentId, c: nat, readOnly: bool)
    | Crash
    | CrashInMessage(id: DocumentId, c: nat, update: Option<Update>, acknowledged: bool)
    | CrashInServerEdit(id: DocumentId, change: Update)
    | CrashInJoin(id: DocumentId, page: Page)

  function Step(cfg: Config, sys: System, e: Event): System {
    match e
    case Join(id, c, readOnly, page) => Joined(cfg, sys, id, c, readOnly, page)
    case Message(id, c, update, msg) => Received(cfg, sys, id, c, update, msg)
    case Leave(id, c) => Left(sys, id, c)
    case Unload(id, timer) => Unloaded(cfg, sys, id, timer)
    case DocumentWritten(id, source, edit) => Written(cfg, sys, id, source, edit)
    case EndCheckpoint(id, edit) => Checkpointed(cfg, sys, id, edit)
    case EndLateCheckpoint(id, room, edit) => LateCheckpointed(sys, id, room, edit)
    case Recheck(id, c, readOnly) => Rechecked(sys, id, c, readOnly)
    case Crash => System(sys.tables, map[], {})
    case CrashInMessage(id, c, update, _) =>
      System(if Accepted(cfg, sys, id, c, update) then Appended(sys.tables, id, update.value) else sys.tables, map[], {})
    case CrashInServerEdit(id, u) =>
      System(if id in sys.rooms then Appended(sys.tables, id, u) else sys.tables, map[], {})
    case CrashInJoin(id, page) =>
      System(if MergesOnJoin(sys, id, page) && page.edit.Some? then Appended(sys.tables, id, page.edit.value) else sys.tables, map[], {})
  }

  /** The updates acknowledged during the step. */
  function Acks(cfg: Config, sys: System, e: Event): set<(DocumentId, Update)> {
    match e
    case Message(id, c, update, _) => if Accepted(cfg, sys, id, c, update) then {(id, update.value)} else {}
    case CrashInMessage(id, c, update, acknowledged) =>
      if acknowledged && Accepted(cfg, sys, id, c, update) then {(id, update.value)} else {}
    case _ => {}
  }

  /** Whoever opens the page merges its source into the stored room. */
  predicate MergesOnJoin(sys: System, id: DocumentId, page: Page) {
    id !in sys.rooms && id in sys.tables.rooms && sys.tables.rooms[id].baseSource != page.source
  }

  function Nothing(): System {
    System(Tables(map[], map[]), map[], {})
  }

  function Run(cfg: Config, events: seq<Event>): System {
    if events == [] then Nothing() else Step(cfg, Run(cfg, events[..|events| - 1]), events[|events| - 1])
  }

  function Acknowledged(cfg: Config, events: seq<Event>): set<(DocumentId, Update)> {
    if events == [] then {}
    else
      var n := |events| - 1;
      Acknowledged(cfg, events[..n]) + Acks(cfg, Run(cfg, events[..n]), events[n])
  }

  // ---------------------------------------------------------------------------------------------
  // Agreement and durability
  // ---------------------------------------------------------------------------------------------

  function Carried(f: Frame): set<Update> {
    match f
    case Init(state, _) => state
    case UpdateFrame(u) => {u}
    case _ => {}
  }

  function Seen(frames: seq<Frame>): set<Update> {
    if frames == [] then {} else Seen(frames[..|frames| - 1]) + Carried(frames[|frames| - 1])
  }

  /** What the client can show: its init state, the frames it got, and its own acknowledged updates. */
  function View(client: Client): set<Update> {
    Seen(client.sent) + client.own
  }

  function Bytes(s: seq<Update>): nat {
    if s == [] then 0 else Bytes(s[..|s| - 1]) + |s[|s| - 1]|
  }

  /** Every client can show exactly the room's document, and no more is stored behind the snapshot than the room counts; when `exact`,
      the room holds exactly what is stored, and the byte counters are right. */
  ghost predicate RoomSound(cfg: Config, exact: bool, t: Tables, id: DocumentId, room: Room) {
    && id in t.rooms && ClientsAgree(room) && Bytes(Pending(t, id)) <= room.pendingBytes <= cfg.compactAfter
    && (exact ==> room.doc == Stored(t, id) && room.pendingBytes == Bytes(Pending(t, id)) && room.snapshotBytes == cfg.stateBytes(Snapshot(t, id)))
  }

  ghost predicate ClientsAgree(room: Room) {
    forall c :: c in room.clients ==> View(room.clients[c]) == room.doc
  }

  /** Stored updates always follow a snapshot. */
  ghost predicate Anchored(t: Tables) {
    forall id :: id in t.updates ==> id in t.rooms
  }

  ghost predicate OthersSound(cfg: Config, exact: bool, sys: System, id: DocumentId) {
    && Anchored(sys.tables)
    && forall o :: o in sys.rooms && o != id ==> RoomSound(cfg, exact, sys.tables, o, sys.rooms[o])
  }

  ghost predicate Sound(cfg: Config, exact: bool, sys: System) {
    && Anchored(sys.tables)
    && forall id :: id in sys.rooms ==> RoomSound(cfg, exact, sys.tables, id, sys.rooms[id])
  }

  /** What the step adds to a document. */
  function Added(cfg: Config, sys: System, e: Event, id: DocumentId): set<Update> {
    if !e.Crash? && e.id != id then {}
    else
      match e
      case Join(_, _, _, page) =>
        if id !in sys.rooms && id !in sys.tables.rooms then page.initial else if MergesOnJoin(sys, id, page) then Optional(page.edit) else {}
      case Message(_, c, update, _) => if Accepted(cfg, sys, id, c, update) then {update.value} else {}
      case DocumentWritten(_, source, edit) => if id in sys.rooms && source != sys.rooms[id].baseSource then Optional(edit) else {}
      case EndCheckpoint(_, edit) => if id in sys.rooms && sys.rooms[id].edited then Optional(edit) else {}
      case EndLateCheckpoint(_, room, edit) => if EndsLate(sys, id, room) then room.doc + Optional(edit) else {}
      case CrashInMessage(_, c, update, _) => if Accepted(cfg, sys, id, c, update) then {update.value} else {}
      case CrashInServerEdit(_, u) => if id in sys.rooms then {u} else {}
      case CrashInJoin(_, page) => if MergesOnJoin(sys, id, page) then Optional(page.edit) else {}
      case _ => {}
  }

  lemma SeenStep(frames: seq<Frame>, f: Frame)
    ensures Seen(frames + [f]) == Seen(frames) + Carried(f)
  {
  }

  /** A snapshot of a room whose clients agree with it puts that room right and leaves the others alone. */
  lemma SnapshotIsSound(cfg: Config, exact: bool, sys: System, id: DocumentId)
    requires id in sys.rooms && OthersSound(cfg, exact, sys, id) && ClientsAgree(sys.rooms[id])
    ensures Sound(cfg, exact, Snapshotted(cfg, sys, id))
    ensures Stored(Snapshotted(cfg, sys, id).tables, id) == sys.rooms[id].doc
    ensures forall o :: o != id ==> Stored(Snapshotted(cfg, sys, id).tables, o) == Stored(sys.tables, o)
  {
    var after := Snapshotted(cfg, sys, id);
    assert Snapshot(after.tables, id) == sys.rooms[id].doc && Pending(after.tables, id) == [];
    forall o | o != id
      ensures Stored(after.tables, o) == Stored(sys.tables, o)
      ensures o in sys.rooms ==> RoomSound(cfg, exact, after.tables, o, after.rooms[o])
    {
      OtherRowsStay(cfg, sys, id, o);
    }
  }

  lemma OtherRowsStay(cfg: Config, sys: System, id: DocumentId, o: DocumentId)
    requires id in sys.rooms && o != id
    ensures var after := Snapshotted(cfg, sys, id).tables;
      Snapshot(after, o) == Snapshot(sys.tables, o) && Pending(after, o) == Pending(sys.tables, o) && (o in after.rooms <==> o in sys.tables.rooms)
  {
  }

  /** Appending to one document keeps the other rooms right. */
  lemma AppendKeepsOthers(cfg: Config, exact: bool, sys: System, id: DocumentId, u: Update, room: Room)
    requires id in sys.tables.rooms && OthersSound(cfg, exact, sys, id)
    ensures OthersSound(cfg, exact, sys.(tables := Appended(sys.tables, id, u), rooms := sys.rooms[id := room]), id)
    ensures forall o :: Stored(Appended(sys.tables, id, u), o) == Stored(sys.tables, o) + (if o == id then {u} else {})
  {
  }

  lemma ToldView(clients: map<nat, Client>, u: Update, c: nat)
    requires c in clients
    ensures View(Told(clients, UpdateFrame(u), None)[c]) == View(clients[c]) + {u}
  {
    SeenStep(clients[c].sent, UpdateFrame(u));
  }

  lemma ToldAgree(room: Room, u: Update)
    requires ClientsAgree(room)
    ensures ClientsAgree(room.(doc := room.doc + {u}, clients := Told(room.clients, UpdateFrame(u), None)))
  {
    forall c | c in room.clients
      ensures View(Told(room.clients, UpdateFrame(u), None)[c]) == room.doc + {u}
    {
      ToldView(room.clients, u, c);
    }
  }

  lemma ServerEditAgrees(cfg: Config, exact: bool, sys: System, id: DocumentId, edit: Option<Update>)
    requires id in sys.rooms && id in sys.tables.rooms && OthersSound(cfg, exact, sys, id) && ClientsAgree(sys.rooms[id])
    ensures var after := ServerEdited(sys, id, edit);
      && id in after.rooms && OthersSound(cfg, exact, after, id) && ClientsAgree(after.rooms[id])
      && after.rooms[id].doc == sys.rooms[id].doc + Optional(edit)
      && after.rooms[id].clients.Keys == sys.rooms[id].clients.Keys
      && forall o :: o != id ==> Stored(after.tables, o) == Stored(sys.tables, o)
  {
    if edit.Some? {
      var room, after := sys.rooms[id], ServerEdited(sys, id, edit);
      AppendKeepsOthers(cfg, exact, sys, id, edit.value, after.rooms[id]);
      ToldAgree(room, edit.value);
    }
  }

  ghost predicate Grew(cfg: Config, exact: bool, sys: System, after: System, id: DocumentId, more: set<Update>) {
    && Sound(cfg, exact, after)
    && (exact ==> forall o :: Stored(after.tables, o) == Stored(sys.tables, o) + (if o == id then more else {}))
  }

  lemma MergeIsSound(cfg: Config, exact: bool, sys: System, id: DocumentId, source: string, edit: Option<Update>)
    requires id in sys.rooms && id in sys.tables.rooms && OthersSound(cfg, exact, sys, id) && ClientsAgree(sys.rooms[id])
    requires exact ==> sys.rooms[id].doc == Stored(sys.tables, id)
    ensures Grew(cfg, exact, sys, Merged(cfg, sys, id, source, edit), id, Optional(edit))
  {
    ServerEditAgrees(cfg, exact, sys, id, edit);
    var after := ServerEdited(sys, id, edit);
    SnapshotIsSound(cfg, exact, after.(rooms := after.rooms[id := after.rooms[id].(baseSource := source)]), id);
  }

  lemma OpenIsSound(cfg: Config, exact: bool, sys: System, id: DocumentId, page: Page)
    requires Sound(cfg, exact, sys)
    ensures Grew(cfg, exact, sys, Opened(cfg, sys, id, page), id, Added(cfg, sys, Join(id, 0, true, page), id))
  {
    if id !in sys.rooms {
      var persisted := id in sys.tables.rooms;
      var doc := if persisted then Stored(sys.tables, id) else page.initial;
      var baseSource := if persisted then sys.tables.rooms[id].baseSource else page.source;
      var after := sys.(rooms := sys.rooms[id := Room(doc, map[], baseSource, 0, 0, Recovered(sys.tables, id, page))]);
      if baseSource != page.source {
        MergeIsSound(cfg, exact, after, id, page.source, page.edit);
      } else {
        SnapshotIsSound(cfg, exact, after, id);
      }
    }
  }

  function WithClients(sys: System, id: DocumentId, clients: map<nat, Client>): System
    requires id in sys.rooms
  {
    sys.(rooms := sys.rooms[id := sys.rooms[id].(clients := clients)])
  }

  /** Only the connections of one room change, and they still agree with it. */
  lemma ClientsChange(cfg: Config, exact: bool, sys: System, id: DocumentId, clients: map<nat, Client>)
    requires Sound(cfg, exact, sys) && id in sys.rooms
    requires forall c :: c in clients ==> View(clients[c]) == sys.rooms[id].doc
    ensures Sound(cfg, exact, WithClients(sys, id, clients))
  {
  }

  lemma InitView(doc: set<Update>, readOnly: bool)
    ensures View(Client(readOnly, [Init(doc, readOnly)], {})) == doc
  {
    SeenStep([], Init(doc, readOnly));
    assert [] + [Init(doc, readOnly)] == [Init(doc, readOnly)];
  }

  lemma JoinIsSound(cfg: Config, exact: bool, sys: System, id: DocumentId, c: nat, readOnly: bool, page: Page)
    requires Sound(cfg, exact, sys)
    ensures Grew(cfg, exact, sys, Joined(cfg, sys, id, c, readOnly, page), id,
                 Added(cfg, sys, Join(id, c, readOnly, page), id))
  {
    OpenIsSound(cfg, exact, sys, id, page);
    var after := Opened(cfg, sys, id, page);
    var room := after.rooms[id];
    if Admitted(cfg, room, c) {
      InitView(room.doc, readOnly);
      ClientsChange(cfg, exact, after, id, room.clients[c := Client(readOnly, [Init(room.doc, readOnly)], {})]);
    }
  }

  lemma RelayAgrees(room: Room, c: nat, u: Update, msg: int)
    requires c in room.clients && ClientsAgree(room)
    ensures ClientsAgree(Relayed(room, c, u, msg))
  {
  }

  lemma AcceptIsSound(cfg: Config, exact: bool, sys: System, id: DocumentId, c: nat, u: Update, msg: int)
    requires Sound(cfg, exact, sys) && Accepted(cfg, sys, id, c, Some(u))
    ensures Grew(cfg, exact, sys, Received(cfg, sys, id, c, Some(u), msg), id, {u})
  {
    var room := Relayed(sys.rooms[id], c, u, msg);
    var after := sys.(tables := Appended(sys.tables, id, u), rooms := sys.rooms[id := room]);
    RelayAgrees(sys.rooms[id], c, u, msg);
    AppendKeepsOthers(cfg, exact, sys, id, u, room);
    if room.pendingBytes > cfg.compactAfter {
      SnapshotIsSound(cfg, exact, after, id);
    } else {
      assert RoomSound(cfg, exact, after.tables, id, room);
    }
  }

  lemma RefuseIsSound(cfg: Config, exact: bool, sys: System, id: DocumentId, c: nat, code: ErrorCode, msg: int)
    requires Sound(cfg, exact, sys) && Connected(sys, id, c)
    ensures Sound(cfg, exact, WithClients(sys, id, Reply(sys.rooms[id].clients, c, Refusal(code, msg))))
  {
    SeenStep(sys.rooms[id].clients[c].sent, Refusal(code, msg));
    ClientsChange(cfg, exact, sys, id, Reply(sys.rooms[id].clients, c, Refusal(code, msg)));
  }

  lemma ReceiveIsSound(cfg: Config, exact: bool, sys: System, id: DocumentId, c: nat, update: Option<Update>, msg: int)
    requires Sound(cfg, exact, sys)
    ensures Grew(cfg, exact, sys, Received(cfg, sys, id, c, update, msg), id, Added(cfg, sys, Message(id, c, update, msg), id))
  {
    if Connected(sys, id, c) {
      match Refused(cfg, sys.rooms[id], c, update)
      case Some(code) => RefuseIsSound(cfg, exact, sys, id, c, code, msg);
      case None => AcceptIsSound(cfg, exact, sys, id, c, update.value, msg);
    }
  }

  lemma LeaveIsSound(cfg: Config, exact: bool, sys: System, id: DocumentId, c: nat, readOnly: bool)
    requires Sound(cfg, exact, sys)
    ensures Grew(cfg, exact, sys, Left(sys, id, c), id, {}) && Grew(cfg, exact, sys, Rechecked(sys, id, c, readOnly), id, {})
  {
  }

  lemma SavingIsSound(cfg: Config, exact: bool, sys: System, e: Event)
    requires Sound(cfg, exact, sys) && (e.Unload? || e.DocumentWritten? || e.EndCheckpoint?)
    ensures Grew(cfg, exact, sys, Step(cfg, sys, e), e.id, Added(cfg, sys, e, e.id))
  {
    if e.id in sys.rooms {
      match e
      case Unload(id, timer) => SnapshotIsSound(cfg, exact, sys, id);
      case DocumentWritten(id, source, edit) => MergeIsSound(cfg, exact, sys, id, source, edit);
      case EndCheckpoint(id, edit) =>
        ServerEditAgrees(cfg, exact, sys, id, edit);
        SnapshotIsSound(cfg, exact, ServerEdited(sys, id, edit), id);
    }
  }

  lemma ClientStepIsSound(cfg: Config, exact: bool, sys: System, e: Event)
    requires Sound(cfg, exact, sys) && (e.Join? || e.Message? || e.Leave? || e.Recheck?)
    ensures Grew(cfg, exact, sys, Step(cfg, sys, e), e.id, Added(cfg, sys, e, e.id))
  {
    match e
    case Join(id, c, readOnly, page) => JoinIsSound(cfg, exact, sys, id, c, readOnly, page);
    case Message(id, c, update, msg) => ReceiveIsSound(cfg, exact, sys, id, c, update, msg);
    case Leave(id, c) => LeaveIsSound(cfg, exact, sys, id, c, true);
    case Recheck(id, c, readOnly) => LeaveIsSound(cfg, exact, sys, id, c, readOnly);
  }

  lemma MessageCrashIsSound(cfg: Config, exact: bool, sys: System, e: Event)
    requires Sound(cfg, exact, sys) && e.CrashInMessage?
    ensures Grew(cfg, exact, sys, Step(cfg, sys, e), e.id, Added(cfg, sys, e, e.id))
  {
  }

  lemma ServerEditCrashIsSound(cfg: Config, exact: bool, sys: System, e: Event)
    requires Sound(cfg, exact, sys) && e.CrashInServerEdit?
    ensures Grew(cfg, exact, sys, Step(cfg, sys, e), e.id, Added(cfg, sys, e, e.id))
  {
  }

  lemma JoinCrashIsSound(cfg: Config, exact: bool, sys: System, e: Event)
    requires Sound(cfg, exact, sys) && e.CrashInJoin?
    ensures Grew(cfg, exact, sys, Step(cfg, sys, e), e.id, Added(cfg, sys, e, e.id))
  {
  }

  lemma CrashIsSound(cfg: Config, exact: bool, sys: System, e: Event)
    requires Sound(cfg, exact, sys) && (e.CrashInMessage? || e.CrashInServerEdit? || e.CrashInJoin?)
    ensures Grew(cfg, exact, sys, Step(cfg, sys, e), e.id, Added(cfg, sys, e, e.id))
  {
    if e.CrashInMessage? {
      MessageCrashIsSound(cfg, exact, sys, e);
    } else if e.CrashInServerEdit? {
      ServerEditCrashIsSound(cfg, exact, sys, e);
    } else {
      JoinCrashIsSound(cfg, exact, sys, e);
    }
  }

  // Late checkpoints ------------------------------------------------------------------------------

  /** A late checkpoint writes nothing but what is stored already: all that is stored is in the captured room, and when the document
      has been opened again, that room holds no more than the captured one, in a snapshot. */
  predicate OnTime(cfg: Config, sys: System, id: DocumentId, room: Room, edit: Option<Update>) {
    var doc := room.doc + Optional(edit);
    if id !in sys.rooms then Stored(sys.tables, id) <= doc
    else
      var open := sys.rooms[id];
      open.doc == doc && open.pendingBytes == 0 && open.snapshotBytes == cfg.stateBytes(doc)
  }

  lemma LateTables(sys: System, id: DocumentId, room: Room, edit: Option<Update>)
    requires EndsLate(sys, id, room)
    ensures var after := LateCheckpointed(sys, id, room, edit);
      && Stored(after.tables, id) == Snapshot(after.tables, id) == room.doc + Optional(edit) && Pending(after.tables, id) == []
      && forall o :: o != id ==> Stored(after.tables, o) == Stored(sys.tables, o)
  {
  }

  lemma LateKeepsOthers(cfg: Config, exact: bool, sys: System, id: DocumentId, room: Room, edit: Option<Update>)
    requires Sound(cfg, exact, sys) && EndsLate(sys, id, room)
    ensures OthersSound(cfg, exact, LateCheckpointed(sys, id, room, edit), id)
  {
  }

  /** For every sound state and every late checkpoint: the rooms still hold what is stored and nothing stored is lost exactly when it
      is on time. */
  lemma LateCheckpointIsHarmlessExactly(cfg: Config, sys: System, id: DocumentId, room: Room, edit: Option<Update>)
    requires Sound(cfg, true, sys) && EndsLate(sys, id, room)
    ensures var after := LateCheckpointed(sys, id, room, edit);
      Sound(cfg, true, after) && Stored(sys.tables, id) <= Stored(after.tables, id) <==> OnTime(cfg, sys, id, room, edit)
  {
    var after := LateCheckpointed(sys, id, room, edit);
    LateTables(sys, id, room, edit);
    LateKeepsOthers(cfg, true, sys, id, room, edit);
    if id in sys.rooms {
      assert RoomSound(cfg, true, sys.tables, id, sys.rooms[id]);
    }
  }

  /** Right after the room was unloaded its late checkpoint is on time, whatever it fills in. */
  lemma PromptCheckpointIsOnTime(cfg: Config, sys: System, id: DocumentId, edit: Option<Update>)
    requires Sound(cfg, true, sys) && id in sys.rooms && sys.rooms[id].clients == map[]
    ensures var after, room := Unloaded(cfg, sys, id, true), Snapshotted(cfg, sys, id).rooms[id];
      (id, room) in after.retired && OnTime(cfg, after, id, room, edit)
  {
    SnapshotIsSound(cfg, true, sys, id);
  }

  lemma LateStepIsSound(cfg: Config, exact: bool, sys: System, e: Event)
    requires Sound(cfg, exact, sys) && e.EndLateCheckpoint? && (exact ==> OnTimeStep(cfg, sys, e))
    ensures Grew(cfg, exact, sys, Step(cfg, sys, e), e.id, Added(cfg, sys, e, e.id))
  {
    if EndsLate(sys, e.id, e.room) {
      LateTables(sys, e.id, e.room, e.edit);
      LateKeepsOthers(cfg, exact, sys, e.id, e.room, e.edit);
      if exact {
        LateCheckpointIsHarmlessExactly(cfg, sys, e.id, e.room, e.edit);
      }
    }
  }

  predicate OnTimeStep(cfg: Config, sys: System, e: Event) {
    e.EndLateCheckpoint? && EndsLate(sys, e.id, e.room) ==> OnTime(cfg, sys, e.id, e.room, e.edit)
  }

  /** Every late checkpoint of the run is on time. */
  ghost predicate OnTimeRun(cfg: Config, events: seq<Event>) {
    forall i :: 0 <= i < |events| ==> OnTimeStep(cfg, Run(cfg, events[..i]), events[i])
  }

  lemma OnTimeSoFar(cfg: Config, events: seq<Event>)
    requires events != [] && OnTimeRun(cfg, events)
    ensures OnTimeRun(cfg, events[..|events| - 1]) && OnTimeStep(cfg, Run(cfg, events[..|events| - 1]), events[|events| - 1])
  {
    var before := events[..|events| - 1];
    forall i | 0 <= i < |before|
      ensures OnTimeStep(cfg, Run(cfg, before[..i]), before[i])
    {
      assert before[..i] == events[..i] && before[i] == events[i];
    }
  }

  /** Every step keeps each client in agreement with its room; a late checkpoint that is on time, and every other step, also keeps
      each room equal to what is stored and adds to the documents exactly what it contributes. */
  lemma StepIsSound(cfg: Config, exact: bool, sys: System, e: Event)
    requires Sound(cfg, exact, sys) && (exact ==> OnTimeStep(cfg, sys, e))
    ensures Sound(cfg, exact, Step(cfg, sys, e))
    ensures exact ==> forall id :: Stored(Step(cfg, sys, e).tables, id) == Stored(sys.tables, id) + Added(cfg, sys, e, id)
  {
    if e.Join? || e.Message? || e.Leave? || e.Recheck? {
      ClientStepIsSound(cfg, exact, sys, e);
    } else if e.EndLateCheckpoint? {
      LateStepIsSound(cfg, exact, sys, e);
    } else if e.CrashInMessage? || e.CrashInServerEdit? || e.CrashInJoin? {
      CrashIsSound(cfg, exact, sys, e);
    } else if !e.Crash? {
      SavingIsSound(cfg, exact, sys, e);
    }
  }

  lemma {:induction false} RunIsSound(cfg: Config, exact: bool, events: seq<Event>)
    requires exact ==> OnTimeRun(cfg, events)
    ensures Sound(cfg, exact, Run(cfg, events))
  {
    if events == [] {
    } else {
      var n := |events| - 1;
      if exact {
        OnTimeSoFar(cfg, events);
      }
      RunIsSound(cfg, exact, events[..n]);
      StepIsSound(cfg, exact, Run(cfg, events[..n]), events[n]);
    }
  }

  // Acknowledged updates --------------------------------------------------------------------------

  /** The update is stored, and in the room when the page is open. */
  predicate Held(sys: System, a: (DocumentId, Update)) {
    a.1 in Stored(sys.tables, a.0) && (a.0 in sys.rooms ==> a.1 in sys.rooms[a.0].doc)
  }

  /** A late checkpoint that writes this update too, if it is one of its page. */
  predicate Catches(sys: System, e: Event, a: (DocumentId, Update)) {
    e.EndLateCheckpoint? && EndsLate(sys, e.id, e.room) && e.id == a.0 ==> a.1 in e.room.doc + Optional(e.edit)
  }

  lemma SnapshotHolds(cfg: Config, sys: System, id: DocumentId, a: (DocumentId, Update))
    requires id in sys.rooms && (if a.0 == id then a.1 in sys.rooms[id].doc else Held(sys, a))
    ensures Held(Snapshotted(cfg, sys, id), a)
  {
    if a.0 != id {
      OtherRowsStay(cfg, sys, id, a.0);
    }
  }

  lemma AppendHolds(sys: System, id: DocumentId, u: Update, a: (DocumentId, Update))
    requires a.1 in Stored(sys.tables, a.0) || a == (id, u)
    ensures a.1 in Stored(Appended(sys.tables, id, u), a.0)
  {
    if a == (id, u) {
      var rows := Pending(sys.tables, id) + [u];
      assert rows[|rows| - 1] == u;
    }
  }

  lemma ServerEditHolds(sys: System, id: DocumentId, edit: Option<Update>, a: (DocumentId, Update))
    requires id in sys.rooms && Held(sys, a)
    ensures Held(ServerEdited(sys, id, edit), a)
  {
    if edit.Some? {
      AppendHolds(sys, id, edit.value, a);
    }
  }

  lemma MergeHolds(cfg: Config, sys: System, id: DocumentId, source: string, edit: Option<Update>, a: (DocumentId, Update))
    requires id in sys.rooms && Held(sys, a)
    ensures Held(Merged(cfg, sys, id, source, edit), a)
  {
    ServerEditHolds(sys, id, edit, a);
    var after := ServerEdited(sys, id, edit);
    SnapshotHolds(cfg, after.(rooms := after.rooms[id := after.rooms[id].(baseSource := source)]), id, a);
  }

  lemma OpenHolds(cfg: Config, sys: System, id: DocumentId, page: Page, a: (DocumentId, Update))
    requires Anchored(sys.tables) && Held(sys, a)
    ensures Held(Opened(cfg, sys, id, page), a)
  {
    if id !in sys.rooms {
      var persisted := id in sys.tables.rooms;
      var doc := if persisted then Stored(sys.tables, id) else page.initial;
      var baseSource := if persisted then sys.tables.rooms[id].baseSource else page.source;
      var after := sys.(rooms := sys.rooms[id := Room(doc, map[], baseSource, 0, 0, Recovered(sys.tables, id, page))]);
      assert Held(after, a);
      if baseSource != page.source {
        MergeHolds(cfg, after, id, page.source, page.edit, a);
      } else {
        SnapshotHolds(cfg, after, id, a);
      }
    }
  }

  lemma ReceiveHolds(cfg: Config, sys: System, id: DocumentId, c: nat, update: Option<Update>, msg: int, a: (DocumentId, Update))
    requires Held(sys, a) || (Accepted(cfg, sys, id, c, update) && a == (id, update.value))
    ensures Held(Received(cfg, sys, id, c, update, msg), a)
  {
    if Accepted(cfg, sys, id, c, update) {
      AppendHolds(sys, id, update.value, a);
      var after := sys.(tables := Appended(sys.tables, id, update.value), rooms := sys.rooms[id := Relayed(sys.rooms[id], c, update.value, msg)]);
      assert Held(after, a);
      if after.rooms[id].pendingBytes > cfg.compactAfter {
        SnapshotHolds(cfg, after, id, a);
      }
    }
  }

  lemma ClientStepHolds(cfg: Config, sys: System, e: Event, a: (DocumentId, Update))
    requires Anchored(sys.tables) && Held(sys, a) && (e.Join? || e.Message? || e.Leave? || e.Recheck?)
    ensures Held(Step(cfg, sys, e), a)
  {
    match e
    case Join(id, c, readOnly, page) => OpenHolds(cfg, sys, id, page, a);
    case Message(id, c, update, msg) => ReceiveHolds(cfg, sys, id, c, update, msg, a);
    case Leave(id, c) =>
    case Recheck(id, c, readOnly) =>
  }

  lemma SavingHolds(cfg: Config, sys: System, e: Event, a: (DocumentId, Update))
    requires Held(sys, a) && (e.Unload? || e.DocumentWritten? || e.EndCheckpoint?)
    ensures Held(Step(cfg, sys, e), a)
  {
    if e.id in sys.rooms {
      match e
      case Unload(id, timer) => SnapshotHolds(cfg, sys, id, a);
      case DocumentWritten(id, source, edit) => MergeHolds(cfg, sys, id, source, edit, a);
      case EndCheckpoint(id, edit) =>
        ServerEditHolds(sys, id, edit, a);
        SnapshotHolds(cfg, ServerEdited(sys, id, edit), id, a);
    }
  }

  lemma CrashHolds(cfg: Config, sys: System, e: Event, a: (DocumentId, Update))
    requires (e.Crash? || e.CrashInMessage? || e.CrashInServerEdit? || e.CrashInJoin?) && (Held(sys, a) || a in Acks(cfg, sys, e))
    ensures Held(Step(cfg, sys, e), a)
  {
    match e
    case Crash =>
    case CrashInMessage(id, c, update, _) =>
      if Accepted(cfg, sys, id, c, update) {
        AppendHolds(sys, id, update.value, a);
      }
    case CrashInServerEdit(id, u) => AppendHolds(sys, id, u, a);
    case CrashInJoin(id, page) =>
      if page.edit.Some? {
        AppendHolds(sys, id, page.edit.value, a);
      }
  }

  /** No step loses a held update but a late checkpoint that does not catch it, and an acknowledged one is held. */
  lemma StepHolds(cfg: Config, sys: System, e: Event, a: (DocumentId, Update))
    requires Anchored(sys.tables)
    requires (Held(sys, a) && Catches(sys, e, a)) || a in Acks(cfg, sys, e)
    ensures Held(Step(cfg, sys, e), a)
  {
    if e.Message? {
      ReceiveHolds(cfg, sys, e.id, e.c, e.update, e.msg, a);
    } else if e.Join? || e.Leave? || e.Recheck? {
      ClientStepHolds(cfg, sys, e, a);
    } else if e.EndLateCheckpoint? {
      if EndsLate(sys, e.id, e.room) {
        LateTables(sys, e.id, e.room, e.edit);
      }
    } else if e.Unload? || e.DocumentWritten? || e.EndCheckpoint? {
      SavingHolds(cfg, sys, e, a);
    } else {
      CrashHolds(cfg, sys, e, a);
    }
  }

  /** The step writes every update acknowledged so far, if it is a late checkpoint of their page. */
  predicate CatchesAll(sys: System, e: Event, acks: set<(DocumentId, Update)>) {
    forall a :: a in acks ==> Catches(sys, e, a)
  }

  /** No late checkpoint of the run drops an update acknowledged before. */
  ghost predicate CatchingRun(cfg: Config, events: seq<Event>) {
    forall i :: 0 <= i < |events| ==> CatchesAll(Run(cfg, events[..i]), events[i], Acknowledged(cfg, events[..i]))
  }

  lemma CatchingSoFar(cfg: Config, events: seq<Event>, n: nat)
    requires n <= |events| && CatchingRun(cfg, events)
    ensures CatchingRun(cfg, events[..n])
  {
    var before := events[..n];
    forall i | 0 <= i < |before|
      ensures CatchesAll(Run(cfg, before[..i]), before[i], Acknowledged(cfg, before[..i]))
    {
      assert before[..i] == events[..i] && before[i] == events[i];
    }
  }

  lemma {:induction false} RunHolds(cfg: Config, events: seq<Event>, a: (DocumentId, Update))
    requires CatchingRun(cfg, events) && a in Acknowledged(cfg, events)
    ensures Held(Run(cfg, events), a)
  {
    var n := |events| - 1;
    var sys := Run(cfg, events[..n]);
    CatchingSoFar(cfg, events, n);
    RunIsSound(cfg, false, events[..n]);
    if a in Acknowledged(cfg, events[..n]) {
      RunHolds(cfg, events[..n], a);
      assert CatchesAll(sys, events[n], Acknowledged(cfg, events[..n]));
    }
    StepHolds(cfg, sys, events[n], a);
  }

  ghost predicate AllStored(sys: System, acks: set<(DocumentId, Update)>) {
    forall a :: a in acks ==> a.1 in Stored(sys.tables, a.0)
  }

  /** After each step of the run, every update acknowledged so far is stored. */
  ghost predicate AlwaysStored(cfg: Config, events: seq<Event>) {
    forall i :: 0 <= i <= |events| ==> AllStored(Run(cfg, events[..i]), Acknowledged(cfg, events[..i]))
  }

  lemma StoredExactlyWhenCaught(cfg: Config, events: seq<Event>)
    ensures AlwaysStored(cfg, events) <==> CatchingRun(cfg, events)
  {
    if CatchingRun(cfg, events) {
      forall i, a | 0 <= i <= |events| && a in Acknowledged(cfg, events[..i])
        ensures a.1 in Stored(Run(cfg, events[..i]).tables, a.0)
      {
        CatchingSoFar(cfg, events, i);
        RunHolds(cfg, events[..i], a);
      }
    }
    if AlwaysStored(cfg, events) {
      forall i | 0 <= i < |events|
        ensures CatchesAll(Run(cfg, events[..i]), events[i], Acknowledged(cfg, events[..i]))
      {
        assert AllStored(Run(cfg, events[..i + 1]), Acknowledged(cfg, events[..i + 1]));
        StoredMeansCaught(cfg, events, i);
      }
    }
  }

  lemma StoredMeansCaught(cfg: Config, events: seq<Event>, i: nat)
    requires i < |events| && AllStored(Run(cfg, events[..i + 1]), Acknowledged(cfg, events[..i + 1]))
    ensures CatchesAll(Run(cfg, events[..i]), events[i], Acknowledged(cfg, events[..i]))
  {
    var sys, e := Run(cfg, events[..i]), events[i];
    RunStep(cfg, events, i);
    AcksStep(cfg, events, i);
    if e.EndLateCheckpoint? && EndsLate(sys, e.id, e.room) {
      LateTables(sys, e.id, e.room, e.edit);
    }
  }

  lemma RunStep(cfg: Config, events: seq<Event>, i: nat)
    requires i < |events|
    ensures Run(cfg, events[..i + 1]) == Step(cfg, Run(cfg, events[..i]), events[i])
  {
    assert events[..i + 1][..i] == events[..i];
  }

  lemma AcksStep(cfg: Config, events: seq<Event>, i: nat)
    requires i < |events|
    ensures Acknowledged(cfg, events[..i + 1]) == Acknowledged(cfg, events[..i]) + Acks(cfg, Run(cfg, events[..i]), events[i])
  {
    assert events[..i + 1][..i] == events[..i];
  }

  // When a late checkpoint comes ------------------------------------------------------------------

  /** Step `j` unloads the room and leaves a checkpoint behind; `room` is that room, or what its checkpoints made of it. */
  ghost predicate LeftBehind(cfg: Config, events: seq<Event>, j: nat, id: DocumentId, room: Room) {
    && j < |events| && events[j] == Unload(id, true)
    && var sys := Run(cfg, events[..j]);
       id in sys.rooms && sys.rooms[id].clients == map[] && sys.rooms[id].doc <= room.doc
  }

  /** Every room a checkpoint is left for was unloaded at some step. */
  lemma {:induction false} RetiredWasUnloaded(cfg: Config, events: seq<Event>, id: DocumentId, room: Room) returns (j: nat)
    requires (id, room) in Run(cfg, events).retired
    ensures LeftBehind(cfg, events, j, id, room)
  {
    var n := |events| - 1;
    var sys, e := Run(cfg, events[..n]), events[n];
    if (id, room) in sys.retired {
      j := RetiredWasUnloaded(cfg, events[..n], id, room);
      assert events[..n][..j] == events[..j];
    } else {
      NewlyRetired(cfg, sys, e, id, room);
      if e.Unload? {
        j := n;
      } else {
        j := RetiredWasUnloaded(cfg, events[..n], id, e.room);
        assert events[..n][..j] == events[..j];
      }
    }
  }

  lemma NewlyRetired(cfg: Config, sys: System, e: Event, id: DocumentId, room: Room)
    requires (id, room) in Step(cfg, sys, e).retired && (id, room) !in sys.retired
    ensures e.Unload? || e.EndLateCheckpoint?
    ensures e.Unload? ==> e == Unload(id, true) && id in sys.rooms && sys.rooms[id].clients == map[] && sys.rooms[id].doc == room.doc
    ensures e.EndLateCheckpoint? ==> e.id == id && (id, e.room) in sys.retired && e.room.doc <= room.doc
  {
  }

  /** What was acknowledged was acknowledged at some step. */
  lemma {:induction false} AcknowledgedWhen(cfg: Config, events: seq<Event>, a: (DocumentId, Update)) returns (k: nat)
    requires a in Acknowledged(cfg, events)
    ensures k < |events| && a in Acks(cfg, Run(cfg, events[..k]), events[k])
  {
    var n := |events| - 1;
    if a in Acks(cfg, Run(cfg, events[..n]), events[n]) {
      k := n;
    } else {
      k := AcknowledgedWhen(cfg, events[..n], a);
      assert events[..n][..k] == events[..k];
    }
  }

  /** Every update of the page acknowledged after step `j` and before step `i` is in `doc`. */
  ghost predicate NothingNewBetween(cfg: Config, events: seq<Event>, j: nat, i: nat, id: DocumentId, doc: set<Update>)
    requires i <= |events|
  {
    forall k, u :: j < k < i && (id, u) in Acks(cfg, Run(cfg, events[..k]), events[k]) ==> u in doc
  }

  /** Step `i` ends a late checkpoint. */
  ghost predicate ComesLate(cfg: Config, events: seq<Event>, i: nat) {
    i < |events| && events[i].EndLateCheckpoint? && EndsLate(Run(cfg, events[..i]), events[i].id, events[i].room)
  }

  /** Step `j` left the checkpoint of step `i` behind. */
  ghost predicate LeftFor(cfg: Config, events: seq<Event>, j: nat, i: nat) {
    j < i < |events| && events[i].EndLateCheckpoint? && LeftBehind(cfg, events, j, events[i].id, events[i].room)
  }

  /** Nothing that the checkpoint of step `i` lacks was acknowledged since step `j`. */
  ghost predicate NothingNewSince(cfg: Config, events: seq<Event>, j: nat, i: nat) {
    i < |events| && events[i].EndLateCheckpoint?
      && NothingNewBetween(cfg, events, j, i, events[i].id, events[i].room.doc + Optional(events[i].edit))
  }

  /** A late checkpoint drops an acknowledged update exactly when one its room does not have was acknowledged since the unload. */
  lemma LateCheckpointDropsExactly(cfg: Config, events: seq<Event>, j: nat, i: nat)
    requires ComesLate(cfg, events, i) && CatchingRun(cfg, events[..i]) && LeftFor(cfg, events, j, i)
    ensures CatchesAll(Run(cfg, events[..i]), events[i], Acknowledged(cfg, events[..i])) <==> NothingNewSince(cfg, events, j, i)
  {
    var e := events[i];
    var doc := e.room.doc + Optional(e.edit);
    var acks := Acknowledged(cfg, events[..i]);
    if NothingNewBetween(cfg, events, j, i, e.id, doc) {
      forall a | a in acks && a.0 == e.id
        ensures a.1 in doc
      {
        NothingNewIsCaught(cfg, events, j, i, a, doc);
      }
    }
    if forall a :: a in acks && a.0 == e.id ==> a.1 in doc {
      AllInMeansNothingNew(cfg, events, j, i, e.id, doc);
    }
  }

  lemma AllInMeansNothingNew(cfg: Config, events: seq<Event>, j: nat, i: nat, id: DocumentId, doc: set<Update>)
    requires i <= |events| && forall a :: a in Acknowledged(cfg, events[..i]) && a.0 == id ==> a.1 in doc
    ensures NothingNewBetween(cfg, events, j, i, id, doc)
  {
    forall k, u | j < k < i && (id, u) in Acks(cfg, Run(cfg, events[..k]), events[k])
      ensures u in doc
    {
      AckIsNoted(cfg, events, k, (id, u));
      AckStays(cfg, events, k + 1, i, (id, u));
    }
  }

  lemma NothingNewIsCaught(cfg: Config, events: seq<Event>, j: nat, i: nat, a: (DocumentId, Update), doc: set<Update>)
    requires j < i <= |events| && CatchingRun(cfg, events[..i]) && events[j] == Unload(a.0, true)
    requires a.0 in Run(cfg, events[..j]).rooms && Run(cfg, events[..j]).rooms[a.0].doc <= doc
    requires NothingNewBetween(cfg, events, j, i, a.0, doc) && AcknowledgedBy(cfg, events, i, a)
    ensures a.1 in doc
  {
    var k := AcknowledgedBefore(cfg, events, i, a);
    if k <= j {
      AckInUnloadedRoom(cfg, events, j, k, i, a);
    }
  }

  lemma AcknowledgedBefore(cfg: Config, events: seq<Event>, i: nat, a: (DocumentId, Update)) returns (k: nat)
    requires AcknowledgedBy(cfg, events, i, a)
    ensures k < i && a in Acks(cfg, Run(cfg, events[..k]), events[k])
  {
    var before := events[..i];
    k := AcknowledgedWhen(cfg, before, a);
    assert before[..k] == events[..k];
  }

  /** If step `i` is a late checkpoint, nothing its room lacks was acknowledged since the unload that left it behind. */
  ghost predicate Prompt(cfg: Config, events: seq<Event>, i: nat) {
    ComesLate(cfg, events, i) ==> exists j: nat :: LeftFor(cfg, events, j, i) && NothingNewSince(cfg, events, j, i)
  }

  /** No late checkpoint of the run ends after an acknowledgement its room knows nothing of. */
  ghost predicate PromptRun(cfg: Config, events: seq<Event>) {
    forall i :: 0 <= i < |events| ==> Prompt(cfg, events, i)
  }

  lemma PromptStep(cfg: Config, events: seq<Event>, i: nat)
    requires i < |events| && CatchingRun(cfg, events[..i])
    ensures Prompt(cfg, events, i) <==> CatchesAll(Run(cfg, events[..i]), events[i], Acknowledged(cfg, events[..i]))
  {
    if ComesLate(cfg, events, i) {
      var unload := LeftForSome(cfg, events, i);
      forall j: nat | LeftFor(cfg, events, j, i)
        ensures NothingNewSince(cfg, events, j, i)
            <==> CatchesAll(Run(cfg, events[..i]), events[i], Acknowledged(cfg, events[..i]))
      {
        LateCheckpointDropsExactly(cfg, events, j, i);
      }
    }
  }

  lemma LeftForSome(cfg: Config, events: seq<Event>, i: nat) returns (j: nat)
    requires ComesLate(cfg, events, i)
    ensures LeftFor(cfg, events, j, i)
  {
    var before := events[..i];
    j := RetiredWasUnloaded(cfg, before, events[i].id, events[i].room);
    assert before[..j] == events[..j];
  }

  lemma {:induction false} CaughtSoFar(cfg: Config, events: seq<Event>, n: nat)
    requires n <= |events| && forall i :: 0 <= i < n ==> Prompt(cfg, events, i)
    ensures CatchingRun(cfg, events[..n])
  {
    if n > 0 {
      CaughtSoFar(cfg, events, n - 1);
      PromptStep(cfg, events, n - 1);
      CatchingExtends(cfg, events, n - 1);
    }
  }

  lemma CatchingExtends(cfg: Config, events: seq<Event>, n: nat)
    requires n < |events| && CatchingRun(cfg, events[..n])
    requires CatchesAll(Run(cfg, events[..n]), events[n], Acknowledged(cfg, events[..n]))
    ensures CatchingRun(cfg, events[..n + 1])
  {
    var longer, shorter := events[..n + 1], events[..n];
    forall i | 0 <= i < n + 1
      ensures CatchesAll(Run(cfg, longer[..i]), longer[i], Acknowledged(cfg, longer[..i]))
    {
      assert longer[..i] == events[..i];
      if i < n {
        assert shorter[..i] == events[..i] && shorter[i] == longer[i];
      }
    }
  }

  lemma PromptExactlyWhenCaught(cfg: Config, events: seq<Event>)
    ensures PromptRun(cfg, events) <==> CatchingRun(cfg, events)
  {
    if PromptRun(cfg, events) {
      CaughtSoFar(cfg, events, |events|);
      assert events[..|events|] == events;
    }
    if CatchingRun(cfg, events) {
      forall i | 0 <= i < |events|
        ensures Prompt(cfg, events, i)
      {
        CatchingSoFar(cfg, events, i);
        PromptStep(cfg, events, i);
      }
    }
  }

  /** For every run: every acknowledged update is stored after each of its steps, exactly when no late checkpoint ends after an
      acknowledgement its room knows nothing of. */
  lemma AcknowledgedAreStoredExactly(cfg: Config, events: seq<Event>)
    ensures AlwaysStored(cfg, events) <==> PromptRun(cfg, events)
  {
    StoredExactlyWhenCaught(cfg, events);
    PromptExactlyWhenCaught(cfg, events);
  }

  /** After any run without new acknowledgements ahead of a late checkpoint, with crashes, compactions, merges and unloads: whoever
      joins finds every acknowledged update in the room and in its first frame. */
  lemma AcknowledgedUpdatesAreReloaded(cfg: Config, events: seq<Event>, id: DocumentId, u: Update, c: nat, readOnly: bool, page: Page)
    requires PromptRun(cfg, events) && (id, u) in Acknowledged(cfg, events)
    ensures var room := Joined(cfg, Run(cfg, events), id, c, readOnly, page).rooms[id];
      && u in room.doc
      && (Admitted(cfg, Opened(cfg, Run(cfg, events), id, page).rooms[id], c)
          ==> c in room.clients && room.clients[c].sent == [Init(room.doc, readOnly)])
  {
    PromptExactlyWhenCaught(cfg, events);
    RunHolds(cfg, events, (id, u));
    RunIsSound(cfg, false, events);
    OpenHolds(cfg, Run(cfg, events), id, page, (id, u));
  }

  /** An unload acknowledges nothing itself. */
  lemma NotedBeforeUnload(cfg: Config, events: seq<Event>, j: nat, k: nat, a: (DocumentId, Update))
    requires k <= j < |events| && events[j].Unload? && a in Acks(cfg, Run(cfg, events[..k]), events[k])
    ensures AcknowledgedBy(cfg, events, j, a)
  {
    AckIsNoted(cfg, events, k, a);
    if k < j {
      AckStays(cfg, events, k + 1, j, a);
    }
  }

  lemma AckInUnloadedRoom(cfg: Config, events: seq<Event>, j: nat, k: nat, i: nat, a: (DocumentId, Update))
    requires k <= j < i <= |events| && CatchingRun(cfg, events[..i]) && events[j] == Unload(a.0, true)
    requires a in Acks(cfg, Run(cfg, events[..k]), events[k]) && a.0 in Run(cfg, events[..j]).rooms
    ensures a.1 in Run(cfg, events[..j]).rooms[a.0].doc
  {
    NotedBeforeUnload(cfg, events, j, k, a);
    CatchingSoFar(cfg, events[..i], j);
    assert events[..i][..j] == events[..j];
    RunHolds(cfg, events[..j], a);
  }

  predicate AcknowledgedBy(cfg: Config, events: seq<Event>, i: nat, a: (DocumentId, Update)) {
    i <= |events| && a in Acknowledged(cfg, events[..i])
  }

  lemma AcksGrow(cfg: Config, events: seq<Event>, i: nat, a: (DocumentId, Update))
    requires i < |events| && AcknowledgedBy(cfg, events, i, a)
    ensures AcknowledgedBy(cfg, events, i + 1, a)
  {
    AcksStep(cfg, events, i);
  }

  lemma AckIsNoted(cfg: Config, events: seq<Event>, i: nat, a: (DocumentId, Update))
    requires i < |events| && a in Acks(cfg, Run(cfg, events[..i]), events[i])
    ensures AcknowledgedBy(cfg, events, i + 1, a)
  {
    AcksStep(cfg, events, i);
  }

  /** What holds at `i` and is kept by each step up to `j` holds at `j`. */
  lemma {:induction false} KeptUpTo(holds: nat -> bool, i: nat, j: nat)
    requires i <= j && holds(i) && forall k: nat :: i <= k < j && holds(k) ==> holds(k + 1)
    ensures holds(j)
    decreases j
  {
    if i < j {
      KeptUpTo(holds, i, j - 1);
    }
  }

  /** What is acknowledged stays acknowledged. */
  lemma AckStays(cfg: Config, events: seq<Event>, i: nat, j: nat, a: (DocumentId, Update))
    requires i <= j <= |events| && AcknowledgedBy(cfg, events, i, a)
    ensures AcknowledgedBy(cfg, events, j, a)
  {
    forall k: nat | i <= k < j && AcknowledgedBy(cfg, events, k, a)
      ensures AcknowledgedBy(cfg, events, k + 1, a)
    {
      AcksGrow(cfg, events, k, a);
    }
    KeptUpTo((k: nat) => AcknowledgedBy(cfg, events, k, a), i, j);
  }

  /** Nobody opens the page, and no checkpoint of it ends. */
  predicate LeavesAlone(e: Event, id: DocumentId) {
    (e.Join? || e.CrashInJoin? || e.EndLateCheckpoint?) ==> e.id != id
  }

  /** Nobody has the page open, and `doc` is what is stored of it. */
  predicate ClosedWith(sys: System, id: DocumentId, doc: set<Update>) {
    id !in sys.rooms && Stored(sys.tables, id) == doc
  }

  /** Two states in which the page is closed, with the same rows. */
  predicate ClosedAlike(sys: System, after: System, id: DocumentId) {
    && id !in sys.rooms && id !in after.rooms
    && (id in after.tables.rooms <==> id in sys.tables.rooms) && (id in sys.tables.rooms ==> after.tables.rooms[id] == sys.tables.rooms[id])
    && Pending(after.tables, id) == Pending(sys.tables, id)
  }

  lemma OthersOpen(cfg: Config, sys: System, other: DocumentId, page: Page, id: DocumentId)
    requires id !in sys.rooms && other != id
    ensures ClosedAlike(sys, Opened(cfg, sys, other, page), id)
  {
  }

  lemma OthersJoin(cfg: Config, sys: System, e: Event, id: DocumentId, doc: set<Update>)
    requires ClosedWith(sys, id, doc) && e.Join? && e.id != id
    ensures ClosedWith(Step(cfg, sys, e), id, doc)
  {
    OthersOpen(cfg, sys, e.id, e.page, id);
  }

  lemma OthersAreWritten(cfg: Config, sys: System, e: Event, id: DocumentId, doc: set<Update>)
    requires ClosedWith(sys, id, doc) && (e.Message? || e.DocumentWritten? || e.EndCheckpoint?)
    ensures ClosedWith(Step(cfg, sys, e), id, doc)
  {
  }

  lemma OthersClose(cfg: Config, sys: System, e: Event, id: DocumentId, doc: set<Update>)
    requires ClosedWith(sys, id, doc) && (e.Unload? || e.Leave? || e.Recheck?)
    ensures ClosedWith(Step(cfg, sys, e), id, doc)
  {
  }

  lemma OthersCrash(cfg: Config, sys: System, e: Event, id: DocumentId, doc: set<Update>)
    requires ClosedWith(sys, id, doc) && LeavesAlone(e, id)
    requires e.Crash? || e.CrashInMessage? || e.CrashInServerEdit? || e.CrashInJoin?
    ensures ClosedWith(Step(cfg, sys, e), id, doc)
  {
  }

  lemma ClosedPageStays(cfg: Config, sys: System, e: Event, id: DocumentId, doc: set<Update>)
    requires ClosedWith(sys, id, doc) && LeavesAlone(e, id)
    ensures ClosedWith(Step(cfg, sys, e), id, doc)
  {
    if e.Join? {
      OthersJoin(cfg, sys, e, id, doc);
    } else if e.Message? || e.DocumentWritten? || e.EndCheckpoint? {
      OthersAreWritten(cfg, sys, e, id, doc);
    } else if e.Unload? || e.Leave? || e.Recheck? {
      OthersClose(cfg, sys, e, id, doc);
    } else if !e.EndLateCheckpoint? {
      OthersCrash(cfg, sys, e, id, doc);
    }
  }

  lemma ClosedPageStep(cfg: Config, events: seq<Event>, i: nat, id: DocumentId, doc: set<Update>)
    requires i < |events| && ClosedWith(Run(cfg, events[..i]), id, doc) && LeavesAlone(events[i], id)
    ensures ClosedWith(Run(cfg, events[..i + 1]), id, doc)
  {
    ClosedPageStays(cfg, Run(cfg, events[..i]), events[i], id, doc);
    RunStep(cfg, events, i);
  }

  lemma {:induction false} ClosedPageStaysClosed(cfg: Config, events: seq<Event>, j: nat, i: nat, id: DocumentId, doc: set<Update>)
    requires j <= i <= |events| && ClosedWith(Run(cfg, events[..j]), id, doc) && forall k :: j <= k < i ==> LeavesAlone(events[k], id)
    ensures ClosedWith(Run(cfg, events[..i]), id, doc)
    decreases i
  {
    if j < i {
      ClosedPageStaysClosed(cfg, events, j, i - 1, id, doc);
      ClosedPageStep(cfg, events, i - 1, id, doc);
    }
  }

  /** A late checkpoint is on time when nobody opened the page since the unload and no other checkpoint of it ended. */
  lemma UndisturbedCheckpointIsOnTime(cfg: Config, events: seq<Event>, j: nat, i: nat)
    requires j < i < |events| && events[i].EndLateCheckpoint? && LeftBehind(cfg, events, j, events[i].id, events[i].room)
    requires forall k :: j < k < i ==> LeavesAlone(events[k], events[i].id)
    ensures OnTimeStep(cfg, Run(cfg, events[..i]), events[i])
  {
    var id := events[i].id;
    RunStep(cfg, events, j);
    var doc := Run(cfg, events[..j]).rooms[id].doc;
    UnloadCloses(cfg, Run(cfg, events[..j]), id);
    ClosedPageStaysClosed(cfg, events, j + 1, i, id, doc);
  }

  /** Between the unload and the late checkpoint it left behind, everybody leaves the page alone. */
  ghost predicate Undisturbed(cfg: Config, events: seq<Event>, i: nat) {
    ComesLate(cfg, events, i) ==>
      exists j: nat :: LeftFor(cfg, events, j, i) && forall k :: j < k < i ==> LeavesAlone(events[k], events[i].id)
  }

  lemma UndisturbedRunIsOnTime(cfg: Config, events: seq<Event>)
    requires forall i :: 0 <= i < |events| ==> Undisturbed(cfg, events, i)
    ensures OnTimeRun(cfg, events)
  {
    forall i | 0 <= i < |events|
      ensures OnTimeStep(cfg, Run(cfg, events[..i]), events[i])
    {
      assert Undisturbed(cfg, events, i);
      if ComesLate(cfg, events, i) {
        var j: nat :| LeftFor(cfg, events, j, i) && forall k :: j < k < i ==> LeavesAlone(events[k], events[i].id);
        UndisturbedCheckpointIsOnTime(cfg, events, j, i);
      }
    }
  }

  lemma UnloadCloses(cfg: Config, sys: System, id: DocumentId)
    requires id in sys.rooms && sys.rooms[id].clients == map[]
    ensures ClosedWith(Unloaded(cfg, sys, id, true), id, sys.rooms[id].doc)
  {
  }

  // Clients ---------------------------------------------------------------------------------------

  /** After any run, what a client was sent and what of its own was acknowledged make up exactly the room's document; when late
      checkpoints were on time, that is exactly what is stored. */
  lemma ClientsShowTheDocument(cfg: Config, events: seq<Event>, id: DocumentId, c: nat)
    requires Connected(Run(cfg, events), id, c)
    ensures var sys := Run(cfg, events); View(sys.rooms[id].clients[c]) == sys.rooms[id].doc
    ensures OnTimeRun(cfg, events) ==> Run(cfg, events).rooms[id].doc == Stored(Run(cfg, events).tables, id)
  {
    RunIsSound(cfg, false, events);
    if OnTimeRun(cfg, events) {
      RunIsSound(cfg, true, events);
    }
  }

  function AfterMessage(cfg: Config, sys: System, id: DocumentId, c: nat, update: Option<Update>, msg: int): map<nat, Client>
    requires id in sys.rooms
  {
    Received(cfg, sys, id, c, update, msg).rooms[id].clients
  }

  lemma AcceptedIsHeard(cfg: Config, sys: System, id: DocumentId, c: nat, update: Option<Update>, msg: int, d: nat)
    requires Connected(sys, id, d) && Accepted(cfg, sys, id, c, update)
    ensures var after := Received(cfg, sys, id, c, update, msg);
      && id in after.rooms && update.value in after.rooms[id].doc && d in after.rooms[id].clients
      && after.rooms[id].clients[d].sent == sys.rooms[id].clients[d].sent + [if d == c then Ack(msg) else UpdateFrame(update.value)]
  {
  }

  lemma RefusedIsHeard(cfg: Config, sys: System, id: DocumentId, c: nat, update: Option<Update>, msg: int, d: nat)
    requires Connected(sys, id, c) && Connected(sys, id, d) && !Accepted(cfg, sys, id, c, update)
    ensures var after := Received(cfg, sys, id, c, update, msg);
      var before, refusal := sys.rooms[id].clients[d].sent, Refusal(Refused(cfg, sys.rooms[id], c, update).value, msg);
      && id in after.rooms && after.tables == sys.tables && after.rooms[id].doc == sys.rooms[id].doc && d in after.rooms[id].clients
      && after.rooms[id].clients[d].sent == if d == c then before + [refusal] else before
  {
  }

  /** In every state: the sender of a message hears exactly one frame: the acknowledgement when the update was accepted, by then in the
      room and stored, and otherwise a refusal that leaves the document as it was. Everyone else hears an accepted update once. */
  lemma EachHearsOneFrame(cfg: Config, sys: System, id: DocumentId, c: nat, update: Option<Update>, msg: int, d: nat)
    requires Connected(sys, id, c) && Connected(sys, id, d)
    ensures var before, heard := sys.rooms[id].clients[d].sent, AfterMessage(cfg, sys, id, c, update, msg)[d].sent;
      var after := Received(cfg, sys, id, c, update, msg);
      if Accepted(cfg, sys, id, c, update) then
        && heard == before + [if d == c then Ack(msg) else UpdateFrame(update.value)]
        && update.value in after.rooms[id].doc && update.value in Stored(after.tables, id)
      else
        && heard == (if d == c then before + [Refusal(Refused(cfg, sys.rooms[id], c, update).value, msg)] else before)
        && after.tables == sys.tables && after.rooms[id].doc == sys.rooms[id].doc
  {
    if Accepted(cfg, sys, id, c, update) {
      AcceptedIsHeard(cfg, sys, id, c, update, msg, d);
      ReceiveHolds(cfg, sys, id, c, update, msg, (id, update.value));
    } else {
      RefusedIsHeard(cfg, sys, id, c, update, msg, d);
    }
  }

  // Who may edit ----------------------------------------------------------------------------------

  /** Nothing happens but that one client hears one frame. */
  ghost predicate OnlyHears(sys: System, after: System, id: DocumentId, c: nat, frame: Frame)
    requires id in sys.rooms && c in sys.rooms[id].clients
  {
    var room := sys.rooms[id];
    after == sys.(rooms := sys.rooms[id := room.(clients := room.clients[c := room.clients[c].(sent := room.clients[c].sent + [frame])])])
  }

  /** The client may edit, the update is one, and the room has space for it. */
  ghost predicate MayEdit(cfg: Config, room: Room, c: nat, u: Update) {
    && c in room.clients && !room.clients[c].readOnly && cfg.valid(u)
    && room.snapshotBytes + room.pendingBytes + |u| <= cfg.maxRoomBytes
  }

  /** What every message of a connected client comes to: a viewer hears `read_only`, an editor without a readable update
      `bad_update`, one without space in the room `room_full`, and nothing else happens; everyone else is acknowledged. */
  lemma AnswerToMessage(cfg: Config, sys: System, id: DocumentId, c: nat, update: Option<Update>, msg: int)
    requires id in sys.rooms && c in sys.rooms[id].clients
    ensures var room, after := sys.rooms[id], Received(cfg, sys, id, c, update, msg);
      if room.clients[c].readOnly then OnlyHears(sys, after, id, c, Refusal(ReadOnly, msg))
      else if update.None? || !cfg.valid(update.value) then OnlyHears(sys, after, id, c, Refusal(BadUpdate, msg))
      else if !MayEdit(cfg, room, c, update.value) then OnlyHears(sys, after, id, c, Refusal(RoomFull, msg))
      else
        && id in after.rooms && c in after.rooms[id].clients && after.rooms[id].clients[c].sent == room.clients[c].sent + [Ack(msg)]
        && after.rooms[id].doc == room.doc + {update.value} && update.value in Stored(after.tables, id)
  {
    if update.Some? && MayEdit(cfg, sys.rooms[id], c, update.value) {
      AcceptedIsHeard(cfg, sys, id, c, update, msg, c);
      ReceiveHolds(cfg, sys, id, c, update, msg, (id, update.value));
    }
  }

  /** The step is a message with this update, of a client that may edit. */
  ghost predicate SentByEditor(cfg: Config, sys: System, e: Event, a: (DocumentId, Update)) {
    && (e.Message? || e.CrashInMessage?) && e.id == a.0 && e.update == Some(a.1)
    && e.id in sys.rooms && MayEdit(cfg, sys.rooms[e.id], e.c, a.1)
  }

  /** Over every run: an acknowledged update was sent by a client that could edit when it sent it. */
  lemma AcknowledgedWasAllowed(cfg: Config, events: seq<Event>, a: (DocumentId, Update)) returns (k: nat)
    requires a in Acknowledged(cfg, events)
    ensures k < |events| && SentByEditor(cfg, Run(cfg, events[..k]), events[k], a)
  {
    k := AcknowledgedWhen(cfg, events, a);
    AckIsAllowed(cfg, Run(cfg, events[..k]), events[k], a);
  }

  lemma AckIsAllowed(cfg: Config, sys: System, e: Event, a: (DocumentId, Update))
    requires a in Acks(cfg, sys, e)
    ensures SentByEditor(cfg, sys, e, a)
  {
  }

  /** A message of a client that is read-only when it sends it adds nothing to what is acknowledged, and nothing to what is stored. */
  lemma ViewerChangesNothing(cfg: Config, sys: System, e: Event)
    requires (e.Message? || e.CrashInMessage?) && e.id in sys.rooms && e.c in sys.rooms[e.id].clients && sys.rooms[e.id].clients[e.c].readOnly
    ensures Acks(cfg, sys, e) == {} && Step(cfg, sys, e).tables == sys.tables
  {
  }

  /** The step gives the client this right: it lets it join, or checks its access again. */
  ghost predicate Grants(e: Event, id: DocumentId, c: nat, readOnly: bool) {
    (e.Join? || e.Recheck?) && e.id == id && e.c == c && e.readOnly == readOnly
  }

  /** The client was connected before, with the same right. */
  ghost predicate HadRight(sys: System, id: DocumentId, c: nat, readOnly: bool) {
    id in sys.rooms && c in sys.rooms[id].clients && sys.rooms[id].clients[c].readOnly == readOnly
  }

  lemma RightsWhenOpened(cfg: Config, sys: System, o: DocumentId, page: Page, id: DocumentId, c: nat)
    requires Connected(Opened(cfg, sys, o, page), id, c)
    ensures HadRight(sys, id, c, Opened(cfg, sys, o, page).rooms[id].clients[c].readOnly)
  {
  }

  lemma RightsInJoin(cfg: Config, sys: System, e: Event, id: DocumentId, c: nat)
    requires e.Join? && Connected(Step(cfg, sys, e), id, c)
    ensures var right := Step(cfg, sys, e).rooms[id].clients[c].readOnly; Grants(e, id, c, right) || HadRight(sys, id, c, right)
  {
    if Connected(Opened(cfg, sys, e.id, e.page), id, c) {
      RightsWhenOpened(cfg, sys, e.id, e.page, id, c);
    }
  }

  lemma RightsInMessage(cfg: Config, sys: System, e: Event, id: DocumentId, c: nat)
    requires (e.Message? || e.Leave? || e.Unload?) && Connected(Step(cfg, sys, e), id, c)
    ensures HadRight(sys, id, c, Step(cfg, sys, e).rooms[id].clients[c].readOnly)
  {
  }

  lemma RightsInSave(cfg: Config, sys: System, e: Event, id: DocumentId, c: nat)
    requires (e.DocumentWritten? || e.EndCheckpoint? || e.EndLateCheckpoint?) && Connected(Step(cfg, sys, e), id, c)
    ensures HadRight(sys, id, c, Step(cfg, sys, e).rooms[id].clients[c].readOnly)
  {
  }

  lemma RightsInStep(cfg: Config, sys: System, e: Event, id: DocumentId, c: nat)
    requires Connected(Step(cfg, sys, e), id, c)
    ensures var right := Step(cfg, sys, e).rooms[id].clients[c].readOnly;
      Grants(e, id, c, right) || (HadRight(sys, id, c, right) && !(e.Recheck? && e.id == id && e.c == c))
  {
    if e.Join? {
      RightsInJoin(cfg, sys, e, id, c);
    } else if e.Message? || e.Leave? || e.Unload? {
      RightsInMessage(cfg, sys, e, id, c);
    } else if e.DocumentWritten? || e.EndCheckpoint? || e.EndLateCheckpoint? {
      RightsInSave(cfg, sys, e, id, c);
    }
  }

  /** After every run a client has the right it was last given: on joining, or when its access was checked again since. */
  lemma {:induction false} RightsWereGranted(cfg: Config, events: seq<Event>, id: DocumentId, c: nat) returns (k: nat)
    requires Connected(Run(cfg, events), id, c)
    ensures k < |events| && Grants(events[k], id, c, Run(cfg, events).rooms[id].clients[c].readOnly)
    ensures forall j :: k < j < |events| ==> !(events[j].Recheck? && events[j].id == id && events[j].c == c)
  {
    var n := |events| - 1;
    var right := Run(cfg, events).rooms[id].clients[c].readOnly;
    RightsInStep(cfg, Run(cfg, events[..n]), events[n], id, c);
    if Grants(events[n], id, c, right) {
      k := n;
    } else {
      k := RightsWereGranted(cfg, events[..n], id, c);
    }
  }

  // Coming and going ------------------------------------------------------------------------------

  /** Who joins hears the whole document and its right, and nobody else hears anything; a full room, or one in which the id is taken,
      lets nobody in. */
  lemma JoinLetsIn(cfg: Config, sys: System, id: DocumentId, c: nat, readOnly: bool, page: Page)
    ensures var loaded, after := Opened(cfg, sys, id, page), Joined(cfg, sys, id, c, readOnly, page);
      && id in loaded.rooms && id in after.rooms && after.tables == loaded.tables
      && var room, clients := loaded.rooms[id], after.rooms[id].clients;
         if |room.clients| >= cfg.maxClients || c in room.clients then clients == room.clients
         else clients == room.clients[c := Client(readOnly, [Init(after.rooms[id].doc, readOnly)], {})]
  {
  }

  predicate Ends(e: Event, id: DocumentId, c: nat) {
    e == Leave(id, c) || e.Crash? || e.CrashInMessage? || e.CrashInServerEdit? || e.CrashInJoin?
  }

  /** Still connected, and what was sent stays sent. */
  ghost predicate GoesOn(sys: System, after: System, id: DocumentId, c: nat)
    requires Connected(sys, id, c)
  {
    id in after.rooms && c in after.rooms[id].clients && sys.rooms[id].clients[c].sent <= after.rooms[id].clients[c].sent
  }

  lemma JoinKeepsClients(cfg: Config, sys: System, e: Event, id: DocumentId, c: nat)
    requires Connected(sys, id, c) && e.Join?
    ensures GoesOn(sys, Step(cfg, sys, e), id, c)
  {
  }

  lemma MessageKeepsClients(cfg: Config, sys: System, e: Event, id: DocumentId, c: nat)
    requires Connected(sys, id, c) && (e.Message? || e.Unload? || e.Recheck? || e.EndLateCheckpoint?)
    ensures GoesOn(sys, Step(cfg, sys, e), id, c)
  {
  }

  lemma SavingKeepsClients(cfg: Config, sys: System, e: Event, id: DocumentId, c: nat)
    requires Connected(sys, id, c) && (e.DocumentWritten? || e.EndCheckpoint?)
    ensures GoesOn(sys, Step(cfg, sys, e), id, c)
  {
  }

  /** A client stays connected, and what was sent to it stays sent, until it leaves or the process ends. */
  lemma ConnectedStays(cfg: Config, sys: System, e: Event, id: DocumentId, c: nat)
    requires Connected(sys, id, c) && !Ends(e, id, c)
    ensures GoesOn(sys, Step(cfg, sys, e), id, c)
  {
    if e.Join? {
      JoinKeepsClients(cfg, sys, e, id, c);
    } else if e.Message? || e.Unload? || e.Recheck? || e.EndLateCheckpoint? {
      MessageKeepsClients(cfg, sys, e, id, c);
    } else if e.DocumentWritten? || e.EndCheckpoint? {
      SavingKeepsClients(cfg, sys, e, id, c);
    }
  }

  /** And who leaves is gone, alone. */
  lemma LeaverIsGone(cfg: Config, sys: System, id: DocumentId, c: nat, d: nat)
    ensures Connected(Step(cfg, sys, Leave(id, c)), id, d) <==> Connected(sys, id, d) && d != c
  {
  }

  /** A room never has more clients than its limit. */
  lemma {:induction false} RoomsAreNotOverfull(cfg: Config, events: seq<Event>, id: DocumentId)
    ensures |ClientIds(Run(cfg, events), id)| <= cfg.maxClients
  {
    if events == [] {
    } else {
      var n := |events| - 1;
      RoomsAreNotOverfull(cfg, events[..n], id);
      ClientsInStep(cfg, Run(cfg, events[..n]), events[n], id);
    }
  }

  function ClientIds(sys: System, id: DocumentId): set<nat> {
    if id in sys.rooms then sys.rooms[id].clients.Keys else {}
  }

  lemma IdsInStep(cfg: Config, sys: System, e: Event, id: DocumentId)
    requires !e.Join?
    ensures ClientIds(Step(cfg, sys, e), id) <= ClientIds(sys, id)
  {
  }

  lemma IdsInJoin(cfg: Config, sys: System, e: Event, id: DocumentId)
    requires e.Join?
    ensures ClientIds(Step(cfg, sys, e), id) == ClientIds(sys, id)
      || (|ClientIds(sys, id)| < cfg.maxClients && ClientIds(Step(cfg, sys, e), id) == ClientIds(sys, id) + {e.c})
  {
    assert ClientIds(Opened(cfg, sys, e.id, e.page), id) == ClientIds(sys, id);
  }

  lemma SmallerSet(a: set<nat>, b: set<nat>)
    requires a <= b
    ensures |a| <= |b|
  {
    assert b == a + (b - a);
  }

  lemma ClientsInStep(cfg: Config, sys: System, e: Event, id: DocumentId)
    requires |ClientIds(sys, id)| <= cfg.maxClients
    ensures |ClientIds(Step(cfg, sys, e), id)| <= cfg.maxClients
  {
    if e.Join? {
      IdsInJoin(cfg, sys, e, id);
    } else {
      IdsInStep(cfg, sys, e, id);
      SmallerSet(ClientIds(Step(cfg, sys, e), id), ClientIds(sys, id));
    }
  }

  // Edits of the server ---------------------------------------------------------------------------

  /** The room holds what it held and the edit, every client heard of the edit once if there is one, and all of it is in a snapshot. */
  ghost predicate EditedAndSaved(sys: System, after: System, id: DocumentId, edit: Option<Update>, source: string)
    requires id in sys.rooms
  {
    var room := sys.rooms[id];
    && after.rooms.Keys == sys.rooms.Keys && after.retired == sys.retired
    && (forall o :: o in sys.rooms && o != id ==> after.rooms[o] == sys.rooms[o])
    && after.rooms[id].doc == room.doc + Optional(edit) && after.rooms[id].baseSource == source && after.rooms[id].pendingBytes == 0
    && after.rooms[id].edited == room.edited && after.rooms[id].clients.Keys == room.clients.Keys
    && (forall c :: c in room.clients ==>
          after.rooms[id].clients[c] == room.clients[c].(sent := room.clients[c].sent + if edit.Some? then [UpdateFrame(edit.value)] else []))
    && after.tables == Tables(sys.tables.rooms[id := RoomRow(room.doc + Optional(edit), source)], sys.tables.updates - {id})
  }

  /** An edit of the server's is stored before anything else comes of it: a crash right behind it finds it stored; and it counts towards
      what is pending. */
  lemma ServerEditIsStored(cfg: Config, sys: System, id: DocumentId, u: Update)
    requires id in sys.rooms
    ensures var after := ServerEdited(sys, id, Some(u));
      && after.tables == Step(cfg, sys, CrashInServerEdit(id, u)).tables && u in Stored(after.tables, id)
      && Pending(after.tables, id) == Pending(sys.tables, id) + [u] && after.tables.rooms == sys.tables.rooms
      && id in after.rooms && after.rooms[id].pendingBytes == sys.rooms[id].pendingBytes + |u|
    ensures ServerEdited(sys, id, None) == sys
  {
  }

  /** A write from outside is merged into an open room exactly when the room does not have its source yet. */
  lemma OutsideWriteIsMerged(cfg: Config, sys: System, id: DocumentId, source: string, edit: Option<Update>)
    ensures var after := Written(cfg, sys, id, source, edit);
      if id in sys.rooms && sys.rooms[id].baseSource != source then EditedAndSaved(sys, after, id, edit, source) else after == sys
  {
  }

  /** A checkpoint of an open room that knows an editor leaves the room's ids filled in, told and saved; of any other room, nothing. */
  lemma CheckpointIsSaved(cfg: Config, sys: System, id: DocumentId, edit: Option<Update>)
    ensures var after := Checkpointed(cfg, sys, id, edit);
      if id in sys.rooms && sys.rooms[id].edited then EditedAndSaved(sys, after, id, edit, sys.rooms[id].baseSource) else after == sys
  {
  }

  /** A checkpoint of a room that was unloaded saves that room and its filled in ids over the page's rows if it knows an editor, and lives
      on with them; it touches no open room. Of any other room nothing is saved. */
  lemma LateCheckpointIsSaved(sys: System, id: DocumentId, room: Room, edit: Option<Update>)
    ensures var after := LateCheckpointed(sys, id, room, edit);
      if (id, room) in sys.retired && room.edited then
        && after.rooms == sys.rooms
        && after.tables == Tables(sys.tables.rooms[id := RoomRow(room.doc + Optional(edit), room.baseSource)], sys.tables.updates - {id})
        && after.retired == sys.retired - {(id, room)} + {(id, room.(doc := room.doc + Optional(edit)))}
      else after == sys
  {
  }

  /** A room is unloaded when its last client has left, saved as it was; a checkpoint that is still to come keeps hold of it. */
  lemma UnloadIsSaved(cfg: Config, sys: System, id: DocumentId, timer: bool)
    ensures var after := Unloaded(cfg, sys, id, timer);
      if id in sys.rooms && sys.rooms[id].clients == map[] then
        var room := sys.rooms[id];
        && after.rooms == sys.rooms - {id}
        && after.tables == Tables(sys.tables.rooms[id := RoomRow(room.doc, room.baseSource)], sys.tables.updates - {id})
        && after.retired == sys.retired + if timer then {(id, room.(pendingBytes := 0, snapshotBytes := cfg.stateBytes(room.doc)))} else {}
      else after == sys
  {
  }

  predicate HasEditor(sys: System, id: DocumentId) {
    id in sys.rooms && sys.rooms[id].edited
  }

  lemma EditorOnOpening(cfg: Config, sys: System, o: DocumentId, page: Page, id: DocumentId)
    ensures HasEditor(Opened(cfg, sys, o, page), id) <==>
      HasEditor(sys, id) || (o == id && id !in sys.rooms && id in sys.tables.rooms && Pending(sys.tables, id) != [] && page.authored)
  {
  }

  lemma EditorOnJoining(cfg: Config, sys: System, e: Event, id: DocumentId)
    requires e.Join?
    ensures HasEditor(Step(cfg, sys, e), id) <==> HasEditor(Opened(cfg, sys, e.id, e.page), id)
  {
  }

  lemma EditorOnMessage(cfg: Config, sys: System, e: Event, id: DocumentId)
    requires e.Message?
    ensures HasEditor(Step(cfg, sys, e), id) <==>
      HasEditor(sys, id) || (e.id == id && id in sys.rooms && e.update.Some? && MayEdit(cfg, sys.rooms[id], e.c, e.update.value))
  {
  }

  lemma EditorOnSaving(cfg: Config, sys: System, e: Event, id: DocumentId)
    requires e.DocumentWritten? || e.EndCheckpoint?
    ensures HasEditor(Step(cfg, sys, e), id) <==> HasEditor(sys, id)
  {
    if e.DocumentWritten? {
      OutsideWriteIsMerged(cfg, sys, e.id, e.source, e.edit);
    } else {
      CheckpointIsSaved(cfg, sys, e.id, e.edit);
    }
  }

  /** A room knows an editor from the first update it accepts, or from the start when it was opened with stored updates whose last
      author may still edit. */
  lemma EditorIsKnown(cfg: Config, sys: System, e: Event, id: DocumentId)
    requires id in Step(cfg, sys, e).rooms
    ensures HasEditor(Step(cfg, sys, e), id) <==>
      || HasEditor(sys, id)
      || (e.Message? && e.id == id && id in sys.rooms && e.update.Some? && MayEdit(cfg, sys.rooms[id], e.c, e.update.value))
      || (e.Join? && e.id == id && id !in sys.rooms && id in sys.tables.rooms && Pending(sys.tables, id) != [] && e.page.authored)
  {
    if e.Join? {
      EditorOnJoining(cfg, sys, e, id);
      EditorOnOpening(cfg, sys, e.id, e.page, id);
    } else if e.Message? {
      EditorOnMessage(cfg, sys, e, id);
    } else if e.DocumentWritten? || e.EndCheckpoint? {
      EditorOnSaving(cfg, sys, e, id);
    }
  }

  /** A room is never further than the compaction limit from its snapshot. */
  lemma PendingIsBounded(cfg: Config, events: seq<Event>, id: DocumentId)
    requires id in Run(cfg, events).rooms
    ensures Bytes(Pending(Run(cfg, events).tables, id)) <= cfg.compactAfter
  {
    RunIsSound(cfg, false, events);
  }

  // ---------------------------------------------------------------------------------------------
  // A checkpoint that comes too late
  // ---------------------------------------------------------------------------------------------

  const SMALL := Config(10, 1_000, 10_000, _ => true, (_: set<Update>) => 0)

  const EDIT: Update := [1]

  const FIRST: Update := [2]

  function PageOf(source: string): Page {
    Page(source, {}, None, true)
  }

  /** The room of page `p` once its only client, who edited it, has left and a write from outside has been merged into it. */
  const EMPTIED := Room({FIRST}, map[], "new", 0, 0, true)

  /** An editor opens a page, edits it and leaves; the page is written from outside before the final checkpoint ends; the room is
      unloaded with a checkpoint scheduled; a second editor opens the page, and an update of theirs is acknowledged; the scheduled
      checkpoint saves the old room's source, which is merged into the new room, and then snapshots the old room over the page's
      rows; the process crashes. */
  function LateRun(): seq<Event> {
    [Join("p", 1, false, PageOf("text")), Message("p", 1, Some(FIRST), 1), Leave("p", 1), DocumentWritten("p", "new", None),
     Unload("p", true), Join("p", 2, false, PageOf("new")), Message("p", 2, Some(EDIT), 7), DocumentWritten("p", "saved", None),
     EndLateCheckpoint("p", EMPTIED, None), Crash]
  }

  // The states of the run, one after another.

  function Opening(): System {
    System(Tables(map["p" := RoomRow({}, "text")], map[]), map["p" := Alone(1, {}, "text")], {})
  }

  function Alone(c: nat, doc: set<Update>, source: string): Room {
    Room(doc, map[c := Client(false, [Init(doc, false)], {})], source, 0, 0, false)
  }

  function Edited(): System {
    System(Tables(map["p" := RoomRow({}, "text")], map["p" := [FIRST]]), map["p" := Relayed(Alone(1, {}, "text"), 1, FIRST, 1)], {})
  }

  function Deserted(): System {
    Edited().(rooms := map["p" := Room({FIRST}, map[], "text", 1, 0, true)])
  }

  function Rewritten(): System {
    System(Tables(map["p" := RoomRow({FIRST}, "new")], map[]), map["p" := EMPTIED], {})
  }

  function Emptied(): System {
    System(Rewritten().tables, map[], {("p", EMPTIED)})
  }

  function Reopened(): System {
    Emptied().(rooms := map["p" := Alone(2, {FIRST}, "new")])
  }

  function Typed(): System {
    System(Tables(map["p" := RoomRow({FIRST}, "new")], map["p" := [EDIT]]),
           map["p" := Relayed(Alone(2, {FIRST}, "new"), 2, EDIT, 7)], {("p", EMPTIED)})
  }

  function Saved(): System {
    var room := Typed().rooms["p"];
    System(Tables(map["p" := RoomRow({FIRST, EDIT}, "saved")], map[]),
           map["p" := room.(baseSource := "saved", pendingBytes := 0, snapshotBytes := 0)], {("p", EMPTIED)})
  }

  function Overwritten(): System {
    Saved().(tables := Rewritten().tables)
  }

  function Crashed(): System {
    System(Rewritten().tables, map[], {})
  }

  lemma FirstEditorJoins()
    ensures Step(SMALL, Nothing(), Join("p", 1, false, PageOf("text"))) == Opening()
  {
    var sys := Nothing();
    assert Opened(SMALL, sys, "p", PageOf("text")) == Opening().(rooms := map["p" := Room({}, map[], "text", 0, 0, false)]);
  }

  lemma FirstEditorWrites()
    ensures Step(SMALL, Opening(), Message("p", 1, Some(FIRST), 1)) == Edited()
  {
    var room := Opening().rooms["p"];
    assert room == Alone(1, {}, "text") && 1 in room.clients && |FIRST| == 1;
    assert Refused(SMALL, room, 1, Some(FIRST)) == None;
    assert Relayed(room, 1, FIRST, 1).pendingBytes == 1;
    assert Pending(Opening().tables, "p") + [FIRST] == [FIRST];
  }

  lemma FirstEditorLeaves()
    ensures Step(SMALL, Edited(), Leave("p", 1)) == Deserted()
  {
    var room := Edited().rooms["p"];
    assert room.doc == {FIRST} && room.pendingBytes == 1 && room.edited && room.snapshotBytes == 0 && room.baseSource == "text";
    assert room.clients - {1} == map[];
  }

  lemma PageIsRewritten()
    ensures Step(SMALL, Deserted(), DocumentWritten("p", "new", None)) == Rewritten()
  {
    assert "new" != "text" by {
      assert "new"[0] == 'n';
    }
  }

  lemma RoomIsUnloaded()
    ensures Step(SMALL, Rewritten(), Unload("p", true)) == Emptied()
  {
    var after := Snapshotted(SMALL, Rewritten(), "p");
    assert after.rooms["p"] == EMPTIED;
  }

  lemma SecondEditorJoins()
    ensures Step(SMALL, Emptied(), Join("p", 2, false, PageOf("new"))) == Reopened()
  {
    var sys := Emptied();
    assert Stored(sys.tables, "p") == {FIRST} && Pending(sys.tables, "p") == [];
    assert Opened(SMALL, sys, "p", PageOf("new")) == sys.(rooms := map["p" := Room({FIRST}, map[], "new", 0, 0, false)]);
  }

  lemma SecondEditorWrites()
    ensures Step(SMALL, Reopened(), Message("p", 2, Some(EDIT), 7)) == Typed()
    ensures Acks(SMALL, Reopened(), Message("p", 2, Some(EDIT), 7)) == {("p", EDIT)}
  {
    var sys := Reopened();
    var room := sys.rooms["p"];
    assert room == Alone(2, {FIRST}, "new") && 2 in room.clients && |EDIT| == 1;
    assert Refused(SMALL, room, 2, Some(EDIT)) == None;
    assert Relayed(room, 2, EDIT, 7).pendingBytes == 1;
    assert Pending(sys.tables, "p") + [EDIT] == [EDIT];
  }

  lemma OldSourceIsMerged()
    ensures Step(SMALL, Typed(), DocumentWritten("p", "saved", None)) == Saved()
  {
    var room := Typed().rooms["p"];
    assert room.baseSource == "new" && room.doc == {FIRST, EDIT};
    assert "new" != "saved" by {
      assert "new"[0] == 'n';
    }
  }

  lemma OldRoomIsSnapshotted()
    ensures Step(SMALL, Saved(), EndLateCheckpoint("p", EMPTIED, None)) == Overwritten()
  {
    assert EMPTIED.doc + Optional(None) == {FIRST};
    assert EMPTIED.(doc := {FIRST}) == EMPTIED;
  }

  /** From state to state. */
  lemma NextState(cfg: Config, events: seq<Event>, i: nat, sys: System, e: Event, next: System)
    requires i < |events| && Run(cfg, events[..i]) == sys && events[i] == e && Step(cfg, sys, e) == next
    ensures Run(cfg, events[..i + 1]) == next
  {
    RunStep(cfg, events, i);
  }

  // One lemma a step. `events` stands for the run above; taking it as a parameter keeps the verifier from unrolling it.

  lemma RunOpens(events: seq<Event>)
    requires events == LateRun()
    ensures Run(SMALL, events[..1]) == Opening()
  {
    assert events[..0] == [];
    FirstEditorJoins();
    NextState(SMALL, events, 0, Nothing(), Join("p", 1, false, PageOf("text")), Opening());
  }

  lemma RunEdits(events: seq<Event>)
    requires events == LateRun()
    ensures Run(SMALL, events[..2]) == Edited()
  {
    RunOpens(events);
    FirstEditorWrites();
    NextState(SMALL, events, 1, Opening(), Message("p", 1, Some(FIRST), 1), Edited());
  }

  lemma RunDeserts(events: seq<Event>)
    requires events == LateRun()
    ensures Run(SMALL, events[..3]) == Deserted()
  {
    RunEdits(events);
    FirstEditorLeaves();
    NextState(SMALL, events, 2, Edited(), Leave("p", 1), Deserted());
  }

  lemma RunRewrites(events: seq<Event>)
    requires events == LateRun()
    ensures Run(SMALL, events[..4]) == Rewritten()
  {
    RunDeserts(events);
    PageIsRewritten();
    NextState(SMALL, events, 3, Deserted(), DocumentWritten("p", "new", None), Rewritten());
  }

  lemma RunUnloads(events: seq<Event>)
    requires events == LateRun()
    ensures Run(SMALL, events[..5]) == Emptied()
  {
    RunRewrites(events);
    RoomIsUnloaded();
    NextState(SMALL, events, 4, Rewritten(), Unload("p", true), Emptied());
  }

  lemma RunReopens(events: seq<Event>)
    requires events == LateRun()
    ensures Run(SMALL, events[..6]) == Reopened()
  {
    RunUnloads(events);
    SecondEditorJoins();
    NextState(SMALL, events, 5, Emptied(), Join("p", 2, false, PageOf("new")), Reopened());
  }

  lemma RunTypes(events: seq<Event>)
    requires events == LateRun()
    ensures Run(SMALL, events[..7]) == Typed()
  {
    RunReopens(events);
    SecondEditorWrites();
    NextState(SMALL, events, 6, Reopened(), Message("p", 2, Some(EDIT), 7), Typed());
  }

  lemma RunSaves(events: seq<Event>)
    requires events == LateRun()
    ensures Run(SMALL, events[..8]) == Saved()
  {
    RunTypes(events);
    OldSourceIsMerged();
    NextState(SMALL, events, 7, Typed(), DocumentWritten("p", "saved", None), Saved());
  }

  lemma RunOverwrites(events: seq<Event>)
    requires events == LateRun()
    ensures Run(SMALL, events[..9]) == Overwritten()
  {
    RunSaves(events);
    OldRoomIsSnapshotted();
    NextState(SMALL, events, 8, Saved(), EndLateCheckpoint("p", EMPTIED, None), Overwritten());
  }

  lemma RunCrashes(events: seq<Event>)
    requires events == LateRun()
    ensures Run(SMALL, events) == Crashed()
  {
    RunOverwrites(events);
    NextState(SMALL, events, 9, Overwritten(), Crash, Crashed());
    assert events[..10] == events;
  }

  lemma RunAcknowledges(events: seq<Event>)
    requires events == LateRun()
    ensures AcknowledgedBy(SMALL, events, 7, ("p", EDIT))
  {
    RunReopens(events);
    SecondEditorWrites();
    AckIsNoted(SMALL, events, 6, ("p", EDIT));
  }

  lemma StaysAcknowledged(cfg: Config, events: seq<Event>, i: nat, a: (DocumentId, Update))
    requires AcknowledgedBy(cfg, events, i, a)
    ensures a in Acknowledged(cfg, events)
  {
    AckStays(cfg, events, i, |events|, a);
    assert events[..|events|] == events;
  }

  lemma CrashedHoldsFirst(sys: System)
    requires sys == Crashed()
    ensures Stored(sys.tables, "p") == {FIRST} && Joined(SMALL, sys, "p", 3, false, PageOf("new")).rooms["p"].doc == {FIRST}
  {
    JoinFindsStored(SMALL, sys, "p", 3, PageOf("new"));
  }

  /** The acknowledged update is lost: nothing stored holds it, and whoever opens the page does not find it. */
  lemma LateCheckpointLosesUpdate(events: seq<Event>)
    requires events == LateRun()
    ensures var after := Run(SMALL, events);
      && ("p", EDIT) in Acknowledged(SMALL, events)
      && EDIT !in Stored(after.tables, "p")
      && EDIT !in Joined(SMALL, after, "p", 3, false, PageOf("new")).rooms["p"].doc
  {
    RunCrashes(events);
    RunAcknowledges(events);
    StaysAcknowledged(SMALL, events, 7, ("p", EDIT));
    CrashedHoldsFirst(Run(SMALL, events));
    assert EDIT[0] != FIRST[0];
  }

  lemma JoinFindsStored(cfg: Config, sys: System, id: DocumentId, c: nat, page: Page)
    requires id !in sys.rooms && id in sys.tables.rooms && sys.tables.rooms[id].baseSource == page.source
    ensures Joined(cfg, sys, id, c, false, page).rooms[id].doc == Stored(sys.tables, id)
  {
  }
}
