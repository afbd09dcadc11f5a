/**
 Two-way sync between a directory of `.noma` files and a space that other writers edit meanwhile.

 A run reads the page manifest, scans the directory, settles every page and then every file that no
 page claims. The server may change between any two of its requests, and any request may fail:
 `others(k)` holds what the other writers do just before request number `k`, `faults(k)` what becomes
 of the request itself, and the theorems quantify over both.
 */
module Sync {
  import opened Wrappers
  import opened Text
  import opened Frontmatter
  import opened Revisions

  type Path = string

  // ---------------------------------------------------------------------------------------------
  // The server
  // ---------------------------------------------------------------------------------------------

  /** Code the model does not look into. `stored` is the source the server keeps for a submitted one: it adds fresh ids to tasks without one. */
  datatype Library = Library(
    sha: string -> string,
    newId: nat -> Id,
    stored: (nat, string) -> string,
    title: (string, string) -> string,
    labelText: string -> seq<string>)

  datatype Author = TheClient | AnotherWriter

  /** An accepted write: the hash of the head it replaced and the hash its writer expected, if any; the source that was sent and the one kept. */
  datatype Change = Change(author: Author, id: Id, replaced: Option<string>, expected: Option<string>, sent: string, kept: string)

  /** `log` holds every accepted PUT and POST. */
  datatype Server = Server(store: Store, writes: nat, log: seq<Change>)

  datatype Put = PutDone(server: Server, hash: string) | PutConflict | PutFailed

  function NewHead(lib: Library, writes: nat, source: string, oldTitle: string): Head {
    var kept := lib.stored(writes, source);
    Head(lib.title(kept, oldTitle), kept, lib.sha(kept))
  }

  /** PUT of a page: an empty source or an unknown page is an error, another head a conflict. */
  function PutDocument(lib: Library, sv: Server, author: Author, id: Id, source: string, expected: string): Put {
    if Trim(source) == "" || id !in sv.store.heads then PutFailed
    else
      var next := NewHead(lib, sv.writes, source, sv.store.heads[id].title);
      match Written(sv.store, id, next, Some(expected))
      case None => PutConflict
      case Some(store) =>
        var change := Change(author, id, Some(sv.store.heads[id].hash), Some(expected), source, next.source);
        PutDone(Server(store, sv.writes + 1, sv.log + [change]), next.hash)
  }

  datatype Post = PostDone(server: Server, id: Id, hash: string) | PostFailed

  /** POST of a new page under an id the server draws. */
  function PostDocument(lib: Library, sv: Server, author: Author, source: string): Post {
    var id := lib.newId(sv.writes);
    if Trim(source) == "" || id in sv.store.heads then PostFailed
    else
      var next := NewHead(lib, sv.writes, source, "Untitled document");
      var change := Change(author, id, None, None, source, next.source);
      PostDone(Server(Written(sv.store, id, next, None).value, sv.writes + 1, sv.log + [change]), id, next.hash)
  }

  datatype Foreign = ForeignPut(id: Id, source: string, expected: string) | ForeignPost(source: string) | ForeignPurge(id: Id)

  function OtherWrite(lib: Library, sv: Server, write: Foreign): Server {
    match write
    case ForeignPut(id, source, expected) =>
      var put := PutDocument(lib, sv, AnotherWriter, id, source, expected);
      if put.PutDone? then put.server else sv
    case ForeignPost(source) =>
      var post := PostDocument(lib, sv, AnotherWriter, source);
      if post.PostDone? then post.server else sv
    case ForeignPurge(id) =>
      sv.(store := Store(sv.store.heads - {id}, sv.store.revisions - {id}))
  }

  function OtherWrites(lib: Library, sv: Server, writes: seq<Foreign>): Server {
    if writes == [] then sv
    else OtherWrite(lib, OtherWrites(lib, sv, writes[..|writes| - 1]), writes[|writes| - 1])
  }

  // ---------------------------------------------------------------------------------------------
  // The run's surroundings
  // ---------------------------------------------------------------------------------------------

  /** Everything a run can change; `requests` counts its requests so far. */
  datatype World = World(disk: map<Path, string>, conflicts: map<Path, string>, server: Server, requests: nat)

  /** A request is answered, or not carried out (lost on the way, or turned down), or carried out with its reply lost. A run ends with
      the first that fails. */
  datatype Fault = Answered | NotDone | ReplyLost

  datatype Options = Options(pull: bool, push: bool, dryRun: bool)

  datatype LocalFile = LocalFile(path: Path, content: string, meta: Meta, body: string)

  /** A manifest entry before its hash is read, and after. */
  datatype Slot = Slot(id: Id, path: Path, parentId: Option<Id>, labels: seq<string>)

  datatype Page = Page(id: Id, path: Path, parentId: Option<Id>, labels: seq<string>, hash: string)

  datatype Context = Context(
    lib: Library, others: nat -> seq<Foreign>, faults: nat -> Fault, options: Options, local: seq<LocalFile>, pages: seq<Page>)

  datatype ActionKind = Pulled | Pushed | Created | Moved | Converged | Conflict | RemoteMissing | Unchanged

  datatype Action = Action(kind: ActionKind, path: Path)

  /** The server as the next request finds it. */
  function NextRequest(lib: Library, others: nat -> seq<Foreign>, w: World): World {
    w.(server := OtherWrites(lib, w.server, others(w.requests)), requests := w.requests + 1)
  }

  function ReadFile(lib: Library, path: Path, raw: string): LocalFile {
    var stripped := Strip(Normalize(raw), lib.labelText);
    LocalFile(path, Normalize(raw), stripped.meta, stripped.body)
  }

  /** The scanned files, in the order the directory lists them. */
  function ScanFiles(lib: Library, disk: map<Path, string>, order: seq<Path>): (files: seq<LocalFile>)
    requires forall p :: p in order ==> p in disk
    ensures |files| == |order|
    ensures forall i :: 0 <= i < |order| ==> files[i] == ReadFile(lib, order[i], disk[order[i]])
  {
    seq(|order|, i requires 0 <= i < |order| => ReadFile(lib, order[i], disk[order[i]]))
  }

  /** No two files claim the same page; a run stops at once otherwise. */
  predicate UniqueClaims(files: seq<LocalFile>) {
    forall i, j :: 0 <= i < j < |files| && files[i].meta.cloudId.Some? ==> files[i].meta.cloudId != files[j].meta.cloudId
  }

  /** `local.byId.get(id)` */
  function ClaimOf(files: seq<LocalFile>, id: Id): (r: Option<LocalFile>)
    ensures r.Some? ==> r.value in files && r.value.meta.cloudId == Some(id)
    ensures r.None? ==> forall f :: f in files ==> f.meta.cloudId != Some(id)
  {
    if files == [] then None
    else if files[0].meta.cloudId == Some(id) then Some(files[0])
    else ClaimOf(files[1..], id)
  }

  function Base(file: LocalFile): string {
    if file.meta.cloudHash.Some? then file.meta.cloudHash.value else ""
  }

  /** The file a page is written to. */
  function Render(page: Page, source: string, hash: string): string {
    WithSyncFrontmatter(source, SyncKeys(page.id, hash, page.parentId, page.labels))
  }

  // ---------------------------------------------------------------------------------------------
  // One page
  // ---------------------------------------------------------------------------------------------

  datatype Progress = Progress(w: World, actions: seq<Action>, occupied: set<Path>, blocked: set<Path>, failed: bool)

  function Did(st: Progress, w: World, kind: ActionKind, path: Path): Progress {
    st.(w := w, actions := st.actions + [Action(kind, path)])
  }

  /** Fetches the page and writes it to `page.path`, removing `file` first when it lies elsewhere. */
  function PullPage(c: Context, st: Progress, page: Page, file: Option<LocalFile>): Progress {
    var w := NextRequest(c.lib, c.others, st.w);
    if !c.faults(st.w.requests).Answered? || page.id !in w.server.store.heads then st.(w := w, failed := true)
    else
      var head := w.server.store.heads[page.id];
      var disk := if file.Some? && file.value.path != page.path then w.disk - {file.value.path} else w.disk;
      Did(st, w.(disk := disk[page.path := Render(page, head.source, head.hash)]), Pulled, page.path)
  }

  function RecordConflict(c: Context, st: Progress, w: World, page: Page, file: LocalFile): Progress {
    var w' := NextRequest(c.lib, c.others, w);
    if !c.faults(w.requests).Answered? || page.id !in w'.server.store.heads then st.(w := w', failed := true)
    else
      var head := w'.server.store.heads[page.id];
      Did(st, w'.(conflicts := w'.conflicts[file.path + ".conflict" := Render(page, head.source, head.hash)]), Conflict, file.path)
  }

  /** What comes of the PUT that found the server as in `w` and would have `put` for an answer. */
  function AfterPut(c: Context, st: Progress, w: World, page: Page, file: LocalFile, put: Put): Progress {
    match c.faults(st.w.requests)
    case NotDone => st.(w := w, failed := true)
    case ReplyLost => st.(w := if put.PutDone? then w.(server := put.server) else w, failed := true)
    case Answered =>
      match put
      case PutDone(server, hash) =>
        Did(st, w.(server := server, disk := w.disk[file.path := Render(page, file.body, hash)]), Pushed, file.path)
      case PutConflict => RecordConflict(c, st, w, page, file)
      case PutFailed => st.(w := w, failed := true)
  }

  function PushPage(c: Context, st: Progress, page: Page, file: LocalFile): Progress {
    var w := NextRequest(c.lib, c.others, st.w);
    AfterPut(c, st, w, page, file, PutDocument(c.lib, w.server, TheClient, page.id, file.body, Base(file)))
  }

  function NewPage(c: Context, st: Progress, page: Page): Progress {
    if !c.options.pull then st
    else if page.path in st.occupied then
      Did(st.(blocked := st.blocked + {page.path}), st.w, Conflict, page.path)
    else
      var st' := st.(occupied := st.occupied + {page.path});
      if c.options.dryRun then Did(st', st'.w, Pulled, page.path) else PullPage(c, st', page, None)
  }

  /** A page whose file exists; `page.path` is where the file belongs. */
  function KnownPage(c: Context, st: Progress, page: Page, file: LocalFile): Progress {
    var localHash := c.lib.sha(file.body);
    var localChanged, remoteChanged := localHash != Base(file), page.hash != Base(file);
    if !localChanged && !remoteChanged then
      if file.path != page.path && c.options.pull then
        var disk := (st.w.disk - {file.path})[page.path := Render(page, file.body, page.hash)];
        Did(st, if c.options.dryRun then st.w else st.w.(disk := disk), Moved, page.path)
      else Did(st, st.w, Unchanged, file.path)
    else if localChanged && remoteChanged && localHash == page.hash then
      var disk := if file.path != page.path then st.w.disk - {file.path} else st.w.disk;
      Did(st, if c.options.dryRun then st.w else st.w.(disk := disk[page.path := Render(page, file.body, page.hash)]), Converged, page.path)
    else if !localChanged then
      if !c.options.pull then st
      else if c.options.dryRun then Did(st, st.w, Pulled, page.path)
      else PullPage(c, st, page, Some(file))
    else if !remoteChanged then
      if !c.options.push then st
      else if c.options.dryRun then Did(st, st.w, Pushed, file.path)
      else PushPage(c, st, page, file)
    else if c.options.dryRun then Did(st, st.w, Conflict, file.path)
    else RecordConflict(c, st, st.w, page, file)
  }

  function SyncPage(c: Context, st: Progress, page: Page): Progress {
    match ClaimOf(c.local, page.id)
    case None => NewPage(c, st, page)
    case Some(file) =>
      KnownPage(c, st, if page.path != file.path && page.path in st.occupied then page.(path := file.path) else page, file)
  }

  /** The pages from number `i` on; a failed request ends the run. */
  function PagesFrom(c: Context, st: Progress, i: nat): Progress
    requires i <= |c.pages|
    decreases |c.pages| - i
  {
    if st.failed || i == |c.pages| then st else PagesFrom(c, SyncPage(c, st, c.pages[i]), i + 1)
  }

  // ---------------------------------------------------------------------------------------------
  // One file that no page claims
  // ---------------------------------------------------------------------------------------------

  /** The path before its last slash; empty at the top level. */
  function Directory(path: Path): Path {
    if path == "" then ""
    else if path[|path| - 1] == '/' then path[..|path| - 1]
    else Directory(path[..|path| - 1])
  }

  function FileAt(files: seq<LocalFile>, path: Path): Option<LocalFile> {
    if files == [] then None else if files[0].path == path then Some(files[0]) else FileAt(files[1..], path)
  }

  function PageAt(pages: seq<Page>, path: Path): Option<Id> {
    if pages == [] then None else if pages[0].path == path then Some(pages[0].id) else PageAt(pages[1..], path)
  }

  function ParentFromDirectory(c: Context, path: Path, created: map<Path, Id>): Option<Id> {
    var directory := Directory(path);
    if directory == "" then None
    else
      var parentPath := directory + ".noma";
      var file := FileAt(c.local, parentPath);
      if file.Some? && file.value.meta.cloudId.Some? then file.value.meta.cloudId
      else if parentPath in created then Some(created[parentPath])
      else PageAt(c.pages, parentPath)
  }

  datatype Leftovers = Leftovers(st: Progress, created: map<Path, Id>)

  function ParentOf(c: Context, left: Leftovers, file: LocalFile): Option<Id> {
    if file.meta.cloudParent.Some? then file.meta.cloudParent else ParentFromDirectory(c, file.path, left.created)
  }

  /** What comes of the POST that found the server as in `w` and would have `post` for an answer. */
  function AfterPost(c: Context, left: Leftovers, w: World, file: LocalFile, post: Post): Leftovers {
    var st := left.st;
    match c.faults(st.w.requests)
    case NotDone => left.(st := st.(w := w, failed := true))
    case ReplyLost => left.(st := st.(w := if post.PostDone? then w.(server := post.server) else w, failed := true))
    case Answered =>
      match post
      case PostFailed => left.(st := st.(w := w, failed := true))
      case PostDone(server, id, hash) =>
        var content := WithSyncFrontmatter(file.body, SyncKeys(id, hash, ParentOf(c, left, file), []));
        var disk := if content != file.content then w.disk[file.path := content] else w.disk;
        Leftovers(Did(st, w.(server := server, disk := disk), Created, file.path), left.created[file.path := id])
  }

  function CreatePage(c: Context, left: Leftovers, file: LocalFile): Leftovers {
    if c.options.dryRun then left.(st := Did(left.st, left.st.w, Created, file.path))
    else
      var w := NextRequest(c.lib, c.others, left.st.w);
      AfterPost(c, left, w, file, PostDocument(c.lib, w.server, TheClient, file.body))
  }

  function SyncFile(c: Context, left: Leftovers, file: LocalFile): Leftovers {
    var st := left.st;
    if file.path in st.blocked then left
    else if file.meta.cloudId.Some? && file.meta.cloudId.value != "" then
      if exists page :: page in c.pages && page.id == file.meta.cloudId.value then left
      else left.(st := Did(st, st.w, RemoteMissing, file.path))
    else if !c.options.push then left
    else CreatePage(c, left, file)
  }

  function FilesFrom(c: Context, left: Leftovers, files: seq<LocalFile>, i: nat): Leftovers
    requires i <= |files|
    decreases |files| - i
  {
    if left.st.failed || i == |files| then left else FilesFrom(c, SyncFile(c, left, files[i]), files, i + 1)
  }

  function Depth(path: Path): nat {
    if path == "" then 1 else (if path[0] == '/' then 1 else 0) + Depth(path[1..])
  }

  /** Parents before the pages below them, then by path. */
  predicate Sooner(a: LocalFile, b: LocalFile) {
    Depth(a.path) < Depth(b.path) || (Depth(a.path) == Depth(b.path) && Less(a.path, b.path))
  }

  function Insert(file: LocalFile, files: seq<LocalFile>): (r: seq<LocalFile>)
    ensures multiset(r) == multiset(files) + multiset{file}
  {
    if files == [] then [file]
    else if Sooner(files[0], file) then
      assert files == [files[0]] + files[1..];
      [files[0]] + Insert(file, files[1..])
    else [file] + files
  }

  function ParentFirst(files: seq<LocalFile>): (r: seq<LocalFile>)
    ensures multiset(r) == multiset(files)
  {
    if files == [] then []
    else
      assert files == [files[0]] + files[1..];
      Insert(files[0], ParentFirst(files[1..]))
  }

  // ---------------------------------------------------------------------------------------------
  // The whole run
  // ---------------------------------------------------------------------------------------------

  /** The manifest the server answers with: the pages of the space that exist, with their hashes. */
  function Manifest(slots: seq<Slot>, heads: map<Id, Head>): seq<Page> {
    if slots == [] then []
    else
      var s := slots[0];
      (if s.id in heads then [Page(s.id, s.path, s.parentId, s.labels, heads[s.id].hash)] else []) + Manifest(slots[1..], heads)
  }

  /** `order` lists the directory, `slots` the space. */
  datatype Setting = Setting(
    lib: Library, others: nat -> seq<Foreign>, faults: nat -> Fault, options: Options, order: seq<Path>, slots: seq<Slot>)

  ghost predicate Lists(order: seq<Path>, disk: map<Path, string>) {
    && (forall p :: p in disk <==> p in order)
    && (forall i, j :: 0 <= i < j < |order| ==> order[i] != order[j])
  }

  function ContextOf(s: Setting, w: World): Context
    requires Lists(s.order, w.disk)
  {
    var w' := NextRequest(s.lib, s.others, w);
    Context(s.lib, s.others, s.faults, s.options, ScanFiles(s.lib, w.disk, s.order), Manifest(s.slots, w'.server.store.heads))
  }

  function Start(s: Setting, w: World): Progress
    requires Lists(s.order, w.disk)
  {
    Progress(NextRequest(s.lib, s.others, w), [], set p | p in w.disk, {}, false)
  }

  function Run(s: Setting, w: World): Progress
    requires Lists(s.order, w.disk)
  {
    var c := ContextOf(s, w);
    if !s.faults(w.requests).Answered? || !UniqueClaims(c.local) then Start(s, w).(failed := true)
    else
      var pages := PagesFrom(c, Start(s, w), 0);
      if pages.failed then pages else FilesFrom(c, Leftovers(pages, map[]), ParentFirst(c.local), 0).st
  }

  method SyncSpace(s: Setting, w: World) returns (w': World, actions: seq<Action>, failed: bool)
    requires Lists(s.order, w.disk)
    ensures var run := Run(s, w); w' == run.w && actions == run.actions && failed == run.failed
  {
    var c := ContextOf(s, w);
    var st := Start(s, w);
    w', actions, failed := st.w, [], false;
    if !s.faults(w.requests).Answered? || !UniqueClaims(c.local) {
      failed := true;
      return;
    }
    var occupied, blocked := st.occupied, st.blocked;
    for i := 0 to |c.pages|
      invariant !failed
      invariant PagesFrom(c, Progress(w', actions, occupied, blocked, failed), i) == PagesFrom(c, st, 0)
    {
      var next := SyncPage(c, Progress(w', actions, occupied, blocked, failed), c.pages[i]);
      w', actions, occupied, blocked, failed := next.w, next.actions, next.occupied, next.blocked, next.failed;
      if failed {
        return;
      }
    }
    var files := ParentFirst(c.local);
    var createdByPath: map<Path, Id> := map[];
    ghost var pages := PagesFrom(c, st, 0);
    for i := 0 to |files|
      invariant !failed
      invariant FilesFrom(c, Leftovers(Progress(w', actions, occupied, blocked, failed), createdByPath), files, i)
             == FilesFrom(c, Leftovers(pages, map[]), files, 0)
    {
      var next := SyncFile(c, Leftovers(Progress(w', actions, occupied, blocked, failed), createdByPath), files[i]);
      w', actions, occupied, blocked, failed := next.st.w, next.st.actions, next.st.occupied, next.st.blocked, next.st.failed;
      createdByPath := next.created;
      if failed {
        return;
      }
    }
  }
}
