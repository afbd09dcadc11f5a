/** No edit is lost, on the server or in the directory, however the run interleaves with other writers. */
module SyncSafety {
  import opened Wrappers
  import opened Frontmatter
  import opened Revisions
  import opened Sync

  // ---------------------------------------------------------------------------------------------
  // The server side
  // ---------------------------------------------------------------------------------------------

  /** The file a write of the client comes from: the head it replaced is the revision the file last synced with, and the file
      holds an edit; what it sent is the file's body. A page is created only from a file that names none. */
  ghost predicate Sends(lib: Library, f: LocalFile, change: Change) {
    && f.body == change.sent
    && match change.replaced
       case Some(hash) => f.meta.cloudId == Some(change.id) && Base(f) == hash && lib.sha(f.body) != hash
       case None => f.meta.cloudId.Some? ==> f.meta.cloudId.value == ""
  }

  /** Every write replaced what its writer expected, the server kept what it makes of the sent source, and the client sent one of its files. */
  ghost predicate SafeChange(lib: Library, local: seq<LocalFile>, change: Change) {
    && change.replaced == change.expected
    && (exists k :: change.kept == lib.stored(k, change.sent))
    && (change.author.TheClient? ==> exists f :: f in local && Sends(lib, f, change))
  }

  /** What happened between two states of the server. */
  ghost predicate Grew(lib: Library, local: seq<LocalFile>, before: Server, after: Server) {
    && (Sound(before.store, lib.sha) ==> Sound(after.store, lib.sha))
    && before.writes <= after.writes
    && before.log <= after.log
    && forall i :: |before.log| <= i < |after.log| ==> SafeChange(lib, local, after.log[i])
  }

  lemma PutGrows(lib: Library, local: seq<LocalFile>, sv: Server, author: Author, id: Id, source: string, expected: string)
    requires Injective(lib.sha) && PutDocument(lib, sv, author, id, source, expected).PutDone?
    requires author.TheClient? ==>
      exists f :: f in local && f.meta.cloudId == Some(id) && Base(f) == expected && f.body == source && lib.sha(source) != expected
    ensures Grew(lib, local, sv, PutDocument(lib, sv, author, id, source, expected).server)
    ensures PutDocument(lib, sv, author, id, source, expected).server.store.heads[id].source == lib.stored(sv.writes, source)
  {
    var next := NewHead(lib, sv.writes, source, sv.store.heads[id].title);
    var change := Change(author, id, Some(expected), Some(expected), source, next.source);
    if author.TheClient? {
      var f :| f in local && f.meta.cloudId == Some(id) && Base(f) == expected && f.body == source && lib.sha(source) != expected;
      assert Sends(lib, f, change);
    }
    assert SafeChange(lib, local, change);
    if Sound(sv.store, lib.sha) {
      WriteKeepsSound(sv.store, id, next, Some(expected), lib.sha);
    }
  }

  lemma PostGrows(lib: Library, local: seq<LocalFile>, sv: Server, author: Author, source: string)
    requires Injective(lib.sha) && PostDocument(lib, sv, author, source).PostDone?
    requires author.TheClient? ==> exists f :: f in local && f.body == source && (f.meta.cloudId.Some? ==> f.meta.cloudId.value == "")
    ensures Grew(lib, local, sv, PostDocument(lib, sv, author, source).server)
    ensures PostDocument(lib, sv, author, source).server.store.heads[lib.newId(sv.writes)].source == lib.stored(sv.writes, source)
  {
    var next := NewHead(lib, sv.writes, source, "Untitled document");
    var change := Change(author, lib.newId(sv.writes), None, None, source, next.source);
    if author.TheClient? {
      var f :| f in local && f.body == source && (f.meta.cloudId.Some? ==> f.meta.cloudId.value == "");
      assert Sends(lib, f, change);
    }
    assert SafeChange(lib, local, change);
    if Sound(sv.store, lib.sha) {
      WriteKeepsSound(sv.store, lib.newId(sv.writes), next, None, lib.sha);
    }
  }

  lemma OtherWriteGrows(lib: Library, local: seq<LocalFile>, sv: Server, write: Foreign)
    requires Injective(lib.sha)
    ensures Grew(lib, local, sv, OtherWrite(lib, sv, write))
  {
    match write
    case ForeignPut(id, source, expected) =>
      if PutDocument(lib, sv, AnotherWriter, id, source, expected).PutDone? {
        PutGrows(lib, local, sv, AnotherWriter, id, source, expected);
      }
    case ForeignPost(source) =>
      if PostDocument(lib, sv, AnotherWriter, source).PostDone? {
        PostGrows(lib, local, sv, AnotherWriter, source);
      }
    case ForeignPurge(id) =>
      if Sound(sv.store, lib.sha) {
        PurgeKeepsSound(lib, sv.store, id);
      }
  }

  lemma PurgeKeepsSound(lib: Library, store: Store, id: Id)
    requires Sound(store, lib.sha)
    ensures Sound(Store(store.heads - {id}, store.revisions - {id}), lib.sha)
  {
  }

  lemma {:induction false} OtherWritesGrow(lib: Library, local: seq<LocalFile>, sv: Server, writes: seq<Foreign>)
    requires Injective(lib.sha)
    ensures Grew(lib, local, sv, OtherWrites(lib, sv, writes))
  {
    if writes == [] {
    } else {
      var n := |writes| - 1;
      OtherWritesGrow(lib, local, sv, writes[..n]);
      OtherWriteGrows(lib, local, OtherWrites(lib, sv, writes[..n]), writes[n]);
    }
  }

  lemma RequestGrows(c: Context, w: World)
    requires Injective(c.lib.sha)
    ensures Grew(c.lib, c.local, w.server, NextRequest(c.lib, c.others, w).server)
  {
    OtherWritesGrow(c.lib, c.local, w.server, c.others(w.requests));
  }

  lemma GrewSelf(lib: Library, local: seq<LocalFile>, sv: Server)
    ensures Grew(lib, local, sv, sv)
  {
  }

  lemma GrewThen(lib: Library, local: seq<LocalFile>, sv: Server, sv': Server, sv'': Server)
    requires Grew(lib, local, sv, sv') && Grew(lib, local, sv', sv'')
    ensures Grew(lib, local, sv, sv'')
  {
  }

  lemma ConflictGrows(c: Context, st: Progress, w: World, page: Page, file: LocalFile)
    requires Injective(c.lib.sha)
    ensures Grew(c.lib, c.local, w.server, RecordConflict(c, st, w, page, file).w.server)
  {
    RequestGrows(c, w);
  }

  /** A PUT is carried out, or asks for the server's version, or leaves the server alone. */
  lemma AfterPutServer(c: Context, st: Progress, w: World, page: Page, file: LocalFile, put: Put)
    ensures var server := AfterPut(c, st, w, page, file, put).w.server;
      || server == w.server
      || (put.PutDone? && server == put.server)
      || server == RecordConflict(c, st, w, page, file).w.server
  {
  }

  lemma PutReachesServer(c: Context, st: Progress, w: World, page: Page, file: LocalFile, put: Put)
    requires Injective(c.lib.sha) && file in c.local && file.meta.cloudId == Some(page.id) && c.lib.sha(file.body) != Base(file)
    requires put == PutDocument(c.lib, w.server, TheClient, page.id, file.body, Base(file))
    ensures Grew(c.lib, c.local, w.server, AfterPut(c, st, w, page, file, put).w.server)
  {
    AfterPutServer(c, st, w, page, file, put);
    GrewSelf(c.lib, c.local, w.server);
    ConflictGrows(c, st, w, page, file);
    if put.PutDone? {
      PutGrows(c.lib, c.local, w.server, TheClient, page.id, file.body, Base(file));
    }
  }

  lemma PushGrows(c: Context, st: Progress, page: Page, file: LocalFile)
    requires Injective(c.lib.sha) && file in c.local && file.meta.cloudId == Some(page.id) && c.lib.sha(file.body) != Base(file)
    ensures Grew(c.lib, c.local, st.w.server, PushPage(c, st, page, file).w.server)
  {
    var w := NextRequest(c.lib, c.others, st.w);
    var put := PutDocument(c.lib, w.server, TheClient, page.id, file.body, Base(file));
    RequestGrows(c, st.w);
    PutReachesServer(c, st, w, page, file, put);
    GrewThen(c.lib, c.local, st.w.server, w.server, AfterPut(c, st, w, page, file, put).w.server);
  }

  lemma KnownPageGrows(c: Context, st: Progress, page: Page, file: LocalFile)
    requires Injective(c.lib.sha) && file in c.local && file.meta.cloudId == Some(page.id)
    ensures Grew(c.lib, c.local, st.w.server, KnownPage(c, st, page, file).w.server)
  {
    var sv := KnownPage(c, st, page, file).w.server;
    if sv == st.w.server {
      GrewSelf(c.lib, c.local, sv);
    } else if sv == NextRequest(c.lib, c.others, st.w).server {
      RequestGrows(c, st.w);
    } else {
      PushGrows(c, st, page, file);
    }
  }

  lemma PageGrows(c: Context, st: Progress, page: Page)
    requires Injective(c.lib.sha)
    ensures Grew(c.lib, c.local, st.w.server, SyncPage(c, st, page).w.server)
  {
    match ClaimOf(c.local, page.id)
    case None =>
      RequestGrows(c, st.w);
      GrewSelf(c.lib, c.local, st.w.server);
    case Some(file) =>
      KnownPageGrows(c, st, if page.path != file.path && page.path in st.occupied then page.(path := file.path) else page, file);
  }

  lemma AfterPostServer(c: Context, left: Leftovers, w: World, file: LocalFile, post: Post)
    ensures var server := AfterPost(c, left, w, file, post).st.w.server; server == w.server || (post.PostDone? && server == post.server)
  {
  }

  lemma PostReachesServer(c: Context, left: Leftovers, w: World, file: LocalFile, post: Post)
    requires Injective(c.lib.sha) && file in c.local && (file.meta.cloudId.Some? ==> file.meta.cloudId.value == "")
    requires post == PostDocument(c.lib, w.server, TheClient, file.body)
    ensures Grew(c.lib, c.local, w.server, AfterPost(c, left, w, file, post).st.w.server)
  {
    AfterPostServer(c, left, w, file, post);
    GrewSelf(c.lib, c.local, w.server);
    if post.PostDone? {
      PostGrows(c.lib, c.local, w.server, TheClient, file.body);
    }
  }

  lemma CreateGrows(c: Context, left: Leftovers, file: LocalFile)
    requires Injective(c.lib.sha) && file in c.local && (file.meta.cloudId.Some? ==> file.meta.cloudId.value == "")
    ensures Grew(c.lib, c.local, left.st.w.server, CreatePage(c, left, file).st.w.server)
  {
    if c.options.dryRun {
      GrewSelf(c.lib, c.local, left.st.w.server);
    } else {
      var w := NextRequest(c.lib, c.others, left.st.w);
      var post := PostDocument(c.lib, w.server, TheClient, file.body);
      RequestGrows(c, left.st.w);
      PostReachesServer(c, left, w, file, post);
      GrewThen(c.lib, c.local, left.st.w.server, w.server, AfterPost(c, left, w, file, post).st.w.server);
    }
  }

  lemma FileGrows(c: Context, left: Leftovers, file: LocalFile)
    requires Injective(c.lib.sha) && file in c.local
    ensures Grew(c.lib, c.local, left.st.w.server, SyncFile(c, left, file).st.w.server)
  {
    GrewSelf(c.lib, c.local, left.st.w.server);
    if file.meta.cloudId.Some? ==> file.meta.cloudId.value == "" {
      CreateGrows(c, left, file);
    }
  }

  lemma {:induction false} PagesGrow(c: Context, st: Progress, i: nat)
    requires Injective(c.lib.sha) && i <= |c.pages|
    ensures Grew(c.lib, c.local, st.w.server, PagesFrom(c, st, i).w.server)
    decreases |c.pages| - i
  {
    if st.failed || i == |c.pages| {
    } else {
      var next := SyncPage(c, st, c.pages[i]);
      PageGrows(c, st, c.pages[i]);
      PagesGrow(c, next, i + 1);
    }
  }

  lemma {:induction false} FilesGrow(c: Context, left: Leftovers, files: seq<LocalFile>, i: nat)
    requires Injective(c.lib.sha) && i <= |files| && forall f :: f in files ==> f in c.local
    ensures Grew(c.lib, c.local, left.st.w.server, FilesFrom(c, left, files, i).st.w.server)
    decreases |files| - i
  {
    if left.st.failed || i == |files| {
    } else {
      var next := SyncFile(c, left, files[i]);
      FileGrows(c, left, files[i]);
      FilesGrow(c, next, files, i + 1);
    }
  }

  /** Page steps and file steps together. */
  lemma StepsGrow(c: Context, st: Progress, pages: Progress)
    requires Injective(c.lib.sha) && pages == PagesFrom(c, st, 0)
    ensures Grew(c.lib, c.local, st.w.server, pages.w.server)
    ensures Grew(c.lib, c.local, st.w.server, FilesFrom(c, Leftovers(pages, map[]), ParentFirst(c.local), 0).st.w.server)
  {
    var files := ParentFirst(c.local);
    PagesGrow(c, st, 0);
    assert forall f :: f in files ==> f in multiset(files);
    FilesGrow(c, Leftovers(pages, map[]), files, 0);
    GrewThen(c.lib, c.local, st.w.server, pages.w.server, FilesFrom(c, Leftovers(pages, map[]), files, 0).st.w.server);
  }

  /** Over every schedule of other writers and of failing requests, whether the run finishes or ends half-way: the server's history
      stays sound, every revision the client replaced is the one its file last synced with, and what replaced it is that file's body
      as the server stores it. */
  lemma RunReplacesOnlySyncedRevisions(s: Setting, w: World)
    requires Lists(s.order, w.disk) && Injective(s.lib.sha)
    ensures Grew(s.lib, ContextOf(s, w).local, w.server, Run(s, w).w.server)
  {
    var c, st := ContextOf(s, w), Start(s, w);
    RequestGrows(c, w);
    StepsGrow(c, st, PagesFrom(c, st, 0));
    GrewThen(s.lib, c.local, w.server, st.w.server, Run(s, w).w.server) by {
      GrewSelf(s.lib, c.local, st.w.server);
    }
  }

  // ---------------------------------------------------------------------------------------------
  // The directory side
  // ---------------------------------------------------------------------------------------------

  function Scanned(c: Context): set<Path> {
    set f | f in c.local :: f.path
  }

  /** The paths the step for a page may touch: its file's, and its manifest path unless a scanned file lies there. */
  function Zone(c: Context, page: Page): set<Path> {
    var claim := ClaimOf(c.local, page.id);
    (if claim.Some? then {claim.value.path} else {}) + (if page.path in Scanned(c) then {} else {page.path})
  }

  /** Ids and paths are unique, and the scan saw each path once: what the manifest and the scan provide. */
  ghost predicate Orderly(c: Context) {
    && UniqueClaims(c.local)
    && (forall i, j :: 0 <= i < j < |c.local| ==> c.local[i].path != c.local[j].path)
    && DistinctPages(c.pages)
    && (forall page :: page in c.pages ==> page.id != "")
  }

  ghost predicate DistinctPages(pages: seq<Page>) {
    forall i, j :: 0 <= i < j < |pages| ==> pages[i].id != pages[j].id && pages[i].path != pages[j].path
  }

  lemma ClaimIsUnique(c: Context, f: LocalFile, g: LocalFile)
    requires Orderly(c) && f in c.local && g in c.local
    requires f.path == g.path || (f.meta.cloudId.Some? && f.meta.cloudId == g.meta.cloudId)
    ensures f == g
  {
  }

  lemma ZonesDisjoint(c: Context, i: nat, j: nat)
    requires Orderly(c) && i < |c.pages| && j < |c.pages| && i != j
    ensures Zone(c, c.pages[i]) !! Zone(c, c.pages[j])
  {
  }

  /** Outside its zone a step changes no file. */
  ghost predicate OnlyZone(before: map<Path, string>, after: map<Path, string>, zone: set<Path>) {
    forall p :: p !in zone ==> (p in after <==> p in before) && (p in before ==> after[p] == before[p])
  }

  /** The body is in some file of the zone: in the untouched file, or under fresh sync keys. */
  ghost predicate IsStamp(content: string, body: string) {
    exists keys :: content == WithSyncFrontmatter(body, keys)
  }

  ghost predicate Holds(disk: map<Path, string>, zone: set<Path>, raw: string, body: string) {
    exists p :: p in zone && p in disk && (disk[p] == raw || IsStamp(disk[p], body))
  }

  /** A body is expendable only when it is what the file last synced with. */
  ghost predicate KeptIn(lib: Library, disk: map<Path, string>, zone: set<Path>, raw: string, file: LocalFile) {
    lib.sha(file.body) == Base(file) || Holds(disk, zone, raw, file.body)
  }

  /** The directory is as it was, or the file's body stands in the file or at the page's path under fresh keys. */
  ghost predicate BodyStays(disk: map<Path, string>, disk': map<Path, string>, page: Page, file: LocalFile) {
    || disk' == disk
    || (page.path in disk' && exists hash :: disk'[page.path] == Render(page, file.body, hash))
    || (file.path in disk' && exists hash :: disk'[file.path] == Render(page, file.body, hash))
  }

  lemma ConflictDisk(c: Context, st: Progress, w: World, page: Page, file: LocalFile)
    requires w.disk == st.w.disk
    ensures RecordConflict(c, st, w, page, file).w.disk == st.w.disk && RecordConflict(c, st, w, page, file).occupied == st.occupied
  {
  }

  lemma PullDisk(c: Context, st: Progress, page: Page, file: LocalFile)
    ensures OnlyZone(st.w.disk, PullPage(c, st, page, Some(file)).w.disk, {file.path, page.path})
    ensures PullPage(c, st, page, Some(file)).occupied == st.occupied
  {
  }

  lemma AfterPutDisk(c: Context, st: Progress, w: World, page: Page, file: LocalFile, put: Put)
    requires w.disk == st.w.disk
    ensures var next := AfterPut(c, st, w, page, file, put);
      OnlyZone(w.disk, next.w.disk, {file.path, page.path}) && next.occupied == st.occupied && BodyStays(w.disk, next.w.disk, page, file)
  {
    if put.PutConflict? {
      ConflictDisk(c, st, w, page, file);
    }
  }

  lemma PushDisk(c: Context, st: Progress, page: Page, file: LocalFile)
    ensures OnlyZone(st.w.disk, PushPage(c, st, page, file).w.disk, {file.path, page.path})
    ensures PushPage(c, st, page, file).occupied == st.occupied && BodyStays(st.w.disk, PushPage(c, st, page, file).w.disk, page, file)
  {
    var w := NextRequest(c.lib, c.others, st.w);
    AfterPutDisk(c, st, w, page, file, PutDocument(c.lib, w.server, TheClient, page.id, file.body, Base(file)));
  }

  /** The body, with the page's hash, is in the file of the page's path, and the old file is gone or that file. */
  ghost predicate StampedAt(disk: map<Path, string>, disk': map<Path, string>, page: Page, file: LocalFile) {
    var rest := if file.path != page.path then disk - {file.path} else disk;
    disk' == rest[page.path := Render(page, file.body, page.hash)]
  }

  lemma StampedDisk(disk: map<Path, string>, disk': map<Path, string>, page: Page, file: LocalFile)
    requires StampedAt(disk, disk', page, file)
    ensures OnlyZone(disk, disk', {file.path, page.path}) && BodyStays(disk, disk', page, file)
  {
  }

  lemma AgreeingPageDisk(c: Context, st: Progress, page: Page, file: LocalFile)
    requires c.lib.sha(file.body) == page.hash
    ensures var next := KnownPage(c, st, page, file);
      next.occupied == st.occupied && (next.w.disk == st.w.disk || StampedAt(st.w.disk, next.w.disk, page, file))
  {
  }

  lemma OutdatedPageDisk(c: Context, st: Progress, page: Page, file: LocalFile)
    requires c.lib.sha(file.body) == Base(file) != page.hash
    ensures var next := KnownPage(c, st, page, file);
      next.occupied == st.occupied && OnlyZone(st.w.disk, next.w.disk, {file.path, page.path})
  {
    if c.options.pull && !c.options.dryRun {
      PullDisk(c, st, page, file);
    }
  }

  lemma EditedPageDisk(c: Context, st: Progress, page: Page, file: LocalFile)
    requires c.lib.sha(file.body) != Base(file) && c.lib.sha(file.body) != page.hash
    ensures var next := KnownPage(c, st, page, file);
      next.occupied == st.occupied && OnlyZone(st.w.disk, next.w.disk, {file.path, page.path}) && BodyStays(st.w.disk, next.w.disk, page, file)
  {
    if page.hash == Base(file) {
      PushDisk(c, st, page, file);
    } else {
      ConflictDisk(c, st, st.w, page, file);
    }
  }

  /** Where the step for a known page leaves the directory. */
  lemma KnownPageDisk(c: Context, st: Progress, page: Page, file: LocalFile)
    ensures OnlyZone(st.w.disk, KnownPage(c, st, page, file).w.disk, {file.path, page.path})
    ensures KnownPage(c, st, page, file).occupied == st.occupied
    ensures c.lib.sha(file.body) != Base(file) ==> BodyStays(st.w.disk, KnownPage(c, st, page, file).w.disk, page, file)
  {
    if c.lib.sha(file.body) == page.hash {
      AgreeingPageDisk(c, st, page, file);
      var disk' := KnownPage(c, st, page, file).w.disk;
      if disk' != st.w.disk {
        StampedDisk(st.w.disk, disk', page, file);
      }
    } else if c.lib.sha(file.body) == Base(file) {
      OutdatedPageDisk(c, st, page, file);
    } else {
      EditedPageDisk(c, st, page, file);
    }
  }

  /** One page: nothing changes outside its zone, and an edited body stays inside it. */
  lemma PageKeeps(c: Context, st: Progress, page: Page)
    requires Orderly(c) && Scanned(c) <= st.occupied
    ensures var next := SyncPage(c, st, page);
      && OnlyZone(st.w.disk, next.w.disk, Zone(c, page))
      && Scanned(c) <= next.occupied
    ensures var claim := ClaimOf(c.local, page.id);
      claim.Some? && claim.value.path in st.w.disk ==>
        KeptIn(c.lib, SyncPage(c, st, page).w.disk, Zone(c, page), st.w.disk[claim.value.path], claim.value)
  {
    match ClaimOf(c.local, page.id)
    case None =>
    case Some(file) =>
      var page' := if page.path != file.path && page.path in st.occupied then page.(path := file.path) else page;
      assert page'.path in Zone(c, page) && file.path in Zone(c, page);
      KnownPageDisk(c, st, page', file);
  }

  /** The pages before number `i` have kept their files; no other scanned file has been touched. */
  ghost predicate PagesKept(c: Context, scan: map<Path, string>, disk: map<Path, string>, i: nat) {
    && i <= |c.pages|
    && (forall f :: f in c.local ==> f.path in scan)
    && (forall k :: 0 <= k < i ==> PageKept(c, scan, disk, c.pages[k]))
    && (forall p :: p in Scanned(c) && (forall k :: 0 <= k < i ==> p !in Zone(c, c.pages[k])) ==> p in disk && disk[p] == scan[p])
  }

  ghost predicate PageKept(c: Context, scan: map<Path, string>, disk: map<Path, string>, page: Page)
    requires forall f :: f in c.local ==> f.path in scan
  {
    var claim := ClaimOf(c.local, page.id);
    claim.Some? ==> KeptIn(c.lib, disk, Zone(c, page), scan[claim.value.path], claim.value)
  }

  lemma OutsideZoneKeeps(c: Context, scan: map<Path, string>, disk: map<Path, string>, disk': map<Path, string>, page: Page, zone: set<Path>)
    requires forall f :: f in c.local ==> f.path in scan
    requires PageKept(c, scan, disk, page) && OnlyZone(disk, disk', zone) && Zone(c, page) !! zone
    ensures PageKept(c, scan, disk', page)
  {
  }

  lemma DiskStepKeeps(c: Context, scan: map<Path, string>, disk: map<Path, string>, disk': map<Path, string>, i: nat)
    requires Orderly(c) && i < |c.pages| && PagesKept(c, scan, disk, i) && OnlyZone(disk, disk', Zone(c, c.pages[i]))
    requires PageKept(c, scan, disk', c.pages[i])
    ensures PagesKept(c, scan, disk', i + 1)
  {
    forall k | 0 <= k < i
      ensures PageKept(c, scan, disk', c.pages[k])
    {
      ZonesDisjoint(c, k, i);
      OutsideZoneKeeps(c, scan, disk, disk', c.pages[k], Zone(c, c.pages[i]));
    }
  }

  lemma ClaimIsUntouched(c: Context, scan: map<Path, string>, disk: map<Path, string>, i: nat)
    requires Orderly(c) && i < |c.pages| && PagesKept(c, scan, disk, i)
    ensures var claim := ClaimOf(c.local, c.pages[i].id);
      claim.Some? ==> claim.value.path in disk && claim.value.path in scan && disk[claim.value.path] == scan[claim.value.path]
  {
    var claim := ClaimOf(c.local, c.pages[i].id);
    if claim.Some? {
      var path := claim.value.path;
      assert path in Zone(c, c.pages[i]) && path in Scanned(c);
      forall k | 0 <= k < i
        ensures path !in Zone(c, c.pages[k])
      {
        ZonesDisjoint(c, k, i);
      }
    }
  }

  lemma PageStepKeeps(c: Context, st: Progress, scan: map<Path, string>, i: nat)
    requires Orderly(c) && Scanned(c) <= st.occupied && i < |c.pages| && PagesKept(c, scan, st.w.disk, i)
    ensures PagesKept(c, scan, SyncPage(c, st, c.pages[i]).w.disk, i + 1) && Scanned(c) <= SyncPage(c, st, c.pages[i]).occupied
  {
    ClaimIsUntouched(c, scan, st.w.disk, i);
    PageKeeps(c, st, c.pages[i]);
    assert PageKept(c, scan, SyncPage(c, st, c.pages[i]).w.disk, c.pages[i]);
    DiskStepKeeps(c, scan, st.w.disk, SyncPage(c, st, c.pages[i]).w.disk, i);
  }

  /** `n` is the number of pages the run got through. */
  lemma {:induction false} PagesKeep(c: Context, st: Progress, scan: map<Path, string>, i: nat) returns (n: nat)
    requires Orderly(c) && Scanned(c) <= st.occupied && PagesKept(c, scan, st.w.disk, i)
    ensures i <= n <= |c.pages| && PagesKept(c, scan, PagesFrom(c, st, i).w.disk, n)
    ensures !PagesFrom(c, st, i).failed ==> n == |c.pages|
    decreases |c.pages| - i
  {
    n := i;
    if st.failed || i == |c.pages| {
    } else {
      PageStepKeeps(c, st, scan, i);
      n := PagesKeep(c, SyncPage(c, st, c.pages[i]), scan, i + 1);
    }
  }

  // Files no page claims ------------------------------------------------------------------------

  ghost predicate Claimed(c: Context, f: LocalFile) {
    exists k :: 0 <= k < |c.pages| && ClaimOf(c.local, c.pages[k].id) == Some(f)
  }

  /** Every scanned file is accounted for. */
  ghost predicate FilesKept(c: Context, scan: map<Path, string>, disk: map<Path, string>) {
    && (forall f :: f in c.local ==> f.path in scan)
    && (forall k :: 0 <= k < |c.pages| ==> PageKept(c, scan, disk, c.pages[k]))
    && (forall f :: f in c.local && !Claimed(c, f) ==> Holds(disk, {f.path}, scan[f.path], f.body))
  }

  /** Only the file's own path changed, and the file there is a stamp of its body. */
  ghost predicate Restamped(disk: map<Path, string>, disk': map<Path, string>, file: LocalFile) {
    OnlyZone(disk, disk', {file.path}) && file.path in disk' && IsStamp(disk'[file.path], file.body)
  }

  lemma AfterPostDisk(c: Context, left: Leftovers, w: World, file: LocalFile, post: Post)
    requires w.disk == left.st.w.disk
    ensures var disk := AfterPost(c, left, w, file, post).st.w.disk; disk == w.disk || Restamped(w.disk, disk, file)
  {
  }

  lemma CreateDisk(c: Context, left: Leftovers, file: LocalFile)
    ensures var disk := CreatePage(c, left, file).st.w.disk; disk == left.st.w.disk || Restamped(left.st.w.disk, disk, file)
  {
    if !c.options.dryRun {
      var w := NextRequest(c.lib, c.others, left.st.w);
      AfterPostDisk(c, left, w, file, PostDocument(c.lib, w.server, TheClient, file.body));
    }
  }

  /** A leftover file is rewritten only when it names no page. */
  lemma FileStep(c: Context, left: Leftovers, file: LocalFile)
    ensures var next := SyncFile(c, left, file);
      || next.st.w.disk == left.st.w.disk
      || (next == CreatePage(c, left, file) && (file.meta.cloudId.Some? ==> file.meta.cloudId.value == ""))
  {
  }

  lemma StampKeepsPages(c: Context, scan: map<Path, string>, disk: map<Path, string>, disk': map<Path, string>, file: LocalFile)
    requires Orderly(c) && file in c.local && FilesKept(c, scan, disk) && OnlyZone(disk, disk', {file.path})
    requires file.meta.cloudId.Some? ==> file.meta.cloudId.value == ""
    ensures forall k :: 0 <= k < |c.pages| ==> PageKept(c, scan, disk', c.pages[k])
  {
  }

  lemma StampKeepsFiles(c: Context, scan: map<Path, string>, disk: map<Path, string>, disk': map<Path, string>, file: LocalFile)
    requires Orderly(c) && file in c.local && FilesKept(c, scan, disk) && OnlyZone(disk, disk', {file.path})
    requires file.path in disk' && IsStamp(disk'[file.path], file.body)
    ensures forall f :: f in c.local && !Claimed(c, f) ==> Holds(disk', {f.path}, scan[f.path], f.body)
  {
    forall f | f in c.local && !Claimed(c, f)
      ensures Holds(disk', {f.path}, scan[f.path], f.body)
    {
      if f.path == file.path {
        ClaimIsUnique(c, f, file);
      } else {
        assert Holds(disk, {f.path}, scan[f.path], f.body);
      }
    }
  }

  lemma FileKeeps(c: Context, left: Leftovers, file: LocalFile, scan: map<Path, string>)
    requires Orderly(c) && file in c.local && FilesKept(c, scan, left.st.w.disk)
    ensures FilesKept(c, scan, SyncFile(c, left, file).st.w.disk)
  {
    var disk, disk' := left.st.w.disk, SyncFile(c, left, file).st.w.disk;
    FileStep(c, left, file);
    if disk' != disk {
      CreateDisk(c, left, file);
      StampKeepsPages(c, scan, disk, disk', file);
      StampKeepsFiles(c, scan, disk, disk', file);
    }
  }

  lemma {:induction false} FilesKeep(c: Context, left: Leftovers, files: seq<LocalFile>, scan: map<Path, string>, i: nat)
    requires Orderly(c) && i <= |files| && (forall f :: f in files ==> f in c.local) && FilesKept(c, scan, left.st.w.disk)
    ensures FilesKept(c, scan, FilesFrom(c, left, files, i).st.w.disk)
    decreases |files| - i
  {
    if left.st.failed || i == |files| {
    } else {
      FileKeeps(c, left, files[i], scan);
      FilesKeep(c, SyncFile(c, left, files[i]), files, scan, i + 1);
    }
  }

  lemma PagesKeptMeansFilesKept(c: Context, scan: map<Path, string>, disk: map<Path, string>, n: nat)
    requires Orderly(c) && PagesKept(c, scan, disk, n)
    ensures forall f :: f in c.local ==> KeptIn(c.lib, disk, disk.Keys, scan[f.path], f)
    ensures n == |c.pages| ==> FilesKept(c, scan, disk)
  {
    forall f | f in c.local
      ensures KeptIn(c.lib, disk, disk.Keys, scan[f.path], f)
      ensures n == |c.pages| && !Claimed(c, f) ==> Holds(disk, {f.path}, scan[f.path], f.body)
    {
      if k :| 0 <= k < n && f.path in Zone(c, c.pages[k]) {
        assert f.path in Scanned(c);
        var claim := ClaimOf(c.local, c.pages[k].id);
        ClaimIsUnique(c, claim.value, f);
        assert PageKept(c, scan, disk, c.pages[k]);
        if Holds(disk, Zone(c, c.pages[k]), scan[f.path], f.body) {
          var p :| p in Zone(c, c.pages[k]) && p in disk && (disk[p] == scan[f.path] || IsStamp(disk[p], f.body));
        }
      } else {
        assert f.path in Scanned(c);
        assert f.path in disk && disk[f.path] == scan[f.path];
      }
    }
  }

  lemma FilesKeptMeansAllKept(c: Context, scan: map<Path, string>, disk: map<Path, string>)
    requires Orderly(c) && FilesKept(c, scan, disk)
    ensures forall f :: f in c.local ==> KeptIn(c.lib, disk, disk.Keys, scan[f.path], f)
  {
  }

  /** What a manifest guarantees. */
  ghost predicate DistinctSlots(slots: seq<Slot>) {
    && (forall i, j :: 0 <= i < j < |slots| ==> slots[i].id != slots[j].id && slots[i].path != slots[j].path)
    && (forall s :: s in slots ==> s.id != "")
  }

  /** The slot a manifest entry comes from. */
  ghost predicate FromSlot(page: Page, slots: seq<Slot>, heads: map<Id, Head>) {
    Slot(page.id, page.path, page.parentId, page.labels) in slots && page.id in heads && page.hash == heads[page.id].hash
  }

  lemma {:induction false} ManifestIsDistinct(slots: seq<Slot>, heads: map<Id, Head>)
    requires DistinctSlots(slots)
    ensures DistinctPages(Manifest(slots, heads))
    ensures forall page :: page in Manifest(slots, heads) ==> FromSlot(page, slots, heads)
  {
    if slots == [] {
    } else {
      ManifestIsDistinct(slots[1..], heads);
      var rest := Manifest(slots[1..], heads);
      forall page | page in rest
        ensures page.id != slots[0].id && page.path != slots[0].path
      {
        assert FromSlot(page, slots[1..], heads);
        var j :| 0 <= j < |slots[1..]| && slots[1..][j] == Slot(page.id, page.path, page.parentId, page.labels);
        assert slots[j + 1] == slots[1..][j];
      }
      var pages := Manifest(slots, heads);
      forall page | page in pages
        ensures FromSlot(page, slots, heads)
      {
        if page in rest {
          assert FromSlot(page, slots[1..], heads);
        }
      }
      forall i, j | 0 <= i < j < |pages|
        ensures pages[i].id != pages[j].id && pages[i].path != pages[j].path
      {
        if slots[0].id in heads {
          assert pages[j] == rest[j - 1];
          assert i > 0 ==> pages[i] == rest[i - 1];
          assert rest[j - 1] in rest;
        } else {
          assert pages == rest;
        }
      }
    }
  }

  lemma RunIsOrderly(s: Setting, w: World)
    requires Lists(s.order, w.disk) && DistinctSlots(s.slots) && UniqueClaims(ContextOf(s, w).local)
    ensures Orderly(ContextOf(s, w))
    ensures forall f :: f in ContextOf(s, w).local ==> f.path in w.disk && f == ReadFile(s.lib, f.path, w.disk[f.path])
    ensures Scanned(ContextOf(s, w)) == w.disk.Keys
  {
    var c := ContextOf(s, w);
    var heads := NextRequest(s.lib, s.others, w).server.store.heads;
    ManifestIsDistinct(s.slots, heads);
    forall page | page in c.pages
      ensures page.id != ""
    {
      assert FromSlot(page, s.slots, heads);
    }
    assert forall i :: 0 <= i < |c.local| ==> c.local[i].path == s.order[i];
    forall f | f in c.local
      ensures f.path in w.disk && f == ReadFile(s.lib, f.path, w.disk[f.path])
    {
      var i :| 0 <= i < |c.local| && c.local[i] == f;
    }
    forall p | p in w.disk
      ensures p in Scanned(c)
    {
      var i :| 0 <= i < |s.order| && s.order[i] == p;
      assert c.local[i] in c.local && c.local[i].path == p;
    }
  }

  lemma StepsKeep(c: Context, st: Progress, pages: Progress, scan: map<Path, string>)
    requires Orderly(c) && Scanned(c) <= st.occupied && PagesKept(c, scan, st.w.disk, 0) && pages == PagesFrom(c, st, 0)
    ensures forall f :: f in c.local ==> KeptIn(c.lib, pages.w.disk, pages.w.disk.Keys, scan[f.path], f)
    ensures !pages.failed ==>
      var disk := FilesFrom(c, Leftovers(pages, map[]), ParentFirst(c.local), 0).st.w.disk;
      forall f :: f in c.local ==> KeptIn(c.lib, disk, disk.Keys, scan[f.path], f)
  {
    var n := PagesKeep(c, st, scan, 0);
    PagesKeptMeansFilesKept(c, scan, pages.w.disk, n);
    if !pages.failed {
      var files := ParentFirst(c.local);
      assert forall f :: f in files ==> f in multiset(files);
      FilesKeep(c, Leftovers(pages, map[]), files, scan, 0);
      FilesKeptMeansAllKept(c, scan, FilesFrom(c, Leftovers(pages, map[]), files, 0).st.w.disk);
    }
  }

  lemma NothingDoneKeepsAll(s: Setting, w: World)
    requires Lists(s.order, w.disk)
    ensures forall f :: f in ContextOf(s, w).local ==> f.path in w.disk && KeptIn(s.lib, w.disk, w.disk.Keys, w.disk[f.path], f)
  {
    var c := ContextOf(s, w);
    forall f | f in c.local
      ensures f.path in w.disk && Holds(w.disk, w.disk.Keys, w.disk[f.path], f.body)
    {
      var i :| 0 <= i < |c.local| && c.local[i] == f;
    }
  }

  /** Over every schedule of other writers and of failing requests, whether the run finishes or ends half-way: every edited body is
      still in the directory, either in its untouched file or under fresh sync keys. */
  lemma NoLocalEditIsLost(s: Setting, w: World)
    requires Lists(s.order, w.disk) && DistinctSlots(s.slots)
    ensures forall f :: f in ContextOf(s, w).local ==>
      f.path in w.disk && KeptIn(s.lib, Run(s, w).w.disk, Run(s, w).w.disk.Keys, w.disk[f.path], f)
  {
    var c := ContextOf(s, w);
    NothingDoneKeepsAll(s, w);
    if s.faults(w.requests).Answered? && UniqueClaims(c.local) {
      RunIsOrderly(s, w);
      StepsKeep(c, Start(s, w), PagesFrom(c, Start(s, w), 0), w.disk);
    }
  }
}
