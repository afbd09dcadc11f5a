/** What the options of a run forbid, and what its report tells. */
module SyncOptions {
  import opened Wrappers
  import opened Text
  import opened Frontmatter
  import opened Revisions
  import opened Sync
  import opened SyncSafety

  // ---------------------------------------------------------------------------------------------
  // A dry run
  // ---------------------------------------------------------------------------------------------

  lemma DryPage(c: Context, st: Progress, page: Page)
    requires c.options.dryRun
    ensures SyncPage(c, st, page).w == st.w && SyncPage(c, st, page).failed == st.failed
  {
  }

  lemma DryFile(c: Context, left: Leftovers, file: LocalFile)
    requires c.options.dryRun
    ensures SyncFile(c, left, file).st.w == left.st.w && SyncFile(c, left, file).st.failed == left.st.failed
  {
  }

  lemma {:induction false} DryPages(c: Context, st: Progress, i: nat)
    requires c.options.dryRun && i <= |c.pages|
    ensures PagesFrom(c, st, i).w == st.w && PagesFrom(c, st, i).failed == st.failed
    decreases |c.pages| - i
  {
    if st.failed || i == |c.pages| {
    } else {
      DryPage(c, st, c.pages[i]);
      DryPages(c, SyncPage(c, st, c.pages[i]), i + 1);
    }
  }

  lemma {:induction false} DryFiles(c: Context, left: Leftovers, files: seq<LocalFile>, i: nat)
    requires c.options.dryRun && i <= |files|
    ensures FilesFrom(c, left, files, i).st.w == left.st.w && FilesFrom(c, left, files, i).st.failed == left.st.failed
    decreases |files| - i
  {
    if left.st.failed || i == |files| {
    } else {
      DryFile(c, left, files[i]);
      DryFiles(c, SyncFile(c, left, files[i]), files, i + 1);
    }
  }

  /** A dry run makes one request, for the manifest: the directory stays as it is, and the server is what the others made of it. */
  lemma DryRunOnlyReports(s: Setting, w: World)
    requires Lists(s.order, w.disk) && s.options.dryRun
    ensures var w' := Run(s, w).w;
      && w'.disk == w.disk && w'.conflicts == w.conflicts && w'.requests == w.requests + 1
      && w'.server == OtherWrites(s.lib, w.server, s.others(w.requests))
  {
    var c, st := ContextOf(s, w), Start(s, w);
    DryPages(c, st, 0);
    DryFiles(c, Leftovers(PagesFrom(c, st, 0), map[]), ParentFirst(c.local), 0);
  }

  // ---------------------------------------------------------------------------------------------
  // Without push
  // ---------------------------------------------------------------------------------------------

  /** The log has grown by changes of other writers only. */
  ghost predicate OnlyOthers(before: seq<Change>, after: seq<Change>) {
    before <= after && forall i :: |before| <= i < |after| ==> after[i].author == AnotherWriter
  }

  lemma OthersThen(a: seq<Change>, b: seq<Change>, c: seq<Change>)
    requires OnlyOthers(a, b) && OnlyOthers(b, c)
    ensures OnlyOthers(a, c)
  {
  }

  lemma {:induction false} OthersOnly(lib: Library, sv: Server, writes: seq<Foreign>)
    ensures OnlyOthers(sv.log, OtherWrites(lib, sv, writes).log)
  {
    if writes == [] {
    } else {
      var n := |writes| - 1;
      OthersOnly(lib, sv, writes[..n]);
      OneOther(lib, OtherWrites(lib, sv, writes[..n]), writes[n]);
    }
  }

  lemma OneOther(lib: Library, sv: Server, write: Foreign)
    ensures OnlyOthers(sv.log, OtherWrite(lib, sv, write).log)
  {
  }

  lemma RequestIsOthers(c: Context, w: World)
    ensures OnlyOthers(w.server.log, NextRequest(c.lib, c.others, w).server.log)
  {
    OthersOnly(c.lib, w.server, c.others(w.requests));
  }

  ghost predicate NoneOf(actions: seq<Action>, a: ActionKind, b: ActionKind) {
    forall action :: action in actions ==> action.kind != a && action.kind != b
  }

  lemma PullIsOthers(c: Context, st: Progress, page: Page, file: Option<LocalFile>)
    ensures OnlyOthers(st.w.server.log, PullPage(c, st, page, file).w.server.log)
  {
    RequestIsOthers(c, st.w);
  }

  lemma ConflictIsOthers(c: Context, st: Progress, w: World, page: Page, file: LocalFile)
    ensures OnlyOthers(w.server.log, RecordConflict(c, st, w, page, file).w.server.log)
  {
    RequestIsOthers(c, w);
  }

  /** What the server sees of a page step without push. */
  lemma QuietServer(c: Context, st: Progress, page: Page, file: LocalFile)
    requires !c.options.push
    ensures var server := KnownPage(c, st, page, file).w.server;
      || server == st.w.server
      || server == PullPage(c, st, page, Some(file)).w.server
      || server == RecordConflict(c, st, st.w, page, file).w.server
  {
  }

  lemma QuietKnownPage(c: Context, st: Progress, page: Page, file: LocalFile)
    requires !c.options.push
    ensures OnlyOthers(st.w.server.log, KnownPage(c, st, page, file).w.server.log)
  {
    QuietServer(c, st, page, file);
    PullIsOthers(c, st, page, Some(file));
    ConflictIsOthers(c, st, st.w, page, file);
  }

  lemma QuietKnownReport(c: Context, st: Progress, page: Page, file: LocalFile)
    requires !c.options.push && NoneOf(st.actions, Pushed, Created)
    ensures NoneOf(KnownPage(c, st, page, file).actions, Pushed, Created)
  {
  }

  lemma QuietReport(c: Context, st: Progress, page: Page)
    requires !c.options.push && NoneOf(st.actions, Pushed, Created)
    ensures NoneOf(SyncPage(c, st, page).actions, Pushed, Created)
  {
    match ClaimOf(c.local, page.id)
    case None =>
    case Some(file) =>
      QuietKnownReport(c, st, if page.path != file.path && page.path in st.occupied then page.(path := file.path) else page, file);
  }

  lemma QuietPage(c: Context, st: Progress, page: Page)
    requires !c.options.push
    ensures OnlyOthers(st.w.server.log, SyncPage(c, st, page).w.server.log)
  {
    match ClaimOf(c.local, page.id)
    case None =>
      PullIsOthers(c, st.(occupied := st.occupied + {page.path}), page, None);
    case Some(file) =>
      QuietKnownPage(c, st, if page.path != file.path && page.path in st.occupied then page.(path := file.path) else page, file);
  }

  lemma QuietFile(c: Context, left: Leftovers, file: LocalFile)
    requires !c.options.push
    ensures var next := SyncFile(c, left, file).st;
      next.w == left.st.w && (NoneOf(left.st.actions, Pushed, Created) ==> NoneOf(next.actions, Pushed, Created))
  {
  }

  lemma {:induction false} QuietPages(c: Context, st: Progress, i: nat)
    requires !c.options.push && i <= |c.pages| && NoneOf(st.actions, Pushed, Created)
    ensures var last := PagesFrom(c, st, i); OnlyOthers(st.w.server.log, last.w.server.log) && NoneOf(last.actions, Pushed, Created)
    decreases |c.pages| - i
  {
    if st.failed || i == |c.pages| {
    } else {
      var next := SyncPage(c, st, c.pages[i]);
      QuietPage(c, st, c.pages[i]);
      QuietReport(c, st, c.pages[i]);
      QuietPages(c, next, i + 1);
      OthersThen(st.w.server.log, next.w.server.log, PagesFrom(c, next, i + 1).w.server.log);
    }
  }

  lemma {:induction false} QuietFiles(c: Context, left: Leftovers, files: seq<LocalFile>, i: nat)
    requires !c.options.push && i <= |files| && NoneOf(left.st.actions, Pushed, Created)
    ensures var last := FilesFrom(c, left, files, i).st; last.w == left.st.w && NoneOf(last.actions, Pushed, Created)
    decreases |files| - i
  {
    if left.st.failed || i == |files| {
    } else {
      QuietFile(c, left, files[i]);
      QuietFiles(c, SyncFile(c, left, files[i]), files, i + 1);
    }
  }

  /** Without push, over every schedule: the run writes nothing to the server and reports no push and no created page. */
  lemma WithoutPushNothingIsSent(s: Setting, w: World)
    requires Lists(s.order, w.disk) && !s.options.push
    ensures OnlyOthers(w.server.log, Run(s, w).w.server.log) && NoneOf(Run(s, w).actions, Pushed, Created)
  {
    var c, st := ContextOf(s, w), Start(s, w);
    RequestIsOthers(c, w);
    QuietPages(c, st, 0);
    QuietFiles(c, Leftovers(PagesFrom(c, st, 0), map[]), ParentFirst(c.local), 0);
    OthersThen(w.server.log, st.w.server.log, PagesFrom(c, st, 0).w.server.log);
  }

  // ---------------------------------------------------------------------------------------------
  // Without pull
  // ---------------------------------------------------------------------------------------------

  /** Every file in the directory is a scanned one, or the body of a scanned one under sync keys. */
  ghost predicate OwnBodies(local: seq<LocalFile>, scan: map<Path, string>, disk: map<Path, string>) {
    forall p :: p in disk ==> exists f :: f in local && OwnBody(f, scan, disk[p])
  }

  ghost predicate OwnBody(f: LocalFile, scan: map<Path, string>, content: string) {
    (f.path in scan && content == scan[f.path]) || IsStamp(content, f.body)
  }

  /** Nothing but removals and stamps of the file's body. */
  ghost predicate Rewrote(disk: map<Path, string>, disk': map<Path, string>, file: LocalFile) {
    forall p :: p in disk' ==> (p in disk && disk'[p] == disk[p]) || IsStamp(disk'[p], file.body)
  }

  lemma RewroteKeepsOwn(c: Context, scan: map<Path, string>, disk: map<Path, string>, disk': map<Path, string>, file: LocalFile)
    requires OwnBodies(c.local, scan, disk) && Rewrote(disk, disk', file) && file in c.local
    ensures OwnBodies(c.local, scan, disk')
  {
    forall p | p in disk'
      ensures exists f :: f in c.local && OwnBody(f, scan, disk'[p])
    {
      if IsStamp(disk'[p], file.body) {
        assert OwnBody(file, scan, disk'[p]);
      }
    }
  }

  lemma PushRewrites(c: Context, st: Progress, page: Page, file: LocalFile)
    ensures Rewrote(st.w.disk, PushPage(c, st, page, file).w.disk, file)
  {
    var w := NextRequest(c.lib, c.others, st.w);
    AfterPutRewrites(c, st, w, page, file, PutDocument(c.lib, w.server, TheClient, page.id, file.body, Base(file)));
  }

  lemma AfterPutRewrites(c: Context, st: Progress, w: World, page: Page, file: LocalFile, put: Put)
    requires w.disk == st.w.disk
    ensures Rewrote(st.w.disk, AfterPut(c, st, w, page, file, put).w.disk, file)
  {
  }

  lemma KnownPageRewrites(c: Context, st: Progress, page: Page, file: LocalFile)
    requires !c.options.pull
    ensures Rewrote(st.w.disk, KnownPage(c, st, page, file).w.disk, file)
  {
    PushRewrites(c, st, page, file);
  }

  lemma StillPage(c: Context, st: Progress, page: Page, scan: map<Path, string>)
    requires !c.options.pull && OwnBodies(c.local, scan, st.w.disk)
    ensures OwnBodies(c.local, scan, SyncPage(c, st, page).w.disk)
  {
    match ClaimOf(c.local, page.id)
    case None =>
    case Some(file) =>
      var page' := if page.path != file.path && page.path in st.occupied then page.(path := file.path) else page;
      KnownPageRewrites(c, st, page', file);
      RewroteKeepsOwn(c, scan, st.w.disk, KnownPage(c, st, page', file).w.disk, file);
  }

  lemma StillReport(c: Context, st: Progress, page: Page)
    requires !c.options.pull && NoneOf(st.actions, Pulled, Moved)
    ensures NoneOf(SyncPage(c, st, page).actions, Pulled, Moved)
  {
  }

  lemma StillFile(c: Context, left: Leftovers, file: LocalFile, scan: map<Path, string>)
    requires file in c.local && OwnBodies(c.local, scan, left.st.w.disk)
    ensures OwnBodies(c.local, scan, SyncFile(c, left, file).st.w.disk)
  {
    var disk, disk' := left.st.w.disk, SyncFile(c, left, file).st.w.disk;
    FileStep(c, left, file);
    CreateDisk(c, left, file);
    if disk' != disk {
      assert Rewrote(disk, disk', file);
      RewroteKeepsOwn(c, scan, disk, disk', file);
    }
  }

  lemma StillFileReport(c: Context, left: Leftovers, file: LocalFile)
    requires NoneOf(left.st.actions, Pulled, Moved)
    ensures NoneOf(SyncFile(c, left, file).st.actions, Pulled, Moved)
  {
  }

  lemma {:induction false} StillPages(c: Context, st: Progress, i: nat, scan: map<Path, string>)
    requires !c.options.pull && i <= |c.pages| && OwnBodies(c.local, scan, st.w.disk) && NoneOf(st.actions, Pulled, Moved)
    ensures var last := PagesFrom(c, st, i); OwnBodies(c.local, scan, last.w.disk) && NoneOf(last.actions, Pulled, Moved)
    decreases |c.pages| - i
  {
    if st.failed || i == |c.pages| {
    } else {
      StillPage(c, st, c.pages[i], scan);
      StillReport(c, st, c.pages[i]);
      StillPages(c, SyncPage(c, st, c.pages[i]), i + 1, scan);
    }
  }

  lemma {:induction false} StillFiles(c: Context, left: Leftovers, files: seq<LocalFile>, i: nat, scan: map<Path, string>)
    requires i <= |files| && (forall f :: f in files ==> f in c.local)
    requires OwnBodies(c.local, scan, left.st.w.disk) && NoneOf(left.st.actions, Pulled, Moved)
    ensures var last := FilesFrom(c, left, files, i).st; OwnBodies(c.local, scan, last.w.disk) && NoneOf(last.actions, Pulled, Moved)
    decreases |files| - i
  {
    if left.st.failed || i == |files| {
    } else {
      StillFile(c, left, files[i], scan);
      StillFileReport(c, left, files[i]);
      StillFiles(c, SyncFile(c, left, files[i]), files, i + 1, scan);
    }
  }

  lemma ScanIsOwn(s: Setting, w: World)
    requires Lists(s.order, w.disk)
    ensures OwnBodies(ContextOf(s, w).local, w.disk, w.disk)
  {
    var local := ContextOf(s, w).local;
    forall p | p in w.disk
      ensures exists f :: f in local && OwnBody(f, w.disk, w.disk[p])
    {
      var i :| 0 <= i < |s.order| && s.order[i] == p;
      assert local[i] in local && local[i].path == p;
    }
  }

  /** Without pull, over every schedule: no text of the server's comes into the directory, and the run reports no pulled and no moved
      page. */
  lemma WithoutPullNothingArrives(s: Setting, w: World)
    requires Lists(s.order, w.disk) && !s.options.pull
    ensures OwnBodies(ContextOf(s, w).local, w.disk, Run(s, w).w.disk) && NoneOf(Run(s, w).actions, Pulled, Moved)
  {
    var c, st := ContextOf(s, w), Start(s, w);
    var files := ParentFirst(c.local);
    ScanIsOwn(s, w);
    StillPages(c, st, 0, w.disk);
    assert forall f :: f in files ==> f in multiset(files);
    StillFiles(c, Leftovers(PagesFrom(c, st, 0), map[]), files, 0, w.disk);
  }

  // ---------------------------------------------------------------------------------------------
  // The report
  // ---------------------------------------------------------------------------------------------

  /** How many changes of the client's a log holds. */
  function Sent(log: seq<Change>): nat {
    if log == [] then 0 else Sent(log[..|log| - 1]) + (if log[|log| - 1].author == TheClient then 1 else 0)
  }

  /** How many pages a report calls pushed or created. */
  function Reported(actions: seq<Action>): nat {
    if actions == [] then 0
    else
      var last := actions[|actions| - 1].kind;
      Reported(actions[..|actions| - 1]) + (if last == Pushed || last == Created then 1 else 0)
  }

  /** The report tells what was sent since; a run that failed may have sent one page more. */
  ghost predicate Balanced(st: Progress, next: Progress) {
    var sent, told := Sent(next.w.server.log) - Sent(st.w.server.log), Reported(next.actions) - Reported(st.actions);
    sent == told || (next.failed && sent == told + 1)
  }

  lemma {:induction false} OthersAreNotSent(before: seq<Change>, after: seq<Change>)
    requires OnlyOthers(before, after)
    ensures Sent(after) == Sent(before)
    decreases |after|
  {
    if |after| > |before| {
      OthersAreNotSent(before, after[..|after| - 1]);
    } else {
      assert after == before;
    }
  }

  lemma SentOne(log: seq<Change>, change: Change)
    ensures Sent(log + [change]) == Sent(log) + (if change.author == TheClient then 1 else 0)
  {
    assert (log + [change])[..|log|] == log;
  }

  lemma ReportedOne(actions: seq<Action>, a: Action)
    ensures Reported(actions + [a]) == Reported(actions) + (if a.kind == Pushed || a.kind == Created then 1 else 0)
  {
    assert (actions + [a])[..|actions|] == actions;
  }

  lemma PutIsSent(lib: Library, sv: Server, id: Id, source: string, expected: string)
    ensures var put := PutDocument(lib, sv, TheClient, id, source, expected); put.PutDone? ==> Sent(put.server.log) == Sent(sv.log) + 1
  {
    var put := PutDocument(lib, sv, TheClient, id, source, expected);
    if put.PutDone? {
      SentOne(sv.log, put.server.log[|sv.log|]);
      assert put.server.log == sv.log + [put.server.log[|sv.log|]];
    }
  }

  lemma PostIsSent(lib: Library, sv: Server, source: string)
    ensures var post := PostDocument(lib, sv, TheClient, source); post.PostDone? ==> Sent(post.server.log) == Sent(sv.log) + 1
  {
    var post := PostDocument(lib, sv, TheClient, source);
    if post.PostDone? {
      SentOne(sv.log, post.server.log[|sv.log|]);
      assert post.server.log == sv.log + [post.server.log[|sv.log|]];
    }
  }

  lemma DidBalances(st: Progress, w: World, kind: ActionKind, path: Path)
    requires kind != Pushed && kind != Created && Sent(w.server.log) == Sent(st.w.server.log)
    ensures Balanced(st, Did(st, w, kind, path))
  {
    ReportedOne(st.actions, Action(kind, path));
  }

  lemma PullBalances(c: Context, st: Progress, page: Page, file: Option<LocalFile>)
    ensures Balanced(st, PullPage(c, st, page, file))
  {
    PullIsOthers(c, st, page, file);
    OthersAreNotSent(st.w.server.log, PullPage(c, st, page, file).w.server.log);
    ReportedOne(st.actions, Action(Pulled, page.path));
  }

  lemma ConflictBalances(c: Context, st: Progress, w: World, page: Page, file: LocalFile)
    requires Sent(w.server.log) == Sent(st.w.server.log)
    ensures Balanced(st, RecordConflict(c, st, w, page, file))
  {
    ConflictIsOthers(c, st, w, page, file);
    OthersAreNotSent(w.server.log, RecordConflict(c, st, w, page, file).w.server.log);
    ReportedOne(st.actions, Action(Conflict, file.path));
  }

  lemma SendingBalances(st: Progress, w: World, kind: ActionKind, path: Path)
    requires (kind == Pushed || kind == Created) && Sent(w.server.log) == Sent(st.w.server.log) + 1
    ensures Balanced(st, Did(st, w, kind, path)) && Balanced(st, st.(w := w, failed := true))
  {
    ReportedOne(st.actions, Action(kind, path));
  }

  lemma FailureBalances(st: Progress, w: World)
    requires Sent(w.server.log) == Sent(st.w.server.log)
    ensures Balanced(st, st.(w := w, failed := true))
  {
  }

  lemma AfterPutBalances(c: Context, st: Progress, w: World, page: Page, file: LocalFile, put: Put)
    requires Sent(w.server.log) == Sent(st.w.server.log) && (put.PutDone? ==> Sent(put.server.log) == Sent(w.server.log) + 1)
    ensures Balanced(st, AfterPut(c, st, w, page, file, put))
  {
    FailureBalances(st, w);
    if put.PutDone? {
      var disk := w.disk[file.path := Render(page, file.body, put.hash)];
      SendingBalances(st, w.(server := put.server), Pushed, file.path);
      SendingBalances(st, w.(server := put.server, disk := disk), Pushed, file.path);
    } else {
      ConflictBalances(c, st, w, page, file);
    }
  }

  lemma PushBalances(c: Context, st: Progress, page: Page, file: LocalFile)
    ensures Balanced(st, PushPage(c, st, page, file))
  {
    var w := NextRequest(c.lib, c.others, st.w);
    RequestIsOthers(c, st.w);
    OthersAreNotSent(st.w.server.log, w.server.log);
    PutIsSent(c.lib, w.server, page.id, file.body, Base(file));
    AfterPutBalances(c, st, w, page, file, PutDocument(c.lib, w.server, TheClient, page.id, file.body, Base(file)));
  }

  /** A page step with a file reports without the server, or is one of the three that talk to it. */
  lemma KnownPageOutcome(c: Context, st: Progress, page: Page, file: LocalFile) returns (w: World, kind: ActionKind, path: Path)
    requires !c.options.dryRun
    ensures w.server == st.w.server && kind != Pushed && kind != Created
    ensures var next := KnownPage(c, st, page, file);
      || next == st || next == Did(st, w, kind, path)
      || next == PullPage(c, st, page, Some(file)) || next == PushPage(c, st, page, file) || next == RecordConflict(c, st, st.w, page, file)
  {
    var next := KnownPage(c, st, page, file);
    w, kind, path := if next.w.server == st.w.server then next.w else st.w, Unchanged, file.path;
    if file.path != page.path && c.options.pull && c.lib.sha(file.body) == Base(file) == page.hash {
      kind, path := Moved, page.path;
    } else if c.lib.sha(file.body) != Base(file) {
      kind, path := Converged, page.path;
    }
  }

  lemma KnownPageBalances(c: Context, st: Progress, page: Page, file: LocalFile)
    requires !c.options.dryRun
    ensures Balanced(st, KnownPage(c, st, page, file))
  {
    var w, kind, path := KnownPageOutcome(c, st, page, file);
    DidBalances(st, w, kind, path);
    PullBalances(c, st, page, Some(file));
    PushBalances(c, st, page, file);
    ConflictBalances(c, st, st.w, page, file);
  }

  lemma PageBalances(c: Context, st: Progress, page: Page)
    requires !c.options.dryRun
    ensures Balanced(st, SyncPage(c, st, page))
  {
    match ClaimOf(c.local, page.id)
    case None =>
      PullBalances(c, st.(occupied := st.occupied + {page.path}), page, None);
      ReportedOne(st.actions, Action(Conflict, page.path));
    case Some(file) =>
      KnownPageBalances(c, st, if page.path != file.path && page.path in st.occupied then page.(path := file.path) else page, file);
  }

  lemma AfterPostBalances(c: Context, left: Leftovers, w: World, file: LocalFile, post: Post)
    requires Sent(w.server.log) == Sent(left.st.w.server.log) && (post.PostDone? ==> Sent(post.server.log) == Sent(w.server.log) + 1)
    ensures Balanced(left.st, AfterPost(c, left, w, file, post).st)
  {
    ReportedOne(left.st.actions, Action(Created, file.path));
  }

  lemma FileBalances(c: Context, left: Leftovers, file: LocalFile)
    requires !c.options.dryRun
    ensures Balanced(left.st, SyncFile(c, left, file).st)
  {
    var w := NextRequest(c.lib, c.others, left.st.w);
    RequestIsOthers(c, left.st.w);
    OthersAreNotSent(left.st.w.server.log, w.server.log);
    PostIsSent(c.lib, w.server, file.body);
    AfterPostBalances(c, left, w, file, PostDocument(c.lib, w.server, TheClient, file.body));
    ReportedOne(left.st.actions, Action(RemoteMissing, file.path));
  }

  lemma {:induction false} PagesBalance(c: Context, st: Progress, i: nat)
    requires !c.options.dryRun && i <= |c.pages| && !st.failed
    ensures Balanced(st, PagesFrom(c, st, i))
    decreases |c.pages| - i
  {
    if i == |c.pages| {
    } else {
      var next := SyncPage(c, st, c.pages[i]);
      PageBalances(c, st, c.pages[i]);
      if !next.failed {
        PagesBalance(c, next, i + 1);
      }
    }
  }

  lemma {:induction false} FilesBalance(c: Context, left: Leftovers, files: seq<LocalFile>, i: nat)
    requires !c.options.dryRun && i <= |files| && !left.st.failed
    ensures Balanced(left.st, FilesFrom(c, left, files, i).st)
    decreases |files| - i
  {
    if i == |files| {
    } else {
      var next := SyncFile(c, left, files[i]);
      FileBalances(c, left, files[i]);
      if !next.st.failed {
        FilesBalance(c, next, files, i + 1);
      }
    }
  }

  /** Over every schedule a run that is not dry sends exactly as many pages as it reports pushed or created; one that ends half-way may
      have sent one more, whose reply was lost. */
  lemma ReportTellsWhatWasSent(s: Setting, w: World)
    requires Lists(s.order, w.disk) && !s.options.dryRun
    ensures var last := Run(s, w); var sent := Sent(last.w.server.log) - Sent(w.server.log);
      sent == Reported(last.actions) || (last.failed && sent == Reported(last.actions) + 1)
  {
    var c, st := ContextOf(s, w), Start(s, w);
    RequestIsOthers(c, w);
    OthersAreNotSent(w.server.log, st.w.server.log);
    PagesBalance(c, st, 0);
    var pages := PagesFrom(c, st, 0);
    if !pages.failed {
      FilesBalance(c, Leftovers(pages, map[]), ParentFirst(c.local), 0);
    }
  }
}
