/** What each page and file of a run is reported as, and what the server answers. */
module SyncReport {
  import opened Wrappers
  import opened Text
  import opened Frontmatter
  import opened Revisions
  import opened Sync

  // ---------------------------------------------------------------------------------------------
  // The server's answers
  // ---------------------------------------------------------------------------------------------

  /** A PUT is an error for an empty source or an unknown page, a conflict when the head is not the expected one, and else the head
      afterwards is what the server keeps of the source; every other page stays as it is. */
  lemma PutAnswers(lib: Library, sv: Server, author: Author, id: Id, source: string, expected: string)
    ensures var put := PutDocument(lib, sv, author, id, source, expected);
      if Trim(source) == "" || id !in sv.store.heads then put == PutFailed
      else if sv.store.heads[id].hash != expected then put == PutConflict
      else
        var kept := lib.stored(sv.writes, source);
        && put.PutDone? && put.hash == lib.sha(kept) && put.server.writes == sv.writes + 1
        && put.server.store.heads.Keys == sv.store.heads.Keys
        && put.server.store.heads[id] == Head(lib.title(kept, sv.store.heads[id].title), kept, lib.sha(kept))
        && forall o :: o in sv.store.heads && o != id ==> put.server.store.heads[o] == sv.store.heads[o]
  {
  }

  /** A POST is an error for an empty source or when the drawn id is taken; else the new page holds what the server keeps of the source. */
  lemma PostAnswers(lib: Library, sv: Server, author: Author, source: string)
    ensures var post, id := PostDocument(lib, sv, author, source), lib.newId(sv.writes);
      if Trim(source) == "" || id in sv.store.heads then post == PostFailed
      else
        var kept := lib.stored(sv.writes, source);
        && post.PostDone? && post.id == id && post.hash == lib.sha(kept) && post.server.writes == sv.writes + 1
        && post.server.store.heads.Keys == sv.store.heads.Keys + {id}
        && post.server.store.heads[id] == Head(lib.title(kept, "Untitled document"), kept, lib.sha(kept))
        && forall o :: o in sv.store.heads ==> post.server.store.heads[o] == sv.store.heads[o]
  {
  }

  // ---------------------------------------------------------------------------------------------
  // Pages
  // ---------------------------------------------------------------------------------------------

  /** The step reports one thing more. */
  predicate Reports(st: Progress, next: Progress, kind: ActionKind, path: Path) {
    next.actions == st.actions + [Action(kind, path)]
  }

  /** What a page with a file comes to, by who changed since they were last in step: nobody, both alike, the page only, the file only, or
      both. A push may still turn out to be a conflict. */
  lemma ThreeWayTable(c: Context, st: Progress, page: Page, file: LocalFile)
    requires !st.failed && !KnownPage(c, st, page, file).failed
    ensures var next, base, mine := KnownPage(c, st, page, file), Base(file), c.lib.sha(file.body);
      && (mine == base == page.hash ==>
            if file.path != page.path && c.options.pull then Reports(st, next, Moved, page.path) else Reports(st, next, Unchanged, file.path))
      && (mine == page.hash != base ==> Reports(st, next, Converged, page.path))
      && (mine == base != page.hash ==> if c.options.pull then Reports(st, next, Pulled, page.path) else next == st)
      && (mine != base == page.hash ==>
            if !c.options.push then next == st
            else Reports(st, next, Pushed, file.path) || (!c.options.dryRun && Reports(st, next, Conflict, file.path)))
      && (mine != base && base != page.hash && mine != page.hash ==> Reports(st, next, Conflict, file.path))
  {
  }

  /** A push is refused as a conflict exactly when the server's head is not the one the file last synced with by then. */
  lemma PushConflictsExactly(c: Context, st: Progress, page: Page, file: LocalFile)
    requires !st.failed && !PushPage(c, st, page, file).failed
    ensures var heads := NextRequest(c.lib, c.others, st.w).server.store.heads;
      && page.id in heads
      && (Reports(st, PushPage(c, st, page, file), Conflict, file.path) <==> heads[page.id].hash != Base(file))
      && (Reports(st, PushPage(c, st, page, file), Pushed, file.path) <==> heads[page.id].hash == Base(file))
  {
    var w := NextRequest(c.lib, c.others, st.w);
    PutAnswers(c.lib, w.server, TheClient, page.id, file.body, Base(file));
    assert (st.actions + [Action(Conflict, file.path)])[|st.actions|] != (st.actions + [Action(Pushed, file.path)])[|st.actions|];
  }

  /** A page without a file is pulled to its path, unless a scanned file lies there: then that is a conflict, and the path is blocked. */
  lemma NewPageReports(c: Context, st: Progress, page: Page)
    requires !st.failed && ClaimOf(c.local, page.id).None? && !SyncPage(c, st, page).failed
    ensures var next := SyncPage(c, st, page);
      if !c.options.pull then next == st
      else if page.path in st.occupied then
        Reports(st, next, Conflict, page.path) && next.blocked == st.blocked + {page.path} && next.w == st.w && next.occupied == st.occupied
      else Reports(st, next, Pulled, page.path) && next.occupied == st.occupied + {page.path} && next.blocked == st.blocked
  {
  }

  /** A page keeps its file's path when its own is taken by another file. */
  lemma TakenPathIsKept(c: Context, st: Progress, page: Page, file: LocalFile)
    requires ClaimOf(c.local, page.id) == Some(file)
    ensures page.path != file.path && page.path in st.occupied ==> SyncPage(c, st, page) == KnownPage(c, st, page.(path := file.path), file)
    ensures page.path == file.path || page.path !in st.occupied ==> SyncPage(c, st, page) == KnownPage(c, st, page, file)
  {
  }

  // ---------------------------------------------------------------------------------------------
  // Files
  // ---------------------------------------------------------------------------------------------

  /** What a file comes to that no page claims: nothing at a blocked path; a missing page when it names one the manifest does not have; a
      new page when it names none. */
  lemma LeftoverReports(c: Context, left: Leftovers, file: LocalFile)
    requires !left.st.failed && !SyncFile(c, left, file).st.failed
    ensures var next := SyncFile(c, left, file);
      if file.path in left.st.blocked then next == left
      else if file.meta.cloudId.Some? && file.meta.cloudId.value != "" then
        if exists p :: p in c.pages && Some(p.id) == file.meta.cloudId then next == left
        else Reports(left.st, next.st, RemoteMissing, file.path) && next.st.w == left.st.w && next.created == left.created
      else if !c.options.push then next == left
      else Reports(left.st, next.st, Created, file.path) && (if c.options.dryRun then next.created == left.created else
             file.path in next.created && next.created[file.path] in next.st.w.server.store.heads)
  {
  }
}
