/** With nobody else writing, one conflict-free run settles the directory, and a second run finds nothing to do exactly when the
    server kept what the first one sent. */
module SyncFixpoint {
  import opened Wrappers
  import opened Text
  import opened Frontmatter
  import opened Revisions
  import opened Sync
  import opened SyncSafety
  import Json

  /** Nobody else writes, and every request is answered. */
  ghost predicate Quiet(others: nat -> seq<Foreign>, faults: nat -> Fault) {
    forall k :: others(k) == [] && faults(k) == Answered
  }

  // ---------------------------------------------------------------------------------------------
  // Reading back what was written
  // ---------------------------------------------------------------------------------------------

  /** A source in the domain of the frontmatter round trip, with newlines only. */
  ghost predicate Plain(source: string) {
    !Unfaithful(source) && NoReturns(source)
  }

  ghost predicate CleanText(value: string) {
    Clean(value) && NoReturns(value)
  }

  ghost predicate OptionalClean(value: Option<string>) {
    value.Some? && value.value != "" ==> CleanText(value.value)
  }

  ghost predicate CleanSyncKeys(keys: SyncKeys) {
    CleanText(keys.id) && CleanText(keys.hash) && OptionalClean(keys.parentId)
  }

  lemma KeyLinesNoReturns(keys: SyncKeys)
    requires CleanSyncKeys(keys)
    ensures forall line :: line in KeyLines(keys) ==> NoReturns(line)
  {
    Json.ArrayPrintable(keys.labels);
    forall key: Key
      ensures NoReturns(KeyName(key) + " ")
    {
    }
    assert NoReturns(Json.QuoteArray(keys.labels));
  }

  lemma StampNoReturns(source: string, keys: SyncKeys)
    requires CleanSyncKeys(keys) && NoReturns(source)
    ensures NoReturns(WithSyncFrontmatter(source, keys))
  {
    var split := SplitFrontmatter(source);
    var lines := if split.Some? then split.value.lines else [];
    KeyLinesNoReturns(keys);
    if lines != [] {
      SplitParts(source);
      UnlinesNoReturns(lines);
    }
    UnlinesNoReturns(KeyLines(keys) + lines);
    assert KeyLines(keys) + [] == KeyLines(keys);
  }

  /** A stamped source reads back as its body and its keys. */
  lemma StampReads(lib: Library, path: Path, source: string, keys: SyncKeys)
    requires CleanSyncKeys(keys) && Plain(source)
    ensures var file := ReadFile(lib, path, WithSyncFrontmatter(source, keys)); file.body == source && file.meta == MetaFor(keys)
  {
    var raw := WithSyncFrontmatter(source, keys);
    StampNoReturns(source, keys);
    NormalizeKeeps(raw);
    StripInvertsStamp(source, keys, lib.labelText);
  }

  // ---------------------------------------------------------------------------------------------
  // Settled files
  // ---------------------------------------------------------------------------------------------

  /** The pages as the server holds them, and those among them that a write of this run made different from what was sent. */
  datatype View = View(heads: map<Id, Head>, stale: set<Id>)

  function Since(start: seq<Change>, log: seq<Change>): seq<Change> {
    if |start| <= |log| then log[|start|..] else []
  }

  function StaleIds(lib: Library, log: seq<Change>): set<Id> {
    set change | change in log && lib.sha(change.kept) != lib.sha(change.sent) :: change.id
  }

  /** `start` is the server as the run found it. */
  function Seen(lib: Library, start: Server, sv: Server): View {
    View(sv.store.heads, StaleIds(lib, Since(start.log, sv.log)))
  }

  function CloudId(lib: Library, raw: string): Option<string> {
    ReadFile(lib, "", raw).meta.cloudId
  }

  /** The file names the page, and its body, its base and the server agree. */
  ghost predicate FileSettled(lib: Library, raw: string, id: Id, hash: string) {
    var file := ReadFile(lib, "", raw);
    file.meta.cloudId == Some(id) && file.meta.cloudHash == Some(hash) && lib.sha(file.body) == hash
  }

  /** The file names the page and its current hash; its body has that hash exactly when the page is not stale. */
  ghost predicate FileStands(lib: Library, raw: string, v: View, id: Id) {
    var file := ReadFile(lib, "", raw);
    && id in v.heads && file.meta.cloudId == Some(id) && file.meta.cloudHash == Some(v.heads[id].hash)
    && (lib.sha(file.body) == v.heads[id].hash <==> id !in v.stale)
  }

  ghost predicate SettledAt(lib: Library, disk: map<Path, string>, v: View, zone: set<Path>, id: Id, p: Path) {
    && p in zone && p in disk && FileStands(lib, disk[p], v, id)
    && forall q :: q in zone && q in disk ==> q == p
  }

  /** Exactly one file of the zone is left, and it stands for the page. */
  ghost predicate ZoneSettled(c: Context, disk: map<Path, string>, v: View, page: Page) {
    exists p :: SettledAt(c.lib, disk, v, Zone(c, page), page.id, p)
  }

  /** What the run needs of the pages and of the library: clean keys, and sources in the round-trip domain. */
  ghost predicate CleanPage(page: Page) {
    CleanText(page.id) && OptionalClean(page.parentId)
  }

  ghost predicate CleanHead(lib: Library, head: Head) {
    head.hash == lib.sha(head.source) && Plain(head.source)
  }

  ghost predicate CleanHeads(lib: Library, slots: seq<Slot>, heads: map<Id, Head>) {
    forall slot :: slot in slots && slot.id in heads ==> CleanHead(lib, heads[slot.id])
  }

  ghost predicate CleanHashes(lib: Library) {
    forall x :: CleanText(lib.sha(x))
  }

  lemma RenderReads(c: Context, page: Page, source: string, hash: string)
    requires CleanText(hash) && CleanPage(page) && Plain(source)
    ensures var file := ReadFile(c.lib, "", Render(page, source, hash));
      file.body == source && file.meta.cloudId == Some(page.id) && file.meta.cloudHash == Some(hash)
  {
    StampReads(c.lib, "", source, SyncKeys(page.id, hash, page.parentId, page.labels));
  }

  /** The zone of a page before its step. */
  ghost predicate ZoneFresh(c: Context, disk: map<Path, string>, page: Page) {
    var claim := ClaimOf(c.local, page.id);
    && (forall q :: q in Zone(c, page) && q in disk ==> claim.Some? && q == claim.value.path)
    && (claim.Some? ==> claim.value.path in disk && claim.value == ReadFile(c.lib, claim.value.path, disk[claim.value.path]))
  }

  lemma WriteSettlesZone(c: Context, disk: map<Path, string>, disk': map<Path, string>, v: View, page: Page, target: Path)
    requires ZoneFresh(c, disk, page) && target in Zone(c, page) && target in disk'
    requires FileStands(c.lib, disk'[target], v, page.id)
    requires forall q :: q in disk' && q != target ==> q in disk && (ClaimOf(c.local, page.id).Some? ==> q != ClaimOf(c.local, page.id).value.path)
    ensures ZoneSettled(c, disk', v, page)
  {
    assert SettledAt(c.lib, disk', v, Zone(c, page), page.id, target);
  }

  // ---------------------------------------------------------------------------------------------
  // One page, undisturbed
  // ---------------------------------------------------------------------------------------------

  ghost predicate NoConflict(actions: seq<Action>) {
    forall a :: a in actions ==> a.kind != Conflict
  }

  /** The surroundings of an undisturbed two-way run; every body is in the round-trip domain. */
  ghost predicate Undisturbed(c: Context) {
    && Orderly(c) && Quiet(c.others, c.faults) && c.options == Options(true, true, false)
    && CleanHashes(c.lib)
    && (forall page :: page in c.pages ==> CleanPage(page))
    && (forall f :: f in c.local ==> Plain(f.body))
  }

  /** A page as the manifest saw it, not written by this run. */
  ghost predicate Current(lib: Library, v: View, page: Page) {
    page.id in v.heads && v.heads[page.id].hash == page.hash && CleanHead(lib, v.heads[page.id]) && page.id !in v.stale
  }

  /** What a step may do to the heads: nothing, or a new revision of its own page. */
  ghost predicate HeadsStep(before: View, after: View, id: Id) {
    && after.heads.Keys == before.heads.Keys
    && (forall other :: other in before.heads && other != id ==> after.heads[other] == before.heads[other])
    && (forall other :: other != id ==> (other in after.stale <==> other in before.stale))
  }

  lemma PullSettles(c: Context, v: View, st: Progress, page: Page, file: Option<LocalFile>)
    requires Undisturbed(c) && CleanPage(page) && v.heads == st.w.server.store.heads && page.id in v.heads
    requires CleanHead(c.lib, v.heads[page.id]) && page.id !in v.stale
    ensures var next := PullPage(c, st, page, file);
      && !next.failed == !st.failed && next.w.server == st.w.server && next.blocked == st.blocked && next.occupied == st.occupied
      && page.path in next.w.disk && FileStands(c.lib, next.w.disk[page.path], v, page.id)
      && forall q :: q in next.w.disk && q != page.path ==> q in st.w.disk && (file.Some? ==> q != file.value.path)
  {
    var head := v.heads[page.id];
    assert CleanText(c.lib.sha(head.source));
    RenderReads(c, page, head.source, head.hash);
  }

  lemma OccupiedPathConflicts(c: Context, st: Progress, page: Page)
    requires c.options.pull && page.path in st.occupied
    ensures !NoConflict(NewPage(c, st, page).actions)
  {
    var actions := NewPage(c, st, page).actions;
    assert actions[|actions| - 1] == Action(Conflict, page.path);
  }

  lemma NewPageSettles(c: Context, v: View, st: Progress, page: Page)
    requires Undisturbed(c) && CleanPage(page) && v.heads == st.w.server.store.heads && Current(c.lib, v, page)
    requires ClaimOf(c.local, page.id).None? && ZoneFresh(c, st.w.disk, page) && Scanned(c) <= st.occupied && !st.failed
    requires NoConflict(NewPage(c, st, page).actions)
    ensures var next := NewPage(c, st, page);
      !next.failed && next.w.server == st.w.server && next.blocked == st.blocked && ZoneSettled(c, next.w.disk, v, page)
  {
    if page.path in st.occupied {
      OccupiedPathConflicts(c, st, page);
    } else {
      var st' := st.(occupied := st.occupied + {page.path});
      PullSettles(c, v, st', page, None);
      WriteSettlesZone(c, st.w.disk, NewPage(c, st, page).w.disk, v, page, page.path);
    }
  }

  // A page with a file: one lemma per outcome. `page` is the manifest entry, `page'` the same entry with the path the step settles on.

  ghost predicate Retargeted(c: Context, page: Page, page': Page, file: LocalFile) {
    page' == page.(path := page'.path) && page'.path in Zone(c, page) && ClaimOf(c.local, page.id) == Some(file) && file in c.local
  }

  /** Before the step for a page with a file. */
  ghost predicate Ready(c: Context, v: View, st: Progress, page: Page, page': Page, file: LocalFile) {
    && Undisturbed(c) && CleanPage(page) && v.heads == st.w.server.store.heads && Current(c.lib, v, page)
    && Retargeted(c, page, page', file) && ZoneFresh(c, st.w.disk, page)
  }

  /** A body with the page's hash, stamped with it, stands for the page. */
  lemma AgreeingBodyStands(c: Context, v: View, page: Page, page': Page, file: LocalFile)
    requires Undisturbed(c) && CleanPage(page) && Current(c.lib, v, page) && Retargeted(c, page, page', file)
    requires c.lib.sha(file.body) == page.hash
    ensures FileStands(c.lib, Render(page', file.body, page.hash), v, page.id)
  {
    assert CleanText(page.hash);
    RenderReads(c, page', file.body, page.hash);
  }

  /** Unchanged, or moved with its body. */
  lemma UnchangedSettles(c: Context, v: View, st: Progress, page: Page, page': Page, file: LocalFile)
    requires Ready(c, v, st, page, page', file) && c.lib.sha(file.body) == Base(file) == page.hash
    ensures var next := KnownPage(c, st, page', file);
      next.failed == st.failed && next.w.server == st.w.server && next.blocked == st.blocked && ZoneSettled(c, next.w.disk, v, page)
  {
    var disk' := KnownPage(c, st, page', file).w.disk;
    if file.path != page'.path {
      AgreeingBodyStands(c, v, page, page', file);
      WriteSettlesZone(c, st.w.disk, disk', v, page, page'.path);
    } else {
      assert CleanText(page.hash);
      assert file.meta == ReadFile(c.lib, "", st.w.disk[file.path]).meta;
      WriteSettlesZone(c, st.w.disk, disk', v, page, file.path);
    }
  }

  lemma ConvergedSettles(c: Context, v: View, st: Progress, page: Page, page': Page, file: LocalFile)
    requires Ready(c, v, st, page, page', file) && c.lib.sha(file.body) != Base(file) && c.lib.sha(file.body) == page.hash
    ensures var next := KnownPage(c, st, page', file);
      next.failed == st.failed && next.w.server == st.w.server && next.blocked == st.blocked && ZoneSettled(c, next.w.disk, v, page)
  {
    AgreeingBodyStands(c, v, page, page', file);
    WriteSettlesZone(c, st.w.disk, KnownPage(c, st, page', file).w.disk, v, page, page'.path);
  }

  lemma OutdatedPageSettles(c: Context, v: View, st: Progress, page: Page, page': Page, file: LocalFile)
    requires Ready(c, v, st, page, page', file) && c.lib.sha(file.body) == Base(file) != page.hash
    ensures var next := KnownPage(c, st, page', file);
      next.failed == st.failed && next.w.server == st.w.server && next.blocked == st.blocked && ZoneSettled(c, next.w.disk, v, page)
  {
    PullSettles(c, v, st, page', Some(file));
    WriteSettlesZone(c, st.w.disk, KnownPage(c, st, page', file).w.disk, v, page, page'.path);
  }

  /** One more entry in the log touches the staleness of its page only. */
  lemma LogGrows(lib: Library, start: Server, sv: Server, sv': Server, change: Change)
    requires |start.log| <= |sv.log| && sv'.log == sv.log + [change]
    ensures var stale, stale' := Seen(lib, start, sv).stale, Seen(lib, start, sv').stale;
      && (forall other :: other != change.id ==> (other in stale' <==> other in stale))
      && (change.id !in stale ==> (change.id in stale' <==> lib.sha(change.kept) != lib.sha(change.sent)))
  {
    var log, log' := Since(start.log, sv.log), Since(start.log, sv'.log);
    assert log' == log + [change];
    assert forall other :: other in log' <==> other in log || other == change;
  }

  lemma PutSettles(c: Context, start: Server, sv: Server, page: Page, body: string)
    requires |start.log| <= |sv.log| && Current(c.lib, Seen(c.lib, start, sv), page)
    ensures var put := PutDocument(c.lib, sv, TheClient, page.id, body, page.hash);
      !put.PutConflict?
      && (put.PutDone? ==>
            var v, v' := Seen(c.lib, start, sv), Seen(c.lib, start, put.server);
            && (exists kept :: put.hash == c.lib.sha(kept)) && page.id in v'.heads && v'.heads[page.id].hash == put.hash
            && HeadsStep(v, v', page.id) && (page.id in v'.stale <==> c.lib.sha(body) != put.hash)
            && |start.log| <= |put.server.log| && sv.writes <= put.server.writes)
  {
    var put := PutDocument(c.lib, sv, TheClient, page.id, body, page.hash);
    if put.PutDone? {
      var next := NewHead(c.lib, sv.writes, body, sv.store.heads[page.id].title);
      LogGrows(c.lib, start, sv, put.server, Change(TheClient, page.id, Some(page.hash), Some(page.hash), body, next.source));
    }
  }

  /** What one undisturbed, conflict-free step achieves. */
  ghost predicate StepSettles(c: Context, start: Server, st: Progress, next: Progress, page: Page) {
    && next.blocked == st.blocked && |start.log| <= |next.w.server.log| && st.w.server.writes <= next.w.server.writes
    && HeadsStep(Seen(c.lib, start, st.w.server), Seen(c.lib, start, next.w.server), page.id)
    && ZoneSettled(c, next.w.disk, Seen(c.lib, start, next.w.server), page)
  }

  lemma PushSettles(c: Context, start: Server, st: Progress, page: Page, page': Page, file: LocalFile)
    requires Ready(c, Seen(c.lib, start, st.w.server), st, page, page', file) && |start.log| <= |st.w.server.log|
    requires c.lib.sha(file.body) != Base(file) == page.hash
    requires !PushPage(c, st, page', file).failed
    ensures StepSettles(c, start, st, PushPage(c, st, page', file), page)
  {
    PutSettles(c, start, st.w.server, page, file.body);
    var put := PutDocument(c.lib, st.w.server, TheClient, page.id, file.body, Base(file));
    if put.PutDone? {
      var next := PushPage(c, st, page', file);
      RenderReads(c, page', file.body, put.hash);
      WriteSettlesZone(c, st.w.disk, next.w.disk, Seen(c.lib, start, next.w.server), page, file.path);
    }
  }

  lemma KnownPageSettles(c: Context, start: Server, st: Progress, page: Page, page': Page, file: LocalFile)
    requires Ready(c, Seen(c.lib, start, st.w.server), st, page, page', file) && |start.log| <= |st.w.server.log| && !st.failed
    requires var next := KnownPage(c, st, page', file); !next.failed && NoConflict(next.actions)
    ensures StepSettles(c, start, st, KnownPage(c, st, page', file), page)
  {
    var localHash := c.lib.sha(file.body);
    var v := Seen(c.lib, start, st.w.server);
    if localHash == Base(file) == page.hash {
      UnchangedSettles(c, v, st, page, page', file);
    } else if localHash != Base(file) && localHash == page.hash {
      ConvergedSettles(c, v, st, page, page', file);
    } else if localHash == Base(file) {
      OutdatedPageSettles(c, v, st, page, page', file);
    } else if page.hash == Base(file) {
      assert KnownPage(c, st, page', file) == PushPage(c, st, page', file);
      PushSettles(c, start, st, page, page', file);
    }
  }

  lemma PageSettles(c: Context, start: Server, st: Progress, page: Page)
    requires Undisturbed(c) && page in c.pages && Current(c.lib, Seen(c.lib, start, st.w.server), page) && |start.log| <= |st.w.server.log|
    requires ZoneFresh(c, st.w.disk, page) && Scanned(c) <= st.occupied && !st.failed
    requires var next := SyncPage(c, st, page); !next.failed && NoConflict(next.actions)
    ensures StepSettles(c, start, st, SyncPage(c, st, page), page)
  {
    assert CleanPage(page);
    match ClaimOf(c.local, page.id)
    case None =>
      NewPageSettles(c, Seen(c.lib, start, st.w.server), st, page);
    case Some(file) =>
      var page' := if page.path != file.path && page.path in st.occupied then page.(path := file.path) else page;
      assert page'.path in Zone(c, page);
      KnownPageSettles(c, start, st, page, page', file);
  }

  // ---------------------------------------------------------------------------------------------
  // All pages
  // ---------------------------------------------------------------------------------------------

  /** The server keeps its pages during the page steps, and nothing but pages is stale. */
  ghost predicate KeepsPages(lib: Library, start: Server, sv: Server) {
    && |start.log| <= |sv.log| && start.writes <= sv.writes
    && sv.store.heads.Keys == start.store.heads.Keys && Seen(lib, start, sv).stale <= sv.store.heads.Keys
  }

  ghost predicate EarlierSettled(c: Context, v: View, disk: map<Path, string>, i: nat)
    requires i <= |c.pages|
  {
    forall k :: 0 <= k < i ==> ZoneSettled(c, disk, v, c.pages[k])
  }

  ghost predicate LaterCurrent(c: Context, v: View, i: nat)
    requires i <= |c.pages|
  {
    && (forall k :: 0 <= k < |c.pages| ==> c.pages[k].id in v.heads)
    && (forall k :: i <= k < |c.pages| ==> Current(c.lib, v, c.pages[k]))
  }

  /** Before page number `i`: earlier zones are settled, later ones untouched, and nothing lies outside. */
  ghost predicate PagesSettled(c: Context, start: Server, scan: map<Path, string>, st: Progress, i: nat) {
    var v := Seen(c.lib, start, st.w.server);
    && i <= |c.pages|
    && (forall f :: f in c.local ==> f.path in scan && f == ReadFile(c.lib, f.path, scan[f.path]))
    && Scanned(c) <= st.occupied && st.blocked == {} && KeepsPages(c.lib, start, st.w.server)
    && EarlierSettled(c, v, st.w.disk, i) && LaterCurrent(c, v, i)
    && RestUntouched(c, scan, st.w.disk, i) && NothingStray(c, st.w.disk, i)
  }

  /** Scanned files outside the first `i` zones are as they were. */
  ghost predicate RestUntouched(c: Context, scan: map<Path, string>, disk: map<Path, string>, i: nat)
    requires i <= |c.pages| && forall f :: f in c.local ==> f.path in scan
  {
    forall p :: p in Scanned(c) && (forall k :: 0 <= k < i ==> p !in Zone(c, c.pages[k])) ==> p in disk && disk[p] == scan[p]
  }

  ghost predicate NothingStray(c: Context, disk: map<Path, string>, i: nat)
    requires i <= |c.pages|
  {
    forall p :: p in disk && p !in Scanned(c) ==> exists k :: 0 <= k < i && p in Zone(c, c.pages[k])
  }

  lemma NextZoneFresh(c: Context, start: Server, scan: map<Path, string>, st: Progress, i: nat)
    requires Orderly(c) && i < |c.pages| && PagesSettled(c, start, scan, st, i)
    ensures ZoneFresh(c, st.w.disk, c.pages[i])
  {
    var page, claim := c.pages[i], ClaimOf(c.local, c.pages[i].id);
    forall q | q in Zone(c, page)
      ensures forall k :: 0 <= k < i ==> q !in Zone(c, c.pages[k])
    {
      forall k | 0 <= k < i
        ensures q !in Zone(c, c.pages[k])
      {
        ZonesDisjoint(c, k, i);
      }
    }
    if claim.Some? {
      assert claim.value.path in Zone(c, page) && claim.value.path in Scanned(c);
    }
  }

  /** The views agree on a page. */
  ghost predicate SameIn(v: View, v': View, id: Id) {
    id in v.heads && id in v'.heads && v'.heads[id] == v.heads[id] && (id in v'.stale <==> id in v.stale)
  }

  lemma OutsideStaysSettled(c: Context, disk: map<Path, string>, disk': map<Path, string>, v: View, v': View, page: Page, zone: set<Path>)
    requires ZoneSettled(c, disk, v, page) && OnlyZone(disk, disk', zone) && Zone(c, page) !! zone && SameIn(v, v', page.id)
    ensures ZoneSettled(c, disk', v', page)
  {
    var p :| SettledAt(c.lib, disk, v, Zone(c, page), page.id, p);
    assert SettledAt(c.lib, disk', v', Zone(c, page), page.id, p);
  }

  lemma OtherPageIsSame(c: Context, v: View, v': View, i: nat, k: nat)
    requires DistinctPages(c.pages) && i < |c.pages| && k < |c.pages| && k != i && HeadsStep(v, v', c.pages[i].id) && c.pages[k].id in v.heads
    ensures SameIn(v, v', c.pages[k].id)
  {
    DistinctIds(c.pages, k, i);
  }

  lemma EarlierStaySettled(c: Context, v: View, v': View, disk: map<Path, string>, disk': map<Path, string>, i: nat)
    requires Orderly(c) && i < |c.pages| && HeadsStep(v, v', c.pages[i].id) && OnlyZone(disk, disk', Zone(c, c.pages[i]))
    requires EarlierSettled(c, v, disk, i) && LaterCurrent(c, v, i) && ZoneSettled(c, disk', v', c.pages[i])
    ensures EarlierSettled(c, v', disk', i + 1)
  {
    forall k | 0 <= k < i
      ensures ZoneSettled(c, disk', v', c.pages[k])
    {
      OtherPageIsSame(c, v, v', i, k);
      ZonesDisjoint(c, k, i);
      OutsideStaysSettled(c, disk, disk', v, v', c.pages[k], Zone(c, c.pages[i]));
    }
  }

  lemma LaterStayCurrent(c: Context, v: View, v': View, i: nat)
    requires DistinctPages(c.pages) && i < |c.pages| && HeadsStep(v, v', c.pages[i].id) && LaterCurrent(c, v, i)
    ensures LaterCurrent(c, v', i + 1)
  {
    forall k | i + 1 <= k < |c.pages|
      ensures Current(c.lib, v', c.pages[k])
    {
      OtherPageIsSame(c, v, v', i, k);
    }
  }

  lemma StepKeepsPages(c: Context, start: Server, st: Progress, next: Progress, page: Page)
    requires KeepsPages(c.lib, start, st.w.server) && StepSettles(c, start, st, next, page) && page.id in st.w.server.store.heads
    ensures KeepsPages(c.lib, start, next.w.server)
  {
  }

  lemma PageStepSettles(c: Context, start: Server, scan: map<Path, string>, st: Progress, next: Progress, i: nat)
    requires Undisturbed(c) && i < |c.pages| && PagesSettled(c, start, scan, st, i)
    requires StepSettles(c, start, st, next, c.pages[i])
    requires OnlyZone(st.w.disk, next.w.disk, Zone(c, c.pages[i])) && Scanned(c) <= next.occupied
    ensures PagesSettled(c, start, scan, next, i + 1)
  {
    var v, v' := Seen(c.lib, start, st.w.server), Seen(c.lib, start, next.w.server);
    StepKeepsPages(c, start, st, next, c.pages[i]);
    EarlierStaySettled(c, v, v', st.w.disk, next.w.disk, i);
    LaterStayCurrent(c, v, v', i);
    ZoneStepKeepsRest(c, scan, st.w.disk, next.w.disk, i);
  }

  /** Working on zone `i` leaves the rest of the directory as it was. */
  lemma ZoneStepKeepsRest(c: Context, scan: map<Path, string>, disk: map<Path, string>, disk': map<Path, string>, i: nat)
    requires i < |c.pages| && (forall f :: f in c.local ==> f.path in scan) && OnlyZone(disk, disk', Zone(c, c.pages[i]))
    requires RestUntouched(c, scan, disk, i) && NothingStray(c, disk, i)
    ensures RestUntouched(c, scan, disk', i + 1) && NothingStray(c, disk', i + 1)
  {
  }

  lemma {:induction false} PageActionsGrow(c: Context, st: Progress, i: nat)
    requires i <= |c.pages|
    ensures st.actions <= PagesFrom(c, st, i).actions && (st.failed ==> PagesFrom(c, st, i).failed)
    decreases |c.pages| - i
  {
    if st.failed || i == |c.pages| {
    } else {
      PageActionGrows(c, st, c.pages[i]);
      PageActionsGrow(c, SyncPage(c, st, c.pages[i]), i + 1);
    }
  }

  lemma PageActionGrows(c: Context, st: Progress, page: Page)
    ensures st.actions <= SyncPage(c, st, page).actions
  {
  }

  lemma PrefixHasNoConflict(a: seq<Action>, b: seq<Action>)
    requires a <= b && NoConflict(b)
    ensures NoConflict(a)
  {
  }

  lemma NextPageSettles(c: Context, start: Server, scan: map<Path, string>, st: Progress, i: nat)
    requires Undisturbed(c) && PagesSettled(c, start, scan, st, i) && i < |c.pages| && !st.failed
    requires var next := SyncPage(c, st, c.pages[i]); !next.failed && NoConflict(next.actions)
    ensures PagesSettled(c, start, scan, SyncPage(c, st, c.pages[i]), i + 1)
  {
    NextZoneFresh(c, start, scan, st, i);
    PageSettles(c, start, st, c.pages[i]);
    PageKeeps(c, st, c.pages[i]);
    PageStepSettles(c, start, scan, st, SyncPage(c, st, c.pages[i]), i);
  }

  lemma {:induction false} AllPagesSettle(c: Context, start: Server, scan: map<Path, string>, st: Progress, i: nat)
    requires Undisturbed(c) && PagesSettled(c, start, scan, st, i) && !st.failed
    requires var last := PagesFrom(c, st, i); !last.failed && NoConflict(last.actions)
    ensures PagesSettled(c, start, scan, PagesFrom(c, st, i), |c.pages|)
    decreases |c.pages| - i
  {
    if i == |c.pages| {
    } else {
      var next := SyncPage(c, st, c.pages[i]);
      PageActionsGrow(c, next, i + 1);
      PrefixHasNoConflict(next.actions, PagesFrom(c, st, i).actions);
      NextPageSettles(c, start, scan, st, i);
      AllPagesSettle(c, start, scan, next, i + 1);
    }
  }

  // ---------------------------------------------------------------------------------------------
  // Files no page claims
  // ---------------------------------------------------------------------------------------------

  predicate Named(f: LocalFile) {
    f.meta.cloudId.Some? && f.meta.cloudId.value != ""
  }

  /** Ids the server draws from write number `from` on are clean and claimed by no file; keys already in files are clean too. */
  ghost predicate CleanIds(c: Context, from: nat) {
    && (forall k :: from <= k ==> CleanText(c.lib.newId(k)))
    && (forall k, f :: from <= k && f in c.local ==> f.meta.cloudId != Some(c.lib.newId(k)))
    && (forall f :: f in c.local ==> OptionalClean(f.meta.cloudId) && OptionalClean(f.meta.cloudParent))
  }

  /** The page made from a file: new to the server, and the file stands for it. */
  ghost predicate CreatedFrom(c: Context, start: Server, left: Leftovers, f: LocalFile) {
    && f.path in left.created && f.path in left.st.w.disk && left.created[f.path] !in start.store.heads
    && FileStands(c.lib, left.st.w.disk[f.path], Seen(c.lib, start, left.st.w.server), left.created[f.path])
  }

  ghost predicate Untouched(scan: map<Path, string>, disk: map<Path, string>, f: LocalFile) {
    f.path in scan && f.path in disk && disk[f.path] == scan[f.path]
  }

  ghost predicate PagesStaySettled(c: Context, start: Server, left: Leftovers) {
    forall k :: 0 <= k < |c.pages| ==>
      c.pages[k].id in start.store.heads && ZoneSettled(c, left.st.w.disk, Seen(c.lib, start, left.st.w.server), c.pages[k])
  }

  ghost predicate NamedStayUntouched(c: Context, scan: map<Path, string>, left: Leftovers) {
    forall f :: f in c.local && Named(f) && !Claimed(c, f) ==> Untouched(scan, left.st.w.disk, f)
  }

  /** Files before number `i` have become pages, later ones are untouched. */
  ghost predicate NewFilesSettled(c: Context, scan: map<Path, string>, start: Server, left: Leftovers, files: seq<LocalFile>, i: nat) {
    && i <= |files|
    && (forall j :: 0 <= j < i && !Named(files[j]) ==> CreatedFrom(c, start, left, files[j]))
    && (forall j :: i <= j < |files| && !Named(files[j]) ==> Untouched(scan, left.st.w.disk, files[j]))
  }

  ghost predicate FreshId(c: Context, start: Server, heads: map<Id, Head>, id: Id) {
    id in heads && id !in start.store.heads && CleanText(id) && forall f :: f in c.local ==> f.meta.cloudId != Some(id)
  }

  ghost predicate AllFresh(c: Context, start: Server, heads: map<Id, Head>, created: map<Path, Id>) {
    forall p :: p in created ==> FreshId(c, start, heads, created[p])
  }

  ghost predicate OneToOne(created: map<Path, Id>) {
    forall p, q :: p in created && q in created && p != q ==> created[p] != created[q]
  }

  ghost predicate NewIdsCreated(ids: set<Id>, created: map<Path, Id>) {
    forall id :: id in ids ==> exists p :: p in created && created[p] == id
  }

  /** The created ids are exactly the server's new ones, one per path. */
  ghost predicate IdsAreNew(c: Context, start: Server, left: Leftovers) {
    var heads := left.st.w.server.store.heads;
    && AllFresh(c, start, heads, left.created) && OneToOne(left.created) && NewIdsCreated(heads.Keys - start.store.heads.Keys, left.created)
  }

  ghost predicate CreatedPathsAreFiles(left: Leftovers, files: seq<LocalFile>, i: nat)
    requires i <= |files|
  {
    forall p :: p in left.created ==> exists j :: 0 <= j < i && !Named(files[j]) && files[j].path == p
  }

  ghost predicate NothingOutside(c: Context, disk: map<Path, string>) {
    forall p :: p in disk && p !in Scanned(c) ==> exists k :: 0 <= k < |c.pages| && p in Zone(c, c.pages[k])
  }

  ghost predicate KnownStay(lib: Library, start: Server, sv: Server) {
    && |start.log| <= |sv.log| && start.writes <= sv.writes
    && start.store.heads.Keys <= sv.store.heads.Keys && Seen(lib, start, sv).stale <= sv.store.heads.Keys
  }

  /** Before leftover file number `i`. */
  ghost predicate LeftoversSettled(c: Context, scan: map<Path, string>, start: Server, left: Leftovers, files: seq<LocalFile>, i: nat) {
    && left.st.blocked == {} && KnownStay(c.lib, start, left.st.w.server)
    && PagesStaySettled(c, start, left) && NamedStayUntouched(c, scan, left)
    && NewFilesSettled(c, scan, start, left, files, i)
    && IdsAreNew(c, start, left) && CreatedPathsAreFiles(left, files, i) && NothingOutside(c, left.st.w.disk)
  }

  lemma {:induction false} FileAtIsLocal(files: seq<LocalFile>, path: Path)
    ensures FileAt(files, path).Some? ==> FileAt(files, path).value in files
  {
    if files == [] {
    } else {
      FileAtIsLocal(files[1..], path);
    }
  }

  lemma {:induction false} PageAtIsPage(pages: seq<Page>, path: Path)
    ensures PageAt(pages, path).Some? ==> exists page :: page in pages && page.id == PageAt(pages, path).value
  {
    if pages == [] {
    } else {
      PageAtIsPage(pages[1..], path);
      if pages[0].path == path {
        assert pages[0] in pages;
      } else if PageAt(pages[1..], path).Some? {
        var page :| page in pages[1..] && page.id == PageAt(pages[1..], path).value;
        assert page in pages;
      }
    }
  }

  lemma ParentIsClean(c: Context, path: Path, created: map<Path, Id>, from: nat)
    requires Undisturbed(c) && CleanIds(c, from) && forall p :: p in created ==> CleanText(created[p])
    ensures OptionalClean(ParentFromDirectory(c, path, created))
  {
    var parentPath := Directory(path) + ".noma";
    FileAtIsLocal(c.local, parentPath);
    PageAtIsPage(c.pages, parentPath);
  }

  /** What creating a page from a file does. */
  ghost predicate CreateStep(c: Context, start: Server, left: Leftovers, next: Leftovers, file: LocalFile, id: Id) {
    var disk, disk' := left.st.w.disk, next.st.w.disk;
    var v, v' := Seen(c.lib, start, left.st.w.server), Seen(c.lib, start, next.st.w.server);
    && HeadAdded(v, v', id) && |start.log| <= |next.st.w.server.log| && left.st.w.server.writes <= next.st.w.server.writes
    && next.created == left.created[file.path := id] && next.st.blocked == left.st.blocked
    && OnlyZone(disk, disk', {file.path}) && file.path in disk'
    && FileStands(c.lib, disk'[file.path], v', id)
    && CleanText(id) && forall f :: f in c.local ==> f.meta.cloudId != Some(id)
  }

  ghost predicate HeadAdded(v: View, v': View, id: Id) {
    && id !in v.heads && v'.heads.Keys == v.heads.Keys + {id}
    && (forall other :: other in v.heads ==> v'.heads[other] == v.heads[other])
    && (forall other :: other != id ==> (other in v'.stale <==> other in v.stale))
  }

  lemma PostSettles(c: Context, start: Server, sv: Server, body: string)
    requires KnownStay(c.lib, start, sv) && PostDocument(c.lib, sv, TheClient, body).PostDone?
    ensures var post := PostDocument(c.lib, sv, TheClient, body);
      var v, v' := Seen(c.lib, start, sv), Seen(c.lib, start, post.server);
      && post.id == c.lib.newId(sv.writes) && (exists kept :: post.hash == c.lib.sha(kept))
      && HeadAdded(v, v', post.id) && v'.heads[post.id].hash == post.hash
      && |start.log| <= |post.server.log| && sv.writes <= post.server.writes
      && (post.id in v'.stale <==> c.lib.sha(body) != post.hash)
  {
    var post := PostDocument(c.lib, sv, TheClient, body);
    var next := NewHead(c.lib, sv.writes, body, "Untitled document");
    LogGrows(c.lib, start, sv, post.server, Change(TheClient, post.id, None, None, body, next.source));
  }

  /** Writing the stamped file, or finding it already there: the file reads back as its body and the keys. */
  lemma StampedFileReads(c: Context, file: LocalFile, raw: string, keys: SyncKeys)
    requires file == ReadFile(c.lib, file.path, raw) && Plain(file.body) && CleanSyncKeys(keys)
    ensures var content := WithSyncFrontmatter(file.body, keys);
      var f := ReadFile(c.lib, "", if content != file.content then content else raw);
      f.body == file.body && f.meta.cloudId == Some(keys.id) && f.meta.cloudHash == Some(keys.hash)
  {
    StampReads(c.lib, "", file.body, keys);
    StampNoReturns(file.body, keys);
    NormalizeKeeps(WithSyncFrontmatter(file.body, keys));
  }

  lemma CreateSettles(c: Context, start: Server, left: Leftovers, file: LocalFile, raw: string)
    requires Undisturbed(c) && CleanIds(c, start.writes) && file in c.local && !left.st.failed
    requires KnownStay(c.lib, start, left.st.w.server)
    requires forall p :: p in left.created ==> CleanText(left.created[p])
    requires file.path in left.st.w.disk && left.st.w.disk[file.path] == raw && file == ReadFile(c.lib, file.path, raw)
    requires !CreatePage(c, left, file).st.failed
    ensures CreateStep(c, start, left, CreatePage(c, left, file), file, c.lib.newId(left.st.w.server.writes))
  {
    var sv := left.st.w.server;
    PostSettles(c, start, sv, file.body);
    ParentIsClean(c, file.path, left.created, start.writes);
    var parent := ParentOf(c, left, file);
    var hash := PostDocument(c.lib, sv, TheClient, file.body).hash;
    StampedFileReads(c, file, raw, SyncKeys(c.lib.newId(sv.writes), hash, parent, []));
  }

  lemma CreateKeepsPages(c: Context, start: Server, left: Leftovers, next: Leftovers, file: LocalFile, id: Id)
    requires Orderly(c) && file in c.local && !Named(file) && start.store.heads.Keys <= left.st.w.server.store.heads.Keys
    requires CreateStep(c, start, left, next, file, id) && PagesStaySettled(c, start, left)
    ensures PagesStaySettled(c, start, next)
  {
    assert file.path in Scanned(c);
    var v, v' := Seen(c.lib, start, left.st.w.server), Seen(c.lib, start, next.st.w.server);
    forall k | 0 <= k < |c.pages|
      ensures ZoneSettled(c, next.st.w.disk, v', c.pages[k])
    {
      var claim := ClaimOf(c.local, c.pages[k].id);
      assert c.pages[k] in c.pages;
      if claim.Some? {
        if claim.value.path == file.path {
          ClaimIsUnique(c, claim.value, file);
        }
      }
      OutsideStaysSettled(c, left.st.w.disk, next.st.w.disk, v, v', c.pages[k], {file.path});
    }
  }

  lemma CreateKeepsNamed(c: Context, scan: map<Path, string>, start: Server, left: Leftovers, next: Leftovers, file: LocalFile, id: Id)
    requires Orderly(c) && file in c.local && !Named(file)
    requires CreateStep(c, start, left, next, file, id) && NamedStayUntouched(c, scan, left)
    ensures NamedStayUntouched(c, scan, next)
  {
  }

  lemma CreatedStays(c: Context, start: Server, left: Leftovers, next: Leftovers, f: LocalFile, file: LocalFile, id: Id)
    requires CreateStep(c, start, left, next, file, id) && CreatedFrom(c, start, left, f) && f.path != file.path
    ensures CreatedFrom(c, start, next, f)
  {
  }

  lemma UntouchedStays(c: Context, scan: map<Path, string>, start: Server, left: Leftovers, next: Leftovers, f: LocalFile, file: LocalFile, id: Id)
    requires CreateStep(c, start, left, next, file, id) && Untouched(scan, left.st.w.disk, f) && f.path != file.path
    ensures Untouched(scan, next.st.w.disk, f)
  {
  }

  lemma CreatedNow(c: Context, start: Server, left: Leftovers, next: Leftovers, file: LocalFile, id: Id)
    requires CreateStep(c, start, left, next, file, id) && start.store.heads.Keys <= left.st.w.server.store.heads.Keys
    ensures CreatedFrom(c, start, next, file)
  {
  }

  lemma CreateSettlesNext(c: Context, scan: map<Path, string>, start: Server, left: Leftovers, next: Leftovers, files: seq<LocalFile>, i: nat, id: Id)
    requires i < |files| && !Named(files[i]) && start.store.heads.Keys <= left.st.w.server.store.heads.Keys
    requires forall j, k :: 0 <= j < k < |files| ==> files[j].path != files[k].path
    requires CreateStep(c, start, left, next, files[i], id) && NewFilesSettled(c, scan, start, left, files, i)
    ensures NewFilesSettled(c, scan, start, next, files, i + 1)
  {
    CreatedNow(c, start, left, next, files[i], id);
    forall j | 0 <= j < i && !Named(files[j])
      ensures CreatedFrom(c, start, next, files[j])
    {
      CreatedStays(c, start, left, next, files[j], files[i], id);
    }
    forall j | i + 1 <= j < |files| && !Named(files[j])
      ensures Untouched(scan, next.st.w.disk, files[j])
    {
      UntouchedStays(c, scan, start, left, next, files[j], files[i], id);
    }
  }

  lemma NewIdStaysOneToOne(created: map<Path, Id>, path: Path, id: Id)
    requires OneToOne(created) && path !in created && forall p :: p in created ==> created[p] != id
    ensures OneToOne(created[path := id])
  {
  }

  lemma NewIdIsCreated(ids: set<Id>, created: map<Path, Id>, path: Path, id: Id)
    requires NewIdsCreated(ids, created) && path !in created
    ensures NewIdsCreated(ids + {id}, created[path := id])
  {
    var created' := created[path := id];
    forall other | other in ids + {id}
      ensures exists p :: p in created' && created'[p] == other
    {
      if other == id {
        assert created'[path] == id;
      } else {
        var p :| p in created && created[p] == other;
        assert created'[p] == other;
      }
    }
  }

  lemma AllStayFresh(c: Context, start: Server, heads: map<Id, Head>, heads': map<Id, Head>, created: map<Path, Id>)
    requires AllFresh(c, start, heads, created) && heads.Keys <= heads'.Keys
    ensures AllFresh(c, start, heads', created)
  {
    forall p | p in created
      ensures FreshId(c, start, heads', created[p])
    {
      assert FreshId(c, start, heads, created[p]);
    }
  }

  lemma FreshIdsAreKnown(c: Context, start: Server, heads: map<Id, Head>, created: map<Path, Id>, id: Id)
    requires AllFresh(c, start, heads, created) && id !in heads
    ensures forall p :: p in created ==> created[p] != id
  {
    forall p | p in created
      ensures created[p] != id
    {
      assert FreshId(c, start, heads, created[p]);
    }
  }

  lemma CreateStepAddsId(c: Context, start: Server, left: Leftovers, next: Leftovers, file: LocalFile, id: Id)
    requires CreateStep(c, start, left, next, file, id) && start.store.heads.Keys <= left.st.w.server.store.heads.Keys
    ensures var heads, heads' := left.st.w.server.store.heads, next.st.w.server.store.heads;
      id !in heads && heads'.Keys == heads.Keys + {id} && next.created == left.created[file.path := id] && FreshId(c, start, heads', id)
  {
  }

  lemma NewIdKeepsIdsNew(c: Context, start: Server, left: Leftovers, next: Leftovers, path: Path, id: Id)
    requires path !in left.created && IdsAreNew(c, start, left)
    requires var heads, heads' := left.st.w.server.store.heads, next.st.w.server.store.heads;
      id !in heads && heads'.Keys == heads.Keys + {id} && next.created == left.created[path := id] && FreshId(c, start, heads', id)
    ensures IdsAreNew(c, start, next)
  {
    var heads, heads' := left.st.w.server.store.heads, next.st.w.server.store.heads;
    AllStayFresh(c, start, heads, heads', left.created);
    FreshIdsAreKnown(c, start, heads, left.created, id);
    NewIdStaysOneToOne(left.created, path, id);
    NewIdIsCreated(heads.Keys - start.store.heads.Keys, left.created, path, id);
    assert heads'.Keys - start.store.heads.Keys == heads.Keys - start.store.heads.Keys + {id};
  }

  lemma CreateKeepsIdsNew(c: Context, start: Server, left: Leftovers, next: Leftovers, file: LocalFile, id: Id)
    requires file.path !in left.created && start.store.heads.Keys <= left.st.w.server.store.heads.Keys
    requires CreateStep(c, start, left, next, file, id) && IdsAreNew(c, start, left)
    ensures IdsAreNew(c, start, next)
  {
    CreateStepAddsId(c, start, left, next, file, id);
    NewIdKeepsIdsNew(c, start, left, next, file.path, id);
  }

  lemma CreateKeepsPaths(c: Context, start: Server, left: Leftovers, next: Leftovers, files: seq<LocalFile>, i: nat, id: Id)
    requires i < |files| && !Named(files[i]) && CreateStep(c, start, left, next, files[i], id) && CreatedPathsAreFiles(left, files, i)
    ensures CreatedPathsAreFiles(next, files, i + 1)
  {
    forall p | p in next.created
      ensures exists j :: 0 <= j < i + 1 && !Named(files[j]) && files[j].path == p
    {
      if p != files[i].path {
        var j :| 0 <= j < i && !Named(files[j]) && files[j].path == p;
      }
    }
  }

  /** The file's path has not been created before: earlier creations lie at earlier files' paths. */
  lemma PathIsNew(left: Leftovers, files: seq<LocalFile>, i: nat)
    requires i < |files| && CreatedPathsAreFiles(left, files, i)
    requires forall j, k :: 0 <= j < k < |files| ==> files[j].path != files[k].path
    ensures files[i].path !in left.created
  {
  }

  lemma CreateStaysInside(c: Context, start: Server, left: Leftovers, next: Leftovers, file: LocalFile, id: Id)
    requires file in c.local && CreateStep(c, start, left, next, file, id)
    requires NothingOutside(c, left.st.w.disk) && KnownStay(c.lib, start, left.st.w.server)
    ensures NothingOutside(c, next.st.w.disk) && KnownStay(c.lib, start, next.st.w.server)
  {
    assert file.path in Scanned(c);
  }

  lemma LeftoverStepSettles(c: Context, scan: map<Path, string>, start: Server, left: Leftovers, next: Leftovers, files: seq<LocalFile>, i: nat, id: Id)
    requires Orderly(c) && i < |files| && files[i] in c.local && LeftoversSettled(c, scan, start, left, files, i)
    requires forall j, k :: 0 <= j < k < |files| ==> files[j].path != files[k].path
    requires !Named(files[i]) && CreateStep(c, start, left, next, files[i], id)
    ensures LeftoversSettled(c, scan, start, next, files, i + 1)
  {
    var file := files[i];
    CreateKeepsPages(c, start, left, next, file, id);
    CreateKeepsNamed(c, scan, start, left, next, file, id);
    CreateSettlesNext(c, scan, start, left, next, files, i, id);
    PathIsNew(left, files, i);
    CreateKeepsIdsNew(c, start, left, next, file, id);
    CreateKeepsPaths(c, start, left, next, files, i, id);
    CreateStaysInside(c, start, left, next, file, id);
  }

  /** Only the actions differ. */
  ghost predicate SameState(left: Leftovers, next: Leftovers) {
    next.created == left.created && next.st.w == left.st.w && next.st.blocked == left.st.blocked
  }

  lemma SameStateKeepsFiles(c: Context, scan: map<Path, string>, start: Server, left: Leftovers, next: Leftovers, files: seq<LocalFile>, i: nat)
    requires SameState(left, next) && i < |files| && Named(files[i]) && NewFilesSettled(c, scan, start, left, files, i)
    ensures NewFilesSettled(c, scan, start, next, files, i + 1)
  {
    forall j | 0 <= j < i + 1 && !Named(files[j])
      ensures CreatedFrom(c, start, next, files[j])
    {
      assert CreatedFrom(c, start, left, files[j]);
    }
  }

  lemma SameStateKeepsIds(c: Context, start: Server, left: Leftovers, next: Leftovers)
    requires SameState(left, next) && IdsAreNew(c, start, left)
    ensures IdsAreNew(c, start, next)
  {
  }

  lemma SameStateKeepsRest(c: Context, scan: map<Path, string>, start: Server, left: Leftovers, next: Leftovers)
    requires SameState(left, next) && PagesStaySettled(c, start, left) && NamedStayUntouched(c, scan, left)
    ensures PagesStaySettled(c, start, next) && NamedStayUntouched(c, scan, next)
  {
  }

  lemma NamedStepSettles(c: Context, scan: map<Path, string>, start: Server, left: Leftovers, next: Leftovers, files: seq<LocalFile>, i: nat)
    requires i < |files| && LeftoversSettled(c, scan, start, left, files, i) && Named(files[i]) && SameState(left, next)
    ensures LeftoversSettled(c, scan, start, next, files, i + 1)
  {
    SameStateKeepsFiles(c, scan, start, left, next, files, i);
    SameStateKeepsIds(c, start, left, next);
    SameStateKeepsRest(c, scan, start, left, next);
  }

  lemma NamedFileStep(c: Context, left: Leftovers, file: LocalFile)
    requires Named(file)
    ensures SameState(left, SyncFile(c, left, file))
  {
  }

  ghost predicate SameFiles(c: Context, scan: map<Path, string>, files: seq<LocalFile>) {
    && (forall f :: f in files <==> f in c.local)
    && (forall j, k :: 0 <= j < k < |files| ==> files[j].path != files[k].path)
    && (forall f :: f in c.local ==> f.path in scan && f == ReadFile(c.lib, f.path, scan[f.path]))
  }

  lemma AnyStepSettles(c: Context, scan: map<Path, string>, start: Server, left: Leftovers, files: seq<LocalFile>, i: nat)
    requires Undisturbed(c) && CleanIds(c, start.writes) && SameFiles(c, scan, files) && i < |files| && !left.st.failed
    requires LeftoversSettled(c, scan, start, left, files, i) && !SyncFile(c, left, files[i]).st.failed
    ensures LeftoversSettled(c, scan, start, SyncFile(c, left, files[i]), files, i + 1)
  {
    assert files[i] in files;
    if Named(files[i]) {
      NamedFileStep(c, left, files[i]);
      NamedStepSettles(c, scan, start, left, SyncFile(c, left, files[i]), files, i);
    } else {
      var next := CreatePage(c, left, files[i]);
      assert SyncFile(c, left, files[i]) == next;
      CreateSettles(c, start, left, files[i], scan[files[i].path]);
      LeftoverStepSettles(c, scan, start, left, next, files, i, c.lib.newId(left.st.w.server.writes));
    }
  }

  lemma {:induction false} AllLeftoversSettle(c: Context, scan: map<Path, string>, start: Server, left: Leftovers, files: seq<LocalFile>, i: nat)
    requires Undisturbed(c) && CleanIds(c, start.writes) && SameFiles(c, scan, files)
    requires LeftoversSettled(c, scan, start, left, files, i) && !FilesFrom(c, left, files, i).st.failed
    ensures LeftoversSettled(c, scan, start, FilesFrom(c, left, files, i), files, |files|)
    decreases |files| - i
  {
    if i == |files| {
    } else {
      var next := SyncFile(c, left, files[i]);
      AnyStepSettles(c, scan, start, left, files, i);
      AllLeftoversSettle(c, scan, start, next, files, i + 1);
    }
  }

  // ---------------------------------------------------------------------------------------------
  // The settled directory
  // ---------------------------------------------------------------------------------------------

  /** Every listed page has a file that stands for it, every file names a page, and no two name the same one. */
  ghost predicate Settled(lib: Library, disk: map<Path, string>, v: View, ids: set<Id>) {
    && (forall id :: id in ids ==> exists p :: p in disk && FileStands(lib, disk[p], v, id))
    && (forall p :: p in disk ==> CloudId(lib, disk[p]).Some? && CloudId(lib, disk[p]).value != "")
    && (forall p, q :: p in disk && q in disk && p != q ==> CloudId(lib, disk[p]) != CloudId(lib, disk[q]))
  }

  datatype Owner = OfPage(k: nat) | OfFile(f: LocalFile) | OfCreation

  /** Which page or file answers for a path of the settled directory. */
  ghost predicate Owns(c: Context, start: Server, left: Leftovers, p: Path, owner: Owner) {
    var disk, v := left.st.w.disk, Seen(c.lib, start, left.st.w.server);
    p in disk &&
    match owner
    case OfPage(k) => k < |c.pages| && SettledAt(c.lib, disk, v, Zone(c, c.pages[k]), c.pages[k].id, p)
    case OfFile(f) => f in c.local && Named(f) && !Claimed(c, f) && f.path == p && CloudId(c.lib, disk[p]) == f.meta.cloudId
    case OfCreation => p in left.created && CloudId(c.lib, disk[p]) == Some(left.created[p])
  }

  lemma OwnerOf(c: Context, scan: map<Path, string>, start: Server, left: Leftovers, files: seq<LocalFile>, p: Path) returns (owner: Owner)
    requires Orderly(c) && SameFiles(c, scan, files) && LeftoversSettled(c, scan, start, left, files, |files|) && p in left.st.w.disk
    ensures Owns(c, start, left, p, owner)
  {
    var disk, v := left.st.w.disk, Seen(c.lib, start, left.st.w.server);
    if k :| 0 <= k < |c.pages| && p in Zone(c, c.pages[k]) {
      var at :| SettledAt(c.lib, disk, v, Zone(c, c.pages[k]), c.pages[k].id, at);
      owner := OfPage(k);
    } else {
      assert p in Scanned(c);
      var f :| f in c.local && f.path == p;
      forall k | 0 <= k < |c.pages|
        ensures ClaimOf(c.local, c.pages[k].id) != Some(f)
      {
        assert p !in Zone(c, c.pages[k]);
      }
      if Named(f) {
        assert Untouched(scan, disk, f);
        owner := OfFile(f);
      } else {
        assert f in files;
        var j :| 0 <= j < |files| && files[j] == f;
        assert CreatedFrom(c, start, left, files[j]);
        owner := OfCreation;
      }
    }
  }

  lemma UnclaimedNamesNoPage(c: Context, f: LocalFile, k: nat)
    requires Orderly(c) && f in c.local && k < |c.pages|
    ensures f.meta.cloudId == Some(c.pages[k].id) ==> Claimed(c, f)
  {
  }

  /** A created file's id is new, so no other file has it. */
  lemma CreationDiffers(c: Context, start: Server, left: Leftovers, p: Path, q: Path, b: Owner)
    requires Orderly(c) && IdsAreNew(c, start, left) && PagesStaySettled(c, start, left) && p != q
    requires Owns(c, start, left, p, OfCreation) && Owns(c, start, left, q, b)
    ensures CloudId(c.lib, left.st.w.disk[p]) != CloudId(c.lib, left.st.w.disk[q])
  {
    assert FreshId(c, start, left.st.w.server.store.heads, left.created[p]);
  }

  lemma OwnersDiffer(c: Context, start: Server, left: Leftovers, p: Path, q: Path, a: Owner, b: Owner)
    requires Orderly(c) && IdsAreNew(c, start, left) && PagesStaySettled(c, start, left) && p != q
    requires Owns(c, start, left, p, a) && Owns(c, start, left, q, b)
    ensures CloudId(c.lib, left.st.w.disk[p]) != CloudId(c.lib, left.st.w.disk[q])
  {
    if a.OfCreation? {
      CreationDiffers(c, start, left, p, q, b);
    } else if b.OfCreation? {
      CreationDiffers(c, start, left, q, p, a);
    } else {
      OldOwnersDiffer(c, start, left, p, q, a, b);
    }
  }

  lemma PagesDiffer(c: Context, start: Server, left: Leftovers, p: Path, q: Path, k: nat, l: nat)
    requires DistinctPages(c.pages) && p != q && Owns(c, start, left, p, OfPage(k)) && Owns(c, start, left, q, OfPage(l))
    ensures CloudId(c.lib, left.st.w.disk[p]) != CloudId(c.lib, left.st.w.disk[q])
  {
    var disk, v := left.st.w.disk, Seen(c.lib, start, left.st.w.server);
    SettledNames(c.lib, disk, v, Zone(c, c.pages[k]), c.pages[k].id, p);
    SettledNames(c.lib, disk, v, Zone(c, c.pages[l]), c.pages[l].id, q);
    SoleSettled(c.lib, disk, v, Zone(c, c.pages[k]), c.pages[k].id, p, q);
    DistinctIds(c.pages, k, l);
  }

  lemma SettledNames(lib: Library, disk: map<Path, string>, v: View, zone: set<Path>, id: Id, p: Path)
    requires SettledAt(lib, disk, v, zone, id, p)
    ensures CloudId(lib, disk[p]) == Some(id)
  {
  }

  lemma SoleSettled(lib: Library, disk: map<Path, string>, v: View, zone: set<Path>, id: Id, p: Path, q: Path)
    requires SettledAt(lib, disk, v, zone, id, p)
    ensures SettledAt(lib, disk, v, zone, id, q) ==> p == q
  {
  }

  lemma DistinctIds(pages: seq<Page>, k: nat, l: nat)
    requires DistinctPages(pages) && k < |pages| && l < |pages|
    ensures k != l ==> pages[k].id != pages[l].id
  {
  }

  lemma PageAndFileDiffer(c: Context, start: Server, left: Leftovers, p: Path, q: Path, k: nat, f: LocalFile)
    requires Orderly(c) && Owns(c, start, left, p, OfPage(k)) && Owns(c, start, left, q, OfFile(f))
    ensures CloudId(c.lib, left.st.w.disk[p]) != CloudId(c.lib, left.st.w.disk[q])
  {
    UnclaimedNamesNoPage(c, f, k);
  }

  lemma FilesDiffer(c: Context, start: Server, left: Leftovers, p: Path, q: Path, f: LocalFile, g: LocalFile)
    requires Orderly(c) && p != q && Owns(c, start, left, p, OfFile(f)) && Owns(c, start, left, q, OfFile(g))
    ensures CloudId(c.lib, left.st.w.disk[p]) != CloudId(c.lib, left.st.w.disk[q])
  {
  }

  lemma OldOwnersDiffer(c: Context, start: Server, left: Leftovers, p: Path, q: Path, a: Owner, b: Owner)
    requires Orderly(c) && p != q && !a.OfCreation? && !b.OfCreation?
    requires Owns(c, start, left, p, a) && Owns(c, start, left, q, b)
    ensures CloudId(c.lib, left.st.w.disk[p]) != CloudId(c.lib, left.st.w.disk[q])
  {
    match (a, b)
    case (OfPage(k), OfPage(l)) => PagesDiffer(c, start, left, p, q, k, l);
    case (OfPage(k), OfFile(g)) => PageAndFileDiffer(c, start, left, p, q, k, g);
    case (OfFile(f), OfPage(l)) => PageAndFileDiffer(c, start, left, q, p, l, f);
    case (OfFile(f), OfFile(g)) => FilesDiffer(c, start, left, p, q, f, g);
  }

  lemma SettledFilesName(c: Context, start: Server, left: Leftovers, p: Path, owner: Owner)
    requires Orderly(c) && IdsAreNew(c, start, left) && Owns(c, start, left, p, owner)
    ensures CloudId(c.lib, left.st.w.disk[p]).Some? && CloudId(c.lib, left.st.w.disk[p]).value != ""
  {
  }

  function PageIds(pages: seq<Page>): set<Id> {
    set page | page in pages :: page.id
  }

  /** The listed pages and the created ones. */
  function ListedIds(pages: seq<Page>, start: Server, sv: Server): set<Id> {
    PageIds(pages) + (sv.store.heads.Keys - start.store.heads.Keys)
  }

  lemma ListedPageIsSettled(c: Context, start: Server, left: Leftovers, id: Id)
    requires PagesStaySettled(c, start, left) && id in PageIds(c.pages)
    ensures exists p :: p in left.st.w.disk && FileStands(c.lib, left.st.w.disk[p], Seen(c.lib, start, left.st.w.server), id)
  {
    var disk, v := left.st.w.disk, Seen(c.lib, start, left.st.w.server);
    var page :| page in c.pages && page.id == id;
    var k :| 0 <= k < |c.pages| && c.pages[k] == page;
    assert ZoneSettled(c, disk, v, c.pages[k]);
    var p :| SettledAt(c.lib, disk, v, Zone(c, c.pages[k]), id, p);
  }

  lemma CreatedIdIsSettled(c: Context, scan: map<Path, string>, start: Server, left: Leftovers, files: seq<LocalFile>, id: Id)
    requires IdsAreNew(c, start, left) && CreatedPathsAreFiles(left, files, |files|) && NewFilesSettled(c, scan, start, left, files, |files|)
    requires id in left.st.w.server.store.heads.Keys - start.store.heads.Keys
    ensures exists p :: p in left.st.w.disk && FileStands(c.lib, left.st.w.disk[p], Seen(c.lib, start, left.st.w.server), id)
  {
    var p :| p in left.created && left.created[p] == id;
    var j :| 0 <= j < |files| && !Named(files[j]) && files[j].path == p;
    assert CreatedFrom(c, start, left, files[j]);
  }

  lemma ListedIdIsSettled(c: Context, start: Server, left: Leftovers, files: seq<LocalFile>, scan: map<Path, string>, id: Id)
    requires LeftoversSettled(c, scan, start, left, files, |files|) && id in ListedIds(c.pages, start, left.st.w.server)
    ensures exists p :: p in left.st.w.disk && FileStands(c.lib, left.st.w.disk[p], Seen(c.lib, start, left.st.w.server), id)
  {
    if id in PageIds(c.pages) {
      ListedPageIsSettled(c, start, left, id);
    } else {
      CreatedIdIsSettled(c, scan, start, left, files, id);
    }
  }

  lemma LeftoversAreSettled(c: Context, scan: map<Path, string>, start: Server, left: Leftovers, files: seq<LocalFile>)
    requires Orderly(c) && SameFiles(c, scan, files) && LeftoversSettled(c, scan, start, left, files, |files|)
    ensures Settled(c.lib, left.st.w.disk, Seen(c.lib, start, left.st.w.server), ListedIds(c.pages, start, left.st.w.server))
  {
    var disk, v := left.st.w.disk, Seen(c.lib, start, left.st.w.server);
    forall id | id in ListedIds(c.pages, start, left.st.w.server)
      ensures exists p :: p in disk && FileStands(c.lib, disk[p], v, id)
    {
      ListedIdIsSettled(c, start, left, files, scan, id);
    }
    forall p | p in disk
      ensures CloudId(c.lib, disk[p]).Some? && CloudId(c.lib, disk[p]).value != ""
    {
      var a := OwnerOf(c, scan, start, left, files, p);
      SettledFilesName(c, start, left, p, a);
    }
    forall p, q | p in disk && q in disk && p != q
      ensures CloudId(c.lib, disk[p]) != CloudId(c.lib, disk[q])
    {
      var a := OwnerOf(c, scan, start, left, files, p);
      var b := OwnerOf(c, scan, start, left, files, q);
      OwnersDiffer(c, start, left, p, q, a, b);
    }
  }

  // ---------------------------------------------------------------------------------------------
  // The first run settles
  // ---------------------------------------------------------------------------------------------

  ghost predicate CleanSlots(slots: seq<Slot>) {
    forall slot :: slot in slots ==> CleanText(slot.id) && OptionalClean(slot.parentId)
  }

  /** Nobody else writes, keys are clean, and every listed source and local body is in the round-trip domain. */
  ghost predicate Tidy(s: Setting, w: World) {
    && Lists(s.order, w.disk) && DistinctSlots(s.slots) && CleanSlots(s.slots)
    && Quiet(s.others, s.faults) && s.options == Options(true, true, false)
    && CleanHashes(s.lib) && CleanHeads(s.lib, s.slots, w.server.store.heads)
    && CleanIds(ContextOf(s, w), w.server.writes)
    && (forall f :: f in ContextOf(s, w).local ==> Plain(f.body))
  }

  lemma TidyIsUndisturbed(s: Setting, w: World)
    requires Tidy(s, w) && UniqueClaims(ContextOf(s, w).local)
    ensures Undisturbed(ContextOf(s, w)) && PagesSettled(ContextOf(s, w), w.server, w.disk, Start(s, w), 0)
    ensures Start(s, w).w.server == w.server
  {
    var c := ContextOf(s, w);
    RunIsOrderly(s, w);
    ManifestIsDistinct(s.slots, w.server.store.heads);
    forall page | page in c.pages
      ensures CleanPage(page) && Current(s.lib, Seen(s.lib, w.server, w.server), page)
    {
      assert FromSlot(page, s.slots, w.server.store.heads);
      var slot := Slot(page.id, page.path, page.parentId, page.labels);
      assert slot in s.slots;
    }
    assert forall k :: 0 <= k < |c.pages| ==> c.pages[k] in c.pages;
  }

  lemma SameMembers(files: seq<LocalFile>, local: seq<LocalFile>)
    requires multiset(files) == multiset(local)
    ensures forall f :: f in files <==> f in local
  {
    assert forall f :: f in files <==> f in multiset(files);
    assert forall f :: f in local <==> f in multiset(local);
  }

  lemma DifferentFilesDiffer(local: seq<LocalFile>, f: LocalFile, g: LocalFile)
    requires forall i, j :: 0 <= i < j < |local| ==> local[i].path != local[j].path
    requires f in local && g in local && f != g
    ensures f.path != g.path
  {
  }

  lemma DistinctAfterSorting(c: Context)
    requires forall i, j :: 0 <= i < j < |c.local| ==> c.local[i].path != c.local[j].path
    ensures var files := ParentFirst(c.local);
      && (forall f :: f in files <==> f in c.local)
      && (forall j, k :: 0 <= j < k < |files| ==> files[j].path != files[k].path)
  {
    var files := ParentFirst(c.local);
    SameMembers(files, c.local);
    forall j, k | 0 <= j < k < |files|
      ensures files[j].path != files[k].path
    {
      if files[j] == files[k] {
        TwiceInMultiset(files, j, k);
        OnceInMultiset(c.local, files[j]);
      } else {
        DifferentFilesDiffer(c.local, files[j], files[k]);
      }
    }
  }

  lemma TwiceInMultiset<T>(s: seq<T>, j: nat, k: nat)
    requires j < k < |s| && s[j] == s[k]
    ensures multiset(s)[s[j]] >= 2
  {
    assert s == s[..j] + [s[j]] + s[j + 1..k] + [s[k]] + s[k + 1..];
  }

  lemma {:induction false} OnceInMultiset(s: seq<LocalFile>, x: LocalFile)
    requires forall i, j :: 0 <= i < j < |s| ==> s[i].path != s[j].path
    ensures multiset(s)[x] <= 1
  {
    if s == [] {
    } else {
      assert s == [s[0]] + s[1..];
      OnceInMultiset(s[1..], x);
      forall y | y in s[1..]
        ensures y != s[0]
      {
        var i :| 0 <= i < |s[1..]| && s[1..][i] == y;
        assert s[i + 1] == y;
      }
    }
  }

  /** A file that no page claims lies outside all zones. */
  lemma UnclaimedStays(c: Context, scan: map<Path, string>, disk: map<Path, string>, f: LocalFile)
    requires Orderly(c) && (forall g :: g in c.local ==> g.path in scan) && RestUntouched(c, scan, disk, |c.pages|)
    requires f in c.local && !Claimed(c, f)
    ensures Untouched(scan, disk, f)
  {
    assert f.path in Scanned(c);
    forall k | 0 <= k < |c.pages|
      ensures f.path !in Zone(c, c.pages[k])
    {
      UnclaimedLiesOutside(c, f, k);
    }
  }

  lemma UnclaimedLiesOutside(c: Context, f: LocalFile, k: nat)
    requires Orderly(c) && f in c.local && !Claimed(c, f) && k < |c.pages|
    ensures f.path !in Zone(c, c.pages[k])
  {
    assert f.path in Scanned(c);
    var claim := ClaimOf(c.local, c.pages[k].id);
    if claim.Some? && claim.value.path == f.path {
      ClaimIsUnique(c, claim.value, f);
    }
  }

  lemma UnnamedIsUnclaimed(c: Context, f: LocalFile)
    requires Undisturbed(c) && !Named(f)
    ensures !Claimed(c, f)
  {
  }

  lemma PagesToLeftovers(c: Context, start: Server, scan: map<Path, string>, st: Progress, files: seq<LocalFile>)
    requires Undisturbed(c) && PagesSettled(c, start, scan, st, |c.pages|) && SameFiles(c, scan, files)
    ensures LeftoversSettled(c, scan, start, Leftovers(st, map[]), files, 0)
  {
    forall f | f in c.local && !Claimed(c, f)
      ensures Untouched(scan, st.w.disk, f)
    {
      UnclaimedStays(c, scan, st.w.disk, f);
    }
    forall j | 0 <= j < |files| && !Named(files[j])
      ensures Untouched(scan, st.w.disk, files[j])
    {
      assert files[j] in files;
      UnnamedIsUnclaimed(c, files[j]);
    }
  }

  ghost predicate FirstRun(s: Setting, w: World) {
    Tidy(s, w) && !Run(s, w).failed && NoConflict(Run(s, w).actions)
  }

  function Covered(s: Setting, w: World): set<Id>
    requires Lists(s.order, w.disk)
  {
    ListedIds(ContextOf(s, w).pages, w.server, Run(s, w).w.server)
  }

  /** After one undisturbed two-way run without a conflict, every listed and created page has one file: it names the page
      and its hash, and its body differs from the server's exactly when the server changed what this run sent. */
  lemma FirstRunSettles(s: Setting, w: World)
    requires FirstRun(s, w)
    ensures var w' := Run(s, w).w;
      Settled(s.lib, w'.disk, Seen(s.lib, w.server, w'.server), Covered(s, w)) && KnownStay(s.lib, w.server, w'.server)
  {
    var c := ContextOf(s, w);
    TidyIsUndisturbed(s, w);
    RunIsOrderly(s, w);
    DistinctAfterSorting(c);
    var files := ParentFirst(c.local);
    var pages := PagesFrom(c, Start(s, w), 0);
    FileActionsGrow(c, Leftovers(pages, map[]), files, 0);
    PrefixHasNoConflict(pages.actions, Run(s, w).actions);
    AllPagesSettle(c, w.server, w.disk, Start(s, w), 0);
    PagesToLeftovers(c, w.server, w.disk, pages, files);
    AllLeftoversSettle(c, w.disk, w.server, Leftovers(pages, map[]), files, 0);
    LeftoversAreSettled(c, w.disk, w.server, FilesFrom(c, Leftovers(pages, map[]), files, 0), files);
  }

  lemma FileActionGrows(c: Context, left: Leftovers, file: LocalFile)
    ensures left.st.actions <= SyncFile(c, left, file).st.actions
  {
  }

  lemma {:induction false} FileActionsGrow(c: Context, left: Leftovers, files: seq<LocalFile>, i: nat)
    requires i <= |files|
    ensures left.st.actions <= FilesFrom(c, left, files, i).st.actions
    decreases |files| - i
  {
    if left.st.failed || i == |files| {
    } else {
      FileActionGrows(c, left, files[i]);
      FileActionsGrow(c, SyncFile(c, left, files[i]), files, i + 1);
    }
  }

  // ---------------------------------------------------------------------------------------------
  // The second run has nothing to do
  // ---------------------------------------------------------------------------------------------

  ghost predicate Idle(actions: seq<Action>) {
    forall a :: a in actions ==> a.kind in {Unchanged, Moved, RemoteMissing}
  }

  /** Every manifest page has a file whose body, base and manifest hash agree; every file names a page. */
  ghost predicate NothingToDo(c: Context) {
    && (forall page :: page in c.pages ==>
          var claim := ClaimOf(c.local, page.id);
          claim.Some? && c.lib.sha(claim.value.body) == Base(claim.value) == page.hash)
    && (forall f :: f in c.local ==> Named(f))
  }

  lemma IdlePage(c: Context, st: Progress, page: Page)
    requires NothingToDo(c) && page in c.pages && Idle(st.actions) && !st.failed
    ensures var next := SyncPage(c, st, page); Idle(next.actions) && !next.failed && next.w.server == st.w.server
  {
  }

  lemma {:induction false} IdlePages(c: Context, st: Progress, i: nat)
    requires NothingToDo(c) && i <= |c.pages| && Idle(st.actions) && !st.failed
    ensures var last := PagesFrom(c, st, i); Idle(last.actions) && !last.failed && last.w.server == st.w.server
    decreases |c.pages| - i
  {
    if i == |c.pages| {
    } else {
      IdlePage(c, st, c.pages[i]);
      IdlePages(c, SyncPage(c, st, c.pages[i]), i + 1);
    }
  }

  lemma IdleFile(c: Context, left: Leftovers, file: LocalFile)
    requires Named(file) && Idle(left.st.actions) && !left.st.failed
    ensures var next := SyncFile(c, left, file).st; Idle(next.actions) && !next.failed && next.w.server == left.st.w.server
  {
  }

  lemma {:induction false} IdleFiles(c: Context, left: Leftovers, files: seq<LocalFile>, i: nat)
    requires (forall f :: f in files ==> Named(f)) && i <= |files| && Idle(left.st.actions) && !left.st.failed
    ensures var last := FilesFrom(c, left, files, i).st; Idle(last.actions) && !last.failed && last.w.server == left.st.w.server
    decreases |files| - i
  {
    if i == |files| {
    } else {
      IdleFile(c, left, files[i]);
      IdleFiles(c, SyncFile(c, left, files[i]), files, i + 1);
    }
  }

  lemma SettledScan(s: Setting, w: World, v: View, ids: set<Id>)
    requires Lists(s.order, w.disk) && Settled(s.lib, w.disk, v, ids)
    ensures var local := ContextOf(s, w).local;
      && UniqueClaims(local) && (forall f :: f in local ==> Named(f))
      && (forall p :: p in w.disk ==> ReadFile(s.lib, p, w.disk[p]) in local)
      && (forall i :: 0 <= i < |local| ==> local[i].path == s.order[i] && local[i].meta.cloudId == CloudId(s.lib, w.disk[s.order[i]]))
  {
  }

  lemma SoleClaim(local: seq<LocalFile>, f: LocalFile, id: Id)
    requires UniqueClaims(local) && f in local && f.meta.cloudId == Some(id)
    ensures ClaimOf(local, id) == Some(f)
  {
  }

  /** The file that stands for a page is the one the next run matches with it. */
  lemma SettledClaim(s: Setting, w: World, v: View, ids: set<Id>, id: Id)
    requires Lists(s.order, w.disk) && Settled(s.lib, w.disk, v, ids) && id in ids
    ensures var claim := ClaimOf(ContextOf(s, w).local, id);
      id in v.heads && claim.Some? && Base(claim.value) == v.heads[id].hash && (s.lib.sha(claim.value.body) == v.heads[id].hash <==> id !in v.stale)
  {
    SettledScan(s, w, v, ids);
    var p :| p in w.disk && FileStands(s.lib, w.disk[p], v, id);
    SoleClaim(ContextOf(s, w).local, ReadFile(s.lib, p, w.disk[p]), id);
  }

  /** The manifest of the second run names only pages the first one covered. */
  ghost predicate NamesOnly(slots: seq<Slot>, heads: map<Id, Head>, ids: set<Id>) {
    forall slot :: slot in slots && slot.id in heads ==> slot.id in ids
  }

  lemma SettledMeansNothingToDo(s: Setting, w: World, v: View, ids: set<Id>)
    requires Lists(s.order, w.disk) && DistinctSlots(s.slots) && Quiet(s.others, s.faults) && NamesOnly(s.slots, w.server.store.heads, ids)
    requires Settled(s.lib, w.disk, v, ids) && v == View(w.server.store.heads, {})
    ensures UniqueClaims(ContextOf(s, w).local) && NothingToDo(ContextOf(s, w)) && Start(s, w).w.server == w.server
  {
    var c := ContextOf(s, w);
    ManifestIsDistinct(s.slots, w.server.store.heads);
    SettledScan(s, w, v, ids);
    forall page | page in c.pages
      ensures var claim := ClaimOf(c.local, page.id);
        claim.Some? && c.lib.sha(claim.value.body) == Base(claim.value) == page.hash
    {
      assert FromSlot(page, s.slots, w.server.store.heads);
      var slot := Slot(page.id, page.path, page.parentId, page.labels);
      assert slot in s.slots;
      SettledClaim(s, w, v, ids, page.id);
    }
  }

  /** From a settled directory without stale pages a run with any options reports only unchanged, moved or remote-missing pages
      and writes nothing to the server. */
  lemma SettledRunIsIdle(s: Setting, w: World, ids: set<Id>)
    requires Lists(s.order, w.disk) && DistinctSlots(s.slots) && Quiet(s.others, s.faults) && NamesOnly(s.slots, w.server.store.heads, ids)
    requires Settled(s.lib, w.disk, View(w.server.store.heads, {}), ids)
    ensures !Run(s, w).failed && Idle(Run(s, w).actions) && Run(s, w).w.server == w.server
  {
    SettledMeansNothingToDo(s, w, View(w.server.store.heads, {}), ids);
    var c := ContextOf(s, w);
    var files := ParentFirst(c.local);
    IdlePages(c, Start(s, w), 0);
    assert forall f :: f in files ==> f in multiset(files);
    IdleFiles(c, Leftovers(PagesFrom(c, Start(s, w), 0), map[]), files, 0);
  }

  // ---------------------------------------------------------------------------------------------
  // A stale page is pushed again
  // ---------------------------------------------------------------------------------------------

  /** The step for a page whose file holds an edit the manifest does not know. */
  lemma EditedPageIsPushed(c: Context, st: Progress, page: Page)
    requires c.options.push && ClaimOf(c.local, page.id).Some?
    requires var file := ClaimOf(c.local, page.id).value; Base(file) == page.hash && c.lib.sha(file.body) != page.hash
    ensures var next := SyncPage(c, st, page); next.failed || (next.actions != [] && next.actions[|next.actions| - 1].kind in {Pushed, Conflict})
  {
  }

  lemma LaterActionsShow(early: seq<Action>, late: seq<Action>)
    requires early <= late && early != [] && early[|early| - 1].kind in {Pushed, Conflict}
    ensures !Idle(late)
  {
    assert late[|early| - 1] == early[|early| - 1];
  }

  lemma EditedPageShows(c: Context, st: Progress, k: nat)
    requires c.options.push && k < |c.pages| && ClaimOf(c.local, c.pages[k].id).Some? && !st.failed
    requires var file := ClaimOf(c.local, c.pages[k].id).value; Base(file) == c.pages[k].hash && c.lib.sha(file.body) != c.pages[k].hash
    ensures PagesFrom(c, st, k).failed || !Idle(PagesFrom(c, st, k).actions)
  {
    var next := SyncPage(c, st, c.pages[k]);
    EditedPageIsPushed(c, st, c.pages[k]);
    PageActionsGrow(c, next, k + 1);
    if !next.failed {
      LaterActionsShow(next.actions, PagesFrom(c, next, k + 1).actions);
    }
  }

  lemma {:induction false} RunReachesPage(c: Context, st: Progress, i: nat, k: nat)
    requires c.options.push && i <= k < |c.pages| && ClaimOf(c.local, c.pages[k].id).Some?
    requires var file := ClaimOf(c.local, c.pages[k].id).value; Base(file) == c.pages[k].hash && c.lib.sha(file.body) != c.pages[k].hash
    ensures PagesFrom(c, st, i).failed || !Idle(PagesFrom(c, st, i).actions)
    decreases k - i
  {
    if st.failed {
    } else if i == k {
      EditedPageShows(c, st, k);
    } else {
      RunReachesPage(c, SyncPage(c, st, c.pages[i]), i + 1, k);
    }
  }

  lemma {:induction false} ManifestNames(slots: seq<Slot>, heads: map<Id, Head>, slot: Slot) returns (k: nat)
    requires slot in slots && slot.id in heads
    ensures k < |Manifest(slots, heads)| && Manifest(slots, heads)[k].id == slot.id && Manifest(slots, heads)[k].hash == heads[slot.id].hash
  {
    if slots[0] == slot {
      k := 0;
    } else {
      k := ManifestNames(slots[1..], heads, slot);
      k := if slots[0].id in heads then k + 1 else k;
    }
  }

  lemma StaleRunIsNotIdle(s: Setting, w: World, v: View, ids: set<Id>, slot: Slot)
    requires Lists(s.order, w.disk) && Quiet(s.others, s.faults) && s.options.push && Settled(s.lib, w.disk, v, ids) && v.heads == w.server.store.heads
    requires slot in s.slots && slot.id in ids && slot.id in v.stale
    ensures Run(s, w).failed || !Idle(Run(s, w).actions)
  {
    var c := ContextOf(s, w);
    SettledScan(s, w, v, ids);
    SettledClaim(s, w, v, ids, slot.id);
    var k := ManifestNames(s.slots, v.heads, slot);
    RunReachesPage(c, Start(s, w), 0, k);
    var pages := PagesFrom(c, Start(s, w), 0);
    FileActionsGrow(c, Leftovers(pages, map[]), ParentFirst(c.local), 0);
  }

  // ---------------------------------------------------------------------------------------------
  // Two runs
  // ---------------------------------------------------------------------------------------------

  /** The server kept what the run sent, for every page it pushed or created. */
  ghost predicate KeptAsSent(before: Server, after: Server) {
    forall change :: change in Since(before.log, after.log) ==> change.kept == change.sent
  }

  /** A second run that nobody disturbs: it may see other paths and titles, but only pages the first run listed or created. */
  ghost predicate SecondRun(s: Setting, w: World, again: Setting)
    requires Lists(s.order, w.disk)
  {
    var w' := Run(s, w).w;
    && again.lib == s.lib && Quiet(again.others, again.faults) && Lists(again.order, w'.disk) && DistinctSlots(again.slots)
    && NamesOnly(again.slots, w'.server.store.heads, Covered(s, w))
  }

  /** The second run lists every page the first one pushed or created. */
  ghost predicate NamesAll(slots: seq<Slot>, log: seq<Change>) {
    forall change :: change in log ==> exists slot :: slot in slots && slot.id == change.id
  }

  /** Sync reaches a fixpoint when the server keeps what it is sent, whatever the options of the second run. */
  lemma SyncReachesFixpoint(s: Setting, w: World, again: Setting)
    requires FirstRun(s, w) && SecondRun(s, w, again) && KeptAsSent(w.server, Run(s, w).w.server)
    ensures var second := Run(again, Run(s, w).w);
      !second.failed && Idle(second.actions) && second.w.server == Run(s, w).w.server
  {
    FirstRunSettles(s, w);
    var w' := Run(s, w).w;
    assert Seen(s.lib, w.server, w'.server) == View(w'.server.store.heads, {});
    SettledRunIsIdle(again, w', Covered(s, w));
  }

  /** A second run that may push is idle exactly when the server kept every page the first one pushed or created as it was sent. */
  lemma SecondRunIsIdleExactlyWhenKept(s: Setting, w: World, again: Setting)
    requires FirstRun(s, w) && SecondRun(s, w, again) && Injective(s.lib.sha)
    requires again.options.push && NamesAll(again.slots, Since(w.server.log, Run(s, w).w.server.log))
    ensures var second := Run(again, Run(s, w).w);
      !second.failed && Idle(second.actions) <==> KeptAsSent(w.server, Run(s, w).w.server)
  {
    var w' := Run(s, w).w;
    if KeptAsSent(w.server, w'.server) {
      SyncReachesFixpoint(s, w, again);
    } else {
      FirstRunSettles(s, w);
      var v := Seen(s.lib, w.server, w'.server);
      var change :| change in Since(w.server.log, w'.server.log) && change.kept != change.sent;
      assert change.id in v.stale;
      var slot :| slot in again.slots && slot.id == change.id;
      assert slot.id in w'.server.store.heads;
      StaleRunIsNotIdle(again, w', v, Covered(s, w), slot);
    }
  }

  // ---------------------------------------------------------------------------------------------
  // When a pushed or pulled page does not settle
  // ---------------------------------------------------------------------------------------------

  /** A pushed body settles exactly when the server stores it unchanged; a server that adds ids to its tasks does not. */
  lemma PushSettlesExactlyWhenStored(lib: Library, page: Page, body: string, kept: string)
    requires Injective(lib.sha) && CleanHashes(lib) && CleanPage(page) && Plain(body)
    ensures FileSettled(lib, Render(page, body, lib.sha(kept)), page.id, lib.sha(kept)) <==> kept == body
  {
    StampReads(lib, "", body, SyncKeys(page.id, lib.sha(kept), page.parentId, page.labels));
  }

  /** A source stored unchanged settles exactly when it is in the round-trip domain. */
  lemma WriteSettlesExactlyWhenFaithful(lib: Library, page: Page, source: string)
    requires Injective(lib.sha) && CleanHashes(lib) && CleanPage(page) && NoReturns(source)
    ensures FileSettled(lib, Render(page, source, lib.sha(source)), page.id, lib.sha(source)) <==> !Unfaithful(source)
  {
    var keys := SyncKeys(page.id, lib.sha(source), page.parentId, page.labels);
    if Unfaithful(source) {
      StampNoReturns(source, keys);
      NormalizeKeeps(WithSyncFrontmatter(source, keys));
      UnfaithfulIsSeen(source, keys, lib.labelText);
    } else {
      StampReads(lib, "", source, keys);
    }
  }

  // ---------------------------------------------------------------------------------------------
  // A page that never settles
  // ---------------------------------------------------------------------------------------------

  const ONE_PATH := "a.noma"

  const ONE_SLOT := Slot("p", ONE_PATH, None, [])

  const ONE_PAGE_KEYS := (hash: string) => SyncKeys("p", hash, None, [])

  /** A space of one page, a directory of its one file, and nobody else about. */
  ghost predicate OnePage(s: Setting, w: World, body: string, base: string) {
    && s.order == [ONE_PATH] && s.slots == [ONE_SLOT] && Quiet(s.others, s.faults) && s.options.push && !s.options.dryRun
    && w.disk == map[ONE_PATH := WithSyncFrontmatter(body, ONE_PAGE_KEYS(base))]
    && "p" in w.server.store.heads && w.server.store.heads["p"].hash == base
  }

  function OneFile(s: Setting, w: World): LocalFile
    requires ONE_PATH in w.disk
  {
    ReadFile(s.lib, ONE_PATH, w.disk[ONE_PATH])
  }

  lemma OneFileReads(s: Setting, w: World, body: string, base: string)
    requires OnePage(s, w, body, base) && Plain(body) && CleanText(base)
    ensures var f := OneFile(s, w); f.path == ONE_PATH && f.body == body && f.meta.cloudId == Some("p") && f.meta.cloudHash == Some(base)
  {
    StampReads(s.lib, ONE_PATH, body, ONE_PAGE_KEYS(base));
  }

  lemma OneSlotManifest(heads: map<Id, Head>)
    requires "p" in heads
    ensures Manifest([ONE_SLOT], heads) == [Page("p", ONE_PATH, None, [], heads["p"].hash)]
  {
    assert [ONE_SLOT][1..] == [];
  }

  lemma OnePageScan(s: Setting, w: World, body: string, base: string)
    requires OnePage(s, w, body, base)
    ensures Lists(s.order, w.disk) && Start(s, w).w.server == w.server
    ensures var c := ContextOf(s, w); c.local == [OneFile(s, w)] && c.pages == [Page("p", ONE_PATH, None, [], base)]
  {
    assert s.order[0] == ONE_PATH;
    OneSlotManifest(w.server.store.heads);
  }

  /** The pages of a run over one page whose file holds an edit. */
  lemma EditIsPushed(c: Context, st: Progress, page: Page, file: LocalFile)
    requires c.pages == [page] && c.local == [file] && file.meta.cloudId == Some(page.id) && file.path == page.path
    requires Quiet(c.others, c.faults) && c.options.push && !c.options.dryRun && !st.failed
    requires Base(file) == page.hash && c.lib.sha(file.body) != page.hash && Trim(file.body) != ""
    requires page.id in st.w.server.store.heads && st.w.server.store.heads[page.id].hash == page.hash
    ensures var next, hash := PagesFrom(c, st, 0), c.lib.sha(c.lib.stored(st.w.server.writes, file.body));
      && !next.failed && next.actions == st.actions + [Action(Pushed, file.path)]
      && next.w.disk == st.w.disk[file.path := Render(page, file.body, hash)]
      && page.id in next.w.server.store.heads && next.w.server.store.heads[page.id].hash == hash
  {
    assert ClaimOf(c.local, page.id) == Some(file);
    assert SyncPage(c, st, page) == PushPage(c, st, page, file);
    assert PagesFrom(c, SyncPage(c, st, page), 1) == SyncPage(c, st, page);
  }

  lemma MatchedFileIsSkipped(c: Context, left: Leftovers, page: Page, file: LocalFile)
    requires page in c.pages && c.local == [file] && file.meta.cloudId == Some(page.id) && page.id != "" && !left.st.failed
    ensures FilesFrom(c, left, ParentFirst(c.local), 0) == left
  {
    assert ParentFirst(c.local[1..]) == [];
    assert ParentFirst(c.local) == [file];
    assert SyncFile(c, left, file) == left;
    assert FilesFrom(c, left, [file], 1) == left;
  }

  lemma OneFileRewritten(s: Setting, w: World, w': World, page: Page, body: string, base: string, hash: string)
    requires OnePage(s, w, body, base) && page.id == "p" && page.parentId == None && page.labels == []
    requires w'.disk == w.disk[ONE_PATH := Render(page, body, hash)]
    requires "p" in w'.server.store.heads && w'.server.store.heads["p"].hash == hash
    ensures OnePage(s, w', body, hash)
  {
  }

  /** Without a double claim or a failed page, a run is its page steps and then its file steps. */
  lemma RunParts(s: Setting, w: World, pages: Progress, left: Leftovers)
    requires Lists(s.order, w.disk) && UniqueClaims(ContextOf(s, w).local) && s.faults(w.requests) == Answered
    requires pages == PagesFrom(ContextOf(s, w), Start(s, w), 0) && !pages.failed
    requires left == FilesFrom(ContextOf(s, w), Leftovers(pages, map[]), ParentFirst(ContextOf(s, w).local), 0)
    ensures Run(s, w) == left.st
  {
  }

  /** Its file holds an edit: the run pushes it, and the directory is as before under a new hash. */
  lemma OnePageIsPushed(s: Setting, w: World, body: string, base: string)
    requires OnePage(s, w, body, base) && Plain(body) && CleanText(base) && Trim(body) != "" && s.lib.sha(body) != base
    ensures Lists(s.order, w.disk)
    ensures var last := Run(s, w);
      && !last.failed && last.actions == [Action(Pushed, ONE_PATH)]
      && OnePage(s, last.w, body, s.lib.sha(s.lib.stored(w.server.writes, body)))
  {
    OneFileReads(s, w, body, base);
    OnePageScan(s, w, body, base);
    var c, st := ContextOf(s, w), Start(s, w);
    var page, file, pages := c.pages[0], OneFile(s, w), PagesFrom(c, st, 0);
    EditIsPushed(c, st, page, file);
    MatchedFileIsSkipped(c, Leftovers(pages, map[]), page, file);
    RunParts(s, w, pages, Leftovers(pages, map[]));
    OneFileRewritten(s, w, pages.w, page, body, base, s.lib.sha(s.lib.stored(w.server.writes, body)));
  }

  /** The world after `n` runs. */
  ghost function AfterRuns(s: Setting, w: World, n: nat): World {
    if n == 0 then w
    else
      var before := AfterRuns(s, w, n - 1);
      if Lists(s.order, before.disk) then Run(s, before).w else before
  }

  /** A body the server never keeps as sent is pushed by every run, although nobody edits it after the first. */
  lemma {:induction false} UnkeptPageIsPushedByEveryRun(s: Setting, w: World, body: string, base: string, n: nat)
    requires OnePage(s, w, body, base) && Plain(body) && CleanText(base) && Trim(body) != "" && s.lib.sha(body) != base
    requires CleanHashes(s.lib) && Injective(s.lib.sha) && forall k :: s.lib.stored(k, body) != body
    ensures var w' := AfterRuns(s, w, n);
      Lists(s.order, w'.disk) && !Run(s, w').failed && Run(s, w').actions == [Action(Pushed, ONE_PATH)]
    decreases n
  {
    if n == 0 {
      OnePageIsPushed(s, w, body, base);
    } else {
      var kept := s.lib.stored(w.server.writes, body);
      OnePageIsPushed(s, w, body, base);
      assert s.lib.sha(kept) != s.lib.sha(body);
      UnkeptPageIsPushedByEveryRun(s, Run(s, w).w, body, s.lib.sha(kept), n - 1);
      FirstRunFirst(s, w, n);
    }
  }

  lemma {:induction false} FirstRunFirst(s: Setting, w: World, n: nat)
    requires Lists(s.order, w.disk) && n > 0
    ensures AfterRuns(s, w, n) == AfterRuns(s, Run(s, w).w, n - 1)
  {
    if n == 1 {
      assert AfterRuns(s, w, 0) == w;
    } else {
      FirstRunFirst(s, w, n - 1);
    }
  }

  const NEW_TASK := "- [ ] Ship"

  /** A page with a new task, stored with the id the server gives the task: the first run pushes it, and so does the second. */
  lemma NewTaskWitness(s: Setting, w: World)
    requires OnePage(s, w, NEW_TASK, s.lib.sha("Ship")) && CleanHashes(s.lib) && Injective(s.lib.sha)
    requires s.lib.stored(w.server.writes, NEW_TASK) == "- {#task-1} [ ] Ship"
    ensures Lists(s.order, w.disk) && Run(s, w).actions == [Action(Pushed, ONE_PATH)]
    ensures var w' := Run(s, w).w; Lists(s.order, w'.disk) && Run(s, w').actions == [Action(Pushed, ONE_PATH)]
  {
    NewTaskIsPlain();
    assert NEW_TASK[2] != "Ship"[2] && NEW_TASK[2] != "- {#task-1} [ ] Ship"[2];
    OnePageIsPushed(s, w, NEW_TASK, s.lib.sha("Ship"));
    OnePageIsPushed(s, Run(s, w).w, NEW_TASK, s.lib.sha("- {#task-1} [ ] Ship"));
  }

  lemma NewTaskIsPlain()
    ensures Plain(NEW_TASK) && Trim(NEW_TASK) != ""
  {
    assert NEW_TASK[0] == '-' && NEW_TASK[1] == ' ';
  }
}
