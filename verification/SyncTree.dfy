/** What a run writes into its files, and that parents become pages before the pages below them. */
module SyncTree {
  import opened Wrappers
  import opened Text
  import opened Frontmatter
  import opened Revisions
  import opened Sync
  import opened SyncSafety
  import opened SyncFixpoint

  // ---------------------------------------------------------------------------------------------
  // What files say
  // ---------------------------------------------------------------------------------------------

  /** The file stands for the page: it has this body, and its keys name the page, its hash, its parent if it has one and its labels if it
      has any. */
  ghost predicate SaysPage(lib: Library, content: string, page: Page, source: string, hash: string) {
    var file := ReadFile(lib, "", content);
    && file.body == source && file.meta.cloudId == Some(page.id) && file.meta.cloudHash == Some(hash)
    && file.meta.cloudParent == (if page.parentId == Some("") then None else page.parentId)
    && file.meta.cloudLabels == (if page.labels == [] then None else Some(page.labels))
  }

  lemma RenderedSaysPage(lib: Library, page: Page, source: string, hash: string)
    requires CleanText(hash) && CleanPage(page) && Plain(source)
    ensures SaysPage(lib, Render(page, source, hash), page, source, hash)
  {
    StampReads(lib, "", source, SyncKeys(page.id, hash, page.parentId, page.labels));
  }

  /** A pull puts the page as the server has it where the page belongs, and takes the file away from where it was; nothing else in the
      directory changes. */
  lemma PulledFileIsThePage(c: Context, st: Progress, page: Page, file: Option<LocalFile>)
    requires CleanHashes(c.lib) && CleanPage(page) && !st.failed && !PullPage(c, st, page, file).failed
    requires var heads := NextRequest(c.lib, c.others, st.w).server.store.heads; page.id in heads ==> CleanHead(c.lib, heads[page.id])
    ensures var w := PullPage(c, st, page, file).w;
      && page.id in w.server.store.heads && page.path in w.disk
      && (var head := w.server.store.heads[page.id]; SaysPage(c.lib, w.disk[page.path], page, head.source, head.hash))
      && (file.Some? && file.value.path != page.path ==> file.value.path !in w.disk)
      && w.conflicts == st.w.conflicts
      && forall p :: p != page.path && (file.None? || p != file.value.path) ==>
           (p in w.disk <==> p in st.w.disk) && (p in w.disk ==> w.disk[p] == st.w.disk[p])
  {
    var head := NextRequest(c.lib, c.others, st.w).server.store.heads[page.id];
    assert CleanText(c.lib.sha(head.source));
    RenderedSaysPage(c.lib, page, head.source, head.hash);
  }

  /** A conflict leaves the directory alone and puts the page, as the server has it, beside the file. */
  lemma ConflictCopyIsTheServers(c: Context, st: Progress, w: World, page: Page, file: LocalFile)
    requires CleanHashes(c.lib) && CleanPage(page) && !st.failed && !RecordConflict(c, st, w, page, file).failed
    requires var heads := NextRequest(c.lib, c.others, w).server.store.heads; page.id in heads ==> CleanHead(c.lib, heads[page.id])
    ensures var w', copy := RecordConflict(c, st, w, page, file).w, file.path + ".conflict";
      && w'.disk == w.disk && page.id in w'.server.store.heads && copy in w'.conflicts
      && (var head := w'.server.store.heads[page.id]; SaysPage(c.lib, w'.conflicts[copy], page, head.source, head.hash))
      && forall p :: p != copy ==> (p in w'.conflicts <==> p in w.conflicts) && (p in w'.conflicts ==> w'.conflicts[p] == w.conflicts[p])
  {
    var head := NextRequest(c.lib, c.others, w).server.store.heads[page.id];
    assert CleanText(c.lib.sha(head.source));
    RenderedSaysPage(c.lib, page, head.source, head.hash);
  }

  // ---------------------------------------------------------------------------------------------
  // Parents first
  // ---------------------------------------------------------------------------------------------

  lemma {:induction false} DepthOfJoin(a: Path, b: Path)
    ensures Depth(a + b) == Depth(a) + Depth(b) - 1
  {
    if a == "" {
      assert a + b == b;
    } else {
      assert (a + b)[1..] == a[1..] + b;
      DepthOfJoin(a[1..], b);
    }
  }

  lemma {:induction false} DepthIsPositive(path: Path)
    ensures Depth(path) >= 1 && ('/' !in path ==> Depth(path) == 1)
  {
    if path == "" {
    } else {
      assert path[0] in path;
      DepthIsPositive(path[1..]);
    }
  }

  /** The path is its directory, a slash, and a name. */
  lemma {:induction false} DirectoryIsBeforeName(path: Path) returns (name: Path)
    ensures '/' !in name && ((path == name && Directory(path) == "") || path == Directory(path) + "/" + name)
  {
    if path == "" {
      name := "";
    } else {
      var n := |path| - 1;
      if path[n] == '/' {
        name := "";
        assert path == path[..n] + "/" + "";
      } else {
        name := DirectoryIsBeforeName(path[..n]);
        assert path == path[..n] + [path[n]];
        name := name + [path[n]];
      }
    }
  }

  /** The file of the directory's own page lies less deep than the files in the directory. */
  lemma ParentLiesHigher(path: Path)
    requires Directory(path) != ""
    ensures Depth(Directory(path) + ".noma") < Depth(path)
  {
    var directory := Directory(path);
    var name := DirectoryIsBeforeName(path);
    DepthOfJoin(directory, ".noma");
    DepthIsPositive(".noma");
    DepthOfJoin(directory + "/", name);
    DepthOfJoin(directory, "/");
    DepthIsPositive(name);
    assert "/"[1..] == "";
    assert Depth("/") == 2;
  }

  /** Less deep, or as deep and not behind by path. */
  predicate InOrder(a: LocalFile, b: LocalFile) {
    Depth(a.path) < Depth(b.path) || (Depth(a.path) == Depth(b.path) && AtMost(a.path, b.path))
  }

  ghost predicate AllInOrder(files: seq<LocalFile>) {
    forall i, j :: 0 <= i < j < |files| ==> InOrder(files[i], files[j])
  }

  lemma OrderIsTotal(a: LocalFile, b: LocalFile)
    ensures Sooner(a, b) ==> InOrder(a, b)
    ensures !Sooner(a, b) ==> InOrder(b, a)
  {
    AtMostIsTotal(a.path, b.path);
  }

  lemma OrderIsTransitive(a: LocalFile, b: LocalFile, c: LocalFile)
    requires InOrder(a, b) && InOrder(b, c)
    ensures InOrder(a, c)
  {
    if AtMost(a.path, b.path) && AtMost(b.path, c.path) {
      AtMostIsTransitive(a.path, b.path, c.path);
    }
  }

  lemma {:induction false} InsertKeepsOrder(file: LocalFile, files: seq<LocalFile>)
    requires AllInOrder(files)
    ensures AllInOrder(Insert(file, files))
    ensures forall f :: f in Insert(file, files) ==> f in files || f == file
  {
    if files == [] {
    } else if Sooner(files[0], file) {
      var rest := Insert(file, files[1..]);
      InsertKeepsOrder(file, files[1..]);
      OrderIsTotal(files[0], file);
      assert forall f :: f in files[1..] ==> InOrder(files[0], f);
      assert forall f :: f in rest ==> InOrder(files[0], f);
    } else {
      OrderIsTotal(files[0], file);
      forall f | f in files
        ensures InOrder(file, f)
      {
        if f != files[0] {
          assert InOrder(files[0], f);
          OrderIsTransitive(file, files[0], f);
        }
      }
    }
  }

  lemma {:induction false} ParentFirstIsInOrder(files: seq<LocalFile>)
    ensures AllInOrder(ParentFirst(files))
  {
    if files == [] {
    } else {
      ParentFirstIsInOrder(files[1..]);
      InsertKeepsOrder(files[0], ParentFirst(files[1..]));
    }
  }

  lemma HigherComesFirst(files: seq<LocalFile>, i: nat, j: nat)
    requires AllInOrder(files) && i < |files| && j < |files| && Depth(files[j].path) < Depth(files[i].path)
    ensures j < i
  {
  }

  /** Files are turned into pages from the top down: the file of a directory's own page comes before every file in the directory. */
  lemma ParentComesFirst(files: seq<LocalFile>, i: nat, j: nat)
    requires i < |ParentFirst(files)| && j < |ParentFirst(files)|
    requires var sorted := ParentFirst(files); Directory(sorted[i].path) != "" && sorted[j].path == Directory(sorted[i].path) + ".noma"
    ensures j < i
  {
    ParentFirstIsInOrder(files);
    ParentLiesHigher(ParentFirst(files)[i].path);
    HigherComesFirst(ParentFirst(files), i, j);
  }

  /** A new page lies below the page its file names as parent. A file without such a name lies below the page of its directory: the one
      that the directory's own file names, or that was just made from it, or that the manifest has there; files at the top lie below none. */
  lemma NewPageLiesInItsDirectory(c: Context, left: Leftovers, file: LocalFile)
    ensures var parent, directory := ParentOf(c, left, file), Directory(file.path) + ".noma";
      && (file.meta.cloudParent.Some? ==> parent == file.meta.cloudParent)
      && (file.meta.cloudParent.None? && Directory(file.path) == "" ==> parent == None)
      && (file.meta.cloudParent.None? && Directory(file.path) != "" ==>
            if exists f :: f in c.local && f.path == directory && IsFirstAt(c.local, f) && f.meta.cloudId.Some? then
              exists f :: f in c.local && f.path == directory && IsFirstAt(c.local, f) && parent == f.meta.cloudId
            else if directory in left.created then parent == Some(left.created[directory])
            else if parent.Some? then exists p :: p in c.pages && p.path == directory && parent == Some(p.id)
            else forall p :: p in c.pages ==> p.path != directory)
  {
    var directory := Directory(file.path) + ".noma";
    FileAtIsFirst(c.local, directory);
    PageAtIsThere(c.pages, directory);
  }

  /** No earlier file has its path. */
  ghost predicate IsFirstAt(files: seq<LocalFile>, f: LocalFile) {
    exists i :: 0 <= i < |files| && files[i] == f && forall k :: 0 <= k < i ==> files[k].path != f.path
  }

  lemma {:induction false} FileAtIsFirst(files: seq<LocalFile>, path: Path)
    ensures var found := FileAt(files, path);
      && (found.Some? ==> found.value in files && found.value.path == path && IsFirstAt(files, found.value))
      && (found.None? ==> forall f :: f in files ==> f.path != path)
    ensures forall f :: f in files && f.path == path && IsFirstAt(files, f) ==> FileAt(files, path) == Some(f)
  {
    if files == [] {
    } else {
      FileAtIsFirst(files[1..], path);
      if files[0].path != path {
        forall f: LocalFile | f.path == path
          ensures IsFirstAt(files[1..], f) <==> IsFirstAt(files, f)
        {
          ShiftFirst(files, f);
        }
      }
    }
  }

  lemma ShiftFirst(files: seq<LocalFile>, f: LocalFile)
    requires files != [] && files[0].path != f.path
    ensures IsFirstAt(files[1..], f) <==> IsFirstAt(files, f)
  {
    if i :| 0 <= i < |files[1..]| && files[1..][i] == f && forall k :: 0 <= k < i ==> files[1..][k].path != f.path {
      assert files[i + 1] == f && forall k :: 1 <= k < i + 1 ==> files[k] == files[1..][k - 1];
    }
    if i :| 0 <= i < |files| && files[i] == f && forall k :: 0 <= k < i ==> files[k].path != f.path {
      assert files[1..][i - 1] == f && forall k :: 0 <= k < i - 1 ==> files[1..][k] == files[k + 1];
    }
  }

  lemma {:induction false} PageAtIsThere(pages: seq<Page>, path: Path)
    ensures var found := PageAt(pages, path);
      if found.Some? then exists p :: p in pages && p.path == path && p.id == found.value else forall p :: p in pages ==> p.path != path
  {
    if pages == [] {
    } else {
      PageAtIsThere(pages[1..], path);
      assert pages[0] in pages && forall p :: p in pages[1..] ==> p in pages;
      assert forall p :: p in pages ==> p == pages[0] || p in pages[1..];
    }
  }
}
