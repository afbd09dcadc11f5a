/** The retrieval index and the least-recently-used cache in front of its table. */
module IndexCache {
  import opened Wrappers
  import opened Numbers

  /** A block row; record ids are hashes, compared as numbers. */
  datatype Block = Block(id: nat, versionHash: string, line: int, text: string)

  /** What a document was indexed from: its source, and its attachments' text if it has any. */
  datatype Version = Version(hash: string, attachments: Option<string>)

  datatype Entry = Entry(document: string, version: Version, blocks: seq<Block>)

  /** A document to index; `blocks` is what indexing it yields, nothing when its attachments' text cannot be loaded or the database fails. */
  datatype Access = Access(document: string, version: Version, blocks: Option<seq<Block>>)

  const CACHE_SIZE := 512

  /** The block rows by document and record id, the version each document was last indexed at, and the cache, oldest use
      first. `uses` is the history of documents put into or found in the cache. */
  datatype State = State(rows: map<string, map<nat, Block>>, indexed: map<string, Version>, cache: seq<Entry>, uses: seq<string>)

  // ---------------------------------------------------------------------------------------------
  // Sorting
  // ---------------------------------------------------------------------------------------------

  predicate Before(a: Block, b: Block) {
    a.line < b.line || (a.line == b.line && a.id < b.id)
  }

  ghost predicate Ordered(s: seq<Block>) {
    forall i, j :: 0 <= i < j < |s| ==> !Before(s[j], s[i])
  }

  function Insert(b: Block, s: seq<Block>): seq<Block> {
    if s == [] || Before(b, s[0]) then [b] + s else [s[0]] + Insert(b, s[1..])
  }

  function SortIndexedBlocks(s: seq<Block>): seq<Block> {
    if s == [] then [] else Insert(s[|s| - 1], SortIndexedBlocks(s[..|s| - 1]))
  }

  lemma {:induction false} InsertSorts(b: Block, s: seq<Block>)
    requires Ordered(s)
    ensures Ordered(Insert(b, s)) && multiset(Insert(b, s)) == multiset(s) + multiset{b}
  {
    if s == [] || Before(b, s[0]) {
    } else {
      InsertSorts(b, s[1..]);
      var rest := Insert(b, s[1..]);
      assert s == [s[0]] + s[1..];
      forall x | x in rest
        ensures !Before(x, s[0])
      {
        assert x in multiset(rest);
        assert x == b || x in s[1..];
      }
    }
  }

  lemma {:induction false} SortSorts(s: seq<Block>)
    ensures Ordered(SortIndexedBlocks(s)) && multiset(SortIndexedBlocks(s)) == multiset(s)
  {
    if s == [] {
    } else {
      var n := |s| - 1;
      SortSorts(s[..n]);
      InsertSorts(s[n], SortIndexedBlocks(s[..n]));
      LastApart(s);
    }
  }

  lemma LastApart(s: seq<Block>)
    requires s != []
    ensures multiset(s) == multiset(s[..|s| - 1]) + multiset{s[|s| - 1]}
  {
    assert s == s[..|s| - 1] + [s[|s| - 1]];
  }

  // ---------------------------------------------------------------------------------------------
  // Table rows
  // ---------------------------------------------------------------------------------------------

  function RowsOf(s: State, document: string): map<nat, Block> {
    if document in s.rows then s.rows[document] else map[]
  }

  /** Putting the blocks one after another; a repeated id overwrites. */
  function Upserted(blocks: seq<Block>): map<nat, Block> {
    if blocks == [] then map[] else Upserted(blocks[..|blocks| - 1])[blocks[|blocks| - 1].id := blocks[|blocks| - 1]]
  }

  /** The rows of a version, in some order. */
  function Collect(rows: map<nat, Block>, ids: set<nat>, hash: string): seq<Block>
    decreases |ids|
  {
    if ids == {} then []
    else
      ghost var _ := LeastId(ids);
      var id :| id in ids && forall m :: m in ids ==> id <= m;
      (if id in rows && rows[id].versionHash == hash then [rows[id]] else []) + Collect(rows, ids - {id}, hash)
  }

  ghost function LeastId(ids: set<nat>): (least: nat)
    requires ids != {}
    ensures least in ids && forall n :: n in ids ==> least <= n
  {
    LeastIdExists(ids);
    var least :| least in ids && forall n :: n in ids ==> least <= n;
    least
  }

  lemma LeastIdExists(ids: set<nat>)
    requires ids != {}
    ensures exists least :: least in ids && forall n :: n in ids ==> least <= n
  {
    var _ := LeastExists(ids);
  }

  function Loaded(rows: map<nat, Block>, hash: string): seq<Block> {
    SortIndexedBlocks(Collect(rows, rows.Keys, hash))
  }

  /** The rows of a document at one version, each once, by line and record id. */
  ghost predicate IsView(rows: map<nat, Block>, hash: string, list: seq<Block>) {
    && (forall i, j :: 0 <= i < j < |list| ==> Before(list[i], list[j]))
    && (forall b :: b in list <==> b.id in rows && rows[b.id] == b && b.versionHash == hash)
  }

  ghost predicate DistinctIds(s: seq<Block>) {
    forall i, j :: 0 <= i < j < |s| ==> s[i].id != s[j].id
  }

  lemma TwiceIsTwo(s: seq<Block>, i: nat, j: nat)
    requires i < j < |s| && s[i] == s[j]
    ensures multiset(s)[s[i]] >= 2
  {
    assert s == s[..j] + s[j..];
    assert s[i] in s[..j] && s[j] in s[j..];
  }

  lemma {:induction false} DistinctIsOne(s: seq<Block>, b: Block)
    requires DistinctIds(s)
    ensures multiset(s)[b] <= 1
  {
    if s == [] {
    } else {
      var n := |s| - 1;
      assert s == s[..n] + [s[n]];
      DistinctIsOne(s[..n], b);
    }
  }

  /** Sorting the rows of a version, in whatever order they come, gives its view. */
  lemma SortIsView(rows: map<nat, Block>, hash: string, s: seq<Block>)
    requires DistinctIds(s) && forall b :: b in s <==> b.id in rows && rows[b.id] == b && b.versionHash == hash
    ensures IsView(rows, hash, SortIndexedBlocks(s))
  {
    var list := SortIndexedBlocks(s);
    SortSorts(s);
    forall b
      ensures b in list <==> b in s
    {
      assert b in list <==> b in multiset(list);
      assert b in s <==> b in multiset(s);
    }
    forall i, j | 0 <= i < j < |list|
      ensures Before(list[i], list[j])
    {
      DistinctIsOne(s, list[i]);
      if list[i] == list[j] {
        TwiceIsTwo(list, i, j);
      }
      assert list[i] in s && list[j] in s;
    }
  }

  lemma EmptyTogether(a: seq<Block>, b: seq<Block>)
    requires forall x :: x in a <==> x in b
    ensures a == [] <==> b == []
  {
    if a != [] {
      assert a[0] in a;
    }
    if b != [] {
      assert b[0] in b;
    }
  }

  lemma {:induction false} ViewIsUnique(a: seq<Block>, b: seq<Block>)
    requires (forall i, j :: 0 <= i < j < |a| ==> Before(a[i], a[j])) && (forall i, j :: 0 <= i < j < |b| ==> Before(b[i], b[j]))
    requires forall x :: x in a <==> x in b
    ensures a == b
  {
    EmptyTogether(a, b);
    if a == [] {
    } else {
      assert a[0] in b;
      assert b[0] in a;
      assert a[0] == b[0];
      forall x
        ensures x in a[1..] <==> x in b[1..]
      {
        WithoutHead(a, x);
        WithoutHead(b, x);
      }
      ViewIsUnique(a[1..], b[1..]);
      assert a == [a[0]] + a[1..] && b == [b[0]] + b[1..];
    }
  }

  lemma WithoutHead(a: seq<Block>, x: Block)
    requires a != [] && forall i, j :: 0 <= i < j < |a| ==> Before(a[i], a[j])
    ensures x in a[1..] <==> x in a && x != a[0]
  {
  }

  /** The list holds the chosen rows, each once. */
  ghost predicate Picks(rows: map<nat, Block>, ids: set<nat>, hash: string, s: seq<Block>) {
    && DistinctIds(s)
    && forall b :: b in s <==> b.id in ids && b.id in rows && rows[b.id] == b && b.versionHash == hash
  }

  lemma PickOneMore(rows: map<nat, Block>, ids: set<nat>, hash: string, id: nat, s: seq<Block>)
    requires id in ids && Picks(rows, ids - {id}, hash, s) && (id in rows ==> rows[id].id == id)
    ensures Picks(rows, ids, hash, (if id in rows && rows[id].versionHash == hash then [rows[id]] else []) + s)
  {
    if id in rows && rows[id].versionHash == hash {
      var more := [rows[id]] + s;
      assert forall b :: b in more <==> b == rows[id] || b in s;
      forall j | 0 < j < |more|
        ensures more[j].id != id
      {
        assert more[j] in s;
      }
    } else {
      assert [] + s == s;
    }
  }

  lemma CollectStep(rows: map<nat, Block>, ids: set<nat>, hash: string, id: nat)
    requires id in ids && forall m :: m in ids ==> id <= m
    ensures Collect(rows, ids, hash)
         == (if id in rows && rows[id].versionHash == hash then [rows[id]] else []) + Collect(rows, ids - {id}, hash)
  {
  }

  lemma {:induction false} CollectIsRows(rows: map<nat, Block>, ids: set<nat>, hash: string)
    requires forall id :: id in rows ==> rows[id].id == id
    ensures Picks(rows, ids, hash, Collect(rows, ids, hash))
    decreases |ids|
  {
    if ids == {} {
    } else {
      var id := LeastId(ids);
      CollectIsRows(rows, ids - {id}, hash);
      CollectStep(rows, ids, hash, id);
      PickOneMore(rows, ids, hash, id, Collect(rows, ids - {id}, hash));
    }
  }

  lemma LoadedIsView(rows: map<nat, Block>, hash: string)
    requires forall id :: id in rows ==> rows[id].id == id
    ensures IsView(rows, hash, Loaded(rows, hash))
  {
    CollectIsRows(rows, rows.Keys, hash);
    SortIsView(rows, hash, Collect(rows, rows.Keys, hash));
  }

  lemma {:induction false} UpsertedHolds(blocks: seq<Block>)
    ensures forall id :: id in Upserted(blocks) ==> Upserted(blocks)[id].id == id && Upserted(blocks)[id] in blocks
    ensures DistinctIds(blocks) ==> forall b :: b in blocks ==> b.id in Upserted(blocks) && Upserted(blocks)[b.id] == b
  {
    if blocks == [] {
    } else {
      var n := |blocks| - 1;
      UpsertedHolds(blocks[..n]);
      assert blocks == blocks[..n] + [blocks[n]];
    }
  }

  // ---------------------------------------------------------------------------------------------
  // The cache
  // ---------------------------------------------------------------------------------------------

  function Without(cache: seq<Entry>, document: string): seq<Entry> {
    if cache == [] then []
    else Without(cache[..|cache| - 1], document) + (if cache[|cache| - 1].document == document then [] else [cache[|cache| - 1]])
  }

  function Lookup(cache: seq<Entry>, document: string): Option<Entry> {
    if cache == [] then None
    else if cache[|cache| - 1].document == document then Some(cache[|cache| - 1])
    else Lookup(cache[..|cache| - 1], document)
  }

  function Shrunk(cache: seq<Entry>): seq<Entry> {
    if |cache| > CACHE_SIZE then Shrunk(cache[1..]) else cache
  }

  /** A new entry goes to the end; the oldest ones fall out. */
  function Cached(cache: seq<Entry>, e: Entry): seq<Entry> {
    Shrunk(Without(cache, e.document) + [e])
  }

  predicate Hit(cache: seq<Entry>, document: string, version: Version) {
    Lookup(cache, document).Some? && Lookup(cache, document).value.version == version
  }

  predicate Current(s: State, a: Access) {
    a.document in s.indexed && s.indexed[a.document] == a.version
  }

  predicate Skipped(s: State, a: Access, force: bool) {
    !force && (Hit(s.cache, a.document, a.version) || Current(s, a))
  }

  /** One document is parsed and put: its rows, its version, its cache entry. */
  function Put(s: State, a: Access, blocks: seq<Block>): State {
    State(s.rows[a.document := Upserted(blocks)], s.indexed[a.document := a.version],
          Cached(s.cache, Entry(a.document, a.version, SortIndexedBlocks(blocks))), s.uses + [a.document])
  }

  /** The documents still to index, with `parsed` of at most `max` parsed so far. A failure undoes the table's changes since
      `start`, but not the cache's. */
  function IndexedFrom(start: State, s: State, todo: seq<Access>, force: bool, parsed: nat, max: nat): (State, bool)
    decreases |todo|
  {
    if todo == [] then (s, true)
    else
      var a := todo[0];
      if Skipped(s, a, force) then IndexedFrom(start, s, todo[1..], force, parsed, max)
      else if parsed >= max then IndexedFrom(start, s, todo[1..], force, parsed, max)
      else if a.blocks.None? then (s.(rows := start.rows, indexed := start.indexed), false)
      else IndexedFrom(start, Put(s, a, a.blocks.value), todo[1..], force, parsed + 1, max)
  }

  /** One document of a read. */
  function ReadOne(s: State, a: Access): (State, seq<Block>) {
    if Hit(s.cache, a.document, a.version) then
      var e := Lookup(s.cache, a.document).value;
      (s.(cache := Without(s.cache, a.document) + [e], uses := s.uses + [a.document]), e.blocks)
    else
      var loaded := Loaded(RowsOf(s, a.document), a.version.hash);
      if Current(s, a) then
        (s.(cache := Cached(s.cache, Entry(a.document, a.version, SortIndexedBlocks(loaded))), uses := s.uses + [a.document]), loaded)
      else (s, loaded)
  }

  function ReadAll(s: State, todo: seq<Access>): (State, seq<Block>) {
    if todo == [] then (s, [])
    else
      var n := |todo| - 1;
      var (before, blocks) := ReadAll(s, todo[..n]);
      var (after, more) := ReadOne(before, todo[n]);
      (after, blocks + more)
  }

  /** Setting trust makes the document due for indexing again. */
  function Trusted(s: State, document: string): State {
    s.(indexed := s.indexed - {document}, cache := Without(s.cache, document))
  }

  /** What retention removed: block rows, index marks, and possibly records of other kinds. */
  datatype Removal = Removal(blocks: set<(string, nat)>, marks: set<string>, others: nat)

  function Retained(s: State, r: Removal): State {
    var rows := map d | d in s.rows :: map id | id in s.rows[d] && (d, id) !in r.blocks :: s.rows[d][id];
    var deleted := r.blocks != {} || r.marks != {} || r.others > 0;
    s.(rows := rows, indexed := s.indexed - r.marks, cache := if deleted then [] else s.cache)
  }

  // ---------------------------------------------------------------------------------------------
  // The platform
  // ---------------------------------------------------------------------------------------------

  class CloudKnowledgePlatform {
    var rows: map<string, map<nat, Block>>
    var indexed: map<string, Version>
    var cache: seq<Entry>
    ghost var uses: seq<string>

    constructor ()
      ensures Now() == State(map[], map[], [], [])
    {
      rows, indexed, cache, uses := map[], map[], [], [];
    }

    ghost function Now(): State
      reads this
    {
      State(rows, indexed, cache, uses)
    }

    method CacheIndexedBlocks(document: string, version: Version, blocks: seq<Block>)
      modifies this`cache, this`uses
      ensures cache == Cached(old(cache), Entry(document, version, SortIndexedBlocks(blocks))) && uses == old(uses) + [document]
    {
      var next := Without(cache, document);
      next := next + [Entry(document, version, SortIndexedBlocks(blocks))];
      ghost var full := next;
      while |next| > CACHE_SIZE
        invariant Shrunk(next) == Shrunk(full)
        decreases |next|
      {
        next := next[1..];
      }
      cache := next;
      uses := uses + [document];
    }

    /** Replaces the document's block rows. */
    method PutBlocks(document: string, blocks: seq<Block>)
      modifies this`rows
      ensures rows == old(rows)[document := Upserted(blocks)]
    {
      var put: map<nat, Block> := map[];
      for i := 0 to |blocks|
        invariant put == Upserted(blocks[..i])
      {
        assert blocks[..i + 1][..i] == blocks[..i];
        put := put[blocks[i].id := blocks[i]];
      }
      assert blocks[..|blocks|] == blocks;
      rows := rows[document := put];
    }

    method IndexDocuments(documents: seq<Access>, force: bool, maxDocuments: nat) returns (ok: bool)
      modifies this
      ensures (Now(), ok) == IndexedFrom(old(Now()), old(Now()), documents, force, 0, maxDocuments)
    {
      var parsed, k := 0, 0;
      var oldRows, oldIndexed := rows, indexed;
      ghost var start := Now();
      while k < |documents|
        invariant k <= |documents|
        invariant IndexedFrom(start, Now(), documents[k..], force, parsed, maxDocuments) == IndexedFrom(start, start, documents, force, 0, maxDocuments)
      {
        var a := documents[k];
        assert documents[k..][1..] == documents[k + 1..];
        k := k + 1;
        if !force && Hit(cache, a.document, a.version) {
          continue;
        }
        if !force && a.document in indexed && indexed[a.document] == a.version {
          continue;
        }
        if parsed >= maxDocuments {
          continue;
        }
        parsed := parsed + 1;
        if a.blocks.None? {
          rows, indexed := oldRows, oldIndexed;
          return false;
        }
        PutBlocks(a.document, a.blocks.value);
        indexed := indexed[a.document := a.version];
        CacheIndexedBlocks(a.document, a.version, a.blocks.value);
      }
      ok := true;
    }

    method IndexedBlocks(documents: seq<Access>) returns (blocks: seq<Block>)
      modifies this`cache, this`uses
      ensures (Now(), blocks) == ReadAll(old(Now()), documents)
    {
      blocks := [];
      ghost var start := Now();
      for k := 0 to |documents|
        invariant (Now(), blocks) == ReadAll(start, documents[..k])
      {
        assert documents[..k + 1][..k] == documents[..k];
        var a := documents[k];
        if Hit(cache, a.document, a.version) {
          var cached := Lookup(cache, a.document).value;
          cache := Without(cache, a.document);
          cache := cache + [cached];
          uses := uses + [a.document];
          blocks := blocks + cached.blocks;
          continue;
        }
        var found: map<nat, Block> := if a.document in rows then rows[a.document] else map[];
        var loaded := Loaded(found, a.version.hash);
        if a.document in indexed && indexed[a.document] == a.version {
          CacheIndexedBlocks(a.document, a.version, loaded);
        }
        blocks := blocks + loaded;
      }
      assert documents[..|documents|] == documents;
    }

    /** The part of setting trust that concerns the index. */
    method PutTrust(document: string)
      modifies this`indexed, this`cache
      ensures Now() == Trusted(old(Now()), document)
    {
      indexed := indexed - {document};
      cache := Without(cache, document);
    }

    /** Deletes the records that are past retention and not held. */
    method EnforceRetention(r: Removal)
      modifies this`rows, this`indexed, this`cache
      ensures Now() == Retained(old(Now()), r)
    {
      rows := map d | d in rows :: map id | id in rows[d] && (d, id) !in r.blocks :: rows[d][id];
      indexed := indexed - r.marks;
      if r.blocks != {} || r.marks != {} || r.others > 0 {
        cache := [];
      }
    }
  }

  // ---------------------------------------------------------------------------------------------
  // The cache is transparent
  // ---------------------------------------------------------------------------------------------

  function LastUse(uses: seq<string>, document: string): int {
    if uses == [] then -1
    else if uses[|uses| - 1] == document then |uses| - 1
    else LastUse(uses[..|uses| - 1], document)
  }

  /** Entries stand in the order of their documents' last uses; so no document has two. */
  ghost predicate ByRecency(cache: seq<Entry>, uses: seq<string>) {
    forall i, j :: 0 <= i < j < |cache| ==> LastUse(uses, cache[i].document) < LastUse(uses, cache[j].document)
  }

  ghost predicate RowsKeyed(s: State) {
    forall d, id :: d in s.rows && id in s.rows[d] ==> s.rows[d][id].id == id
  }

  ghost predicate EntryFits(s: State, e: Entry) {
    IsView(RowsOf(s, e.document), e.version.hash, e.blocks)
  }

  ghost predicate Transparent(s: State) {
    && RowsKeyed(s) && |s.cache| <= CACHE_SIZE && ByRecency(s.cache, s.uses)
    && forall e :: e in s.cache ==> EntryFits(s, e)
  }

  lemma {:induction false} UseIsEarlier(uses: seq<string>, document: string)
    ensures -1 <= LastUse(uses, document) < |uses|
  {
    if uses == [] {
    } else {
      UseIsEarlier(uses[..|uses| - 1], document);
    }
  }

  lemma {:induction false} WithoutHolds(cache: seq<Entry>, d: string)
    ensures forall e :: e in Without(cache, d) <==> e in cache && e.document != d
    ensures |Without(cache, d)| <= |cache|
    ensures (exists e :: e in cache && e.document == d) ==> |Without(cache, d)| < |cache|
  {
    if cache == [] {
    } else {
      var n := |cache| - 1;
      WithoutHolds(cache[..n], d);
      assert cache == cache[..n] + [cache[n]];
    }
  }

  lemma {:induction false} LookupFinds(cache: seq<Entry>, d: string)
    ensures Lookup(cache, d).Some? ==> Lookup(cache, d).value in cache && Lookup(cache, d).value.document == d
  {
    if cache == [] {
    } else {
      LookupFinds(cache[..|cache| - 1], d);
    }
  }

  /** Every entry was used before the document. */
  ghost predicate AllEarlier(cache: seq<Entry>, uses: seq<string>, d: string) {
    forall e :: e in cache ==> LastUse(uses, e.document) < LastUse(uses, d)
  }

  lemma OrderOfLast(cache: seq<Entry>, uses: seq<string>)
    requires cache != [] && ByRecency(cache, uses)
    ensures ByRecency(cache[..|cache| - 1], uses) && AllEarlier(cache[..|cache| - 1], uses, cache[|cache| - 1].document)
  {
  }

  lemma OrderWithLast(rest: seq<Entry>, e: Entry, uses: seq<string>)
    requires ByRecency(rest, uses) && AllEarlier(rest, uses, e.document)
    ensures ByRecency(rest + [e], uses)
  {
    var all := rest + [e];
    forall i, j | 0 <= i < j < |all|
      ensures LastUse(uses, all[i].document) < LastUse(uses, all[j].document)
    {
      assert all[i] in rest;
    }
  }

  lemma {:induction false} WithoutKeepsOrder(cache: seq<Entry>, d: string, uses: seq<string>)
    requires ByRecency(cache, uses)
    ensures ByRecency(Without(cache, d), uses)
  {
    if cache == [] {
    } else {
      var n := |cache| - 1;
      OrderOfLast(cache, uses);
      WithoutKeepsOrder(cache[..n], d, uses);
      WithoutHolds(cache[..n], d);
      OrderWithLast(Without(cache[..n], d), cache[n], uses);
      assert Without(cache[..n], d) + [] == Without(cache[..n], d);
    }
  }

  lemma OtherUsesStay(uses: seq<string>, d: string, other: string)
    requires other != d
    ensures LastUse(uses + [d], other) == LastUse(uses, other) < |uses| && LastUse(uses + [d], d) == |uses|
  {
    UseIsEarlier(uses, other);
    assert (uses + [d])[..|uses|] == uses;
  }

  lemma NewestIsLast(rest: seq<Entry>, e: Entry, uses: seq<string>)
    requires ByRecency(rest, uses) && forall i :: 0 <= i < |rest| ==> rest[i].document != e.document
    ensures ByRecency(rest + [e], uses + [e.document])
  {
    forall i | 0 <= i < |rest|
      ensures LastUse(uses + [e.document], rest[i].document) == LastUse(uses, rest[i].document) < LastUse(uses + [e.document], e.document)
    {
      OtherUsesStay(uses, e.document, rest[i].document);
    }
  }

  lemma UseKeepsOrder(cache: seq<Entry>, e: Entry, uses: seq<string>)
    requires ByRecency(cache, uses)
    ensures ByRecency(Without(cache, e.document) + [e], uses + [e.document])
  {
    WithoutKeepsOrder(cache, e.document, uses);
    WithoutHolds(cache, e.document);
    var rest := Without(cache, e.document);
    forall i | 0 <= i < |rest|
      ensures rest[i].document != e.document
    {
      assert rest[i] in rest;
    }
    NewestIsLast(rest, e, uses);
  }

  /** What falls out is a stretch from the front. */
  lemma {:induction false} ShrunkIsTail(cache: seq<Entry>)
    ensures |Shrunk(cache)| == (if |cache| > CACHE_SIZE then CACHE_SIZE else |cache|) && Shrunk(cache) == cache[|cache| - |Shrunk(cache)|..]
    decreases |cache|
  {
    if |cache| <= CACHE_SIZE {
      assert cache[0..] == cache;
    } else {
      var rest := cache[1..];
      ShrunkIsTail(rest);
      TailOfTail(cache, |rest| - |Shrunk(rest)|);
    }
  }

  lemma TailOfTail(cache: seq<Entry>, k: nat)
    requires k < |cache|
    ensures cache[1..][k..] == cache[k + 1..]
  {
  }

  /** Everything that falls out was used before everything that stays. */
  lemma EvictedIsLeastRecent(cache: seq<Entry>, e: Entry, uses: seq<string>, gone: Entry, kept: Entry)
    requires ByRecency(cache, uses)
    requires gone in Without(cache, e.document) + [e] && gone !in Cached(cache, e) && kept in Cached(cache, e)
    ensures LastUse(uses + [e.document], gone.document) < LastUse(uses + [e.document], kept.document)
  {
    UseKeepsOrder(cache, e, uses);
    var full := Without(cache, e.document) + [e];
    ShrunkIsTail(full);
    var n := |full| - |Shrunk(full)|;
    forall k | n <= k < |full|
      ensures full[k] in Shrunk(full)
    {
      assert Shrunk(full)[k - n] == full[k];
    }
    var i :| 0 <= i < |full| && full[i] == gone;
    var j :| 0 <= j < |Shrunk(full)| && Shrunk(full)[j] == kept;
    assert full[n + j] == kept;
  }

  lemma CachedFits(cache: seq<Entry>, e: Entry, uses: seq<string>)
    requires ByRecency(cache, uses)
    ensures |Cached(cache, e)| <= CACHE_SIZE && ByRecency(Cached(cache, e), uses + [e.document])
    ensures forall x :: x in Cached(cache, e) ==> x == e || (x in cache && x.document != e.document)
  {
    UseKeepsOrder(cache, e, uses);
    WithoutHolds(cache, e.document);
    ShrunkIsTail(Without(cache, e.document) + [e]);
  }

  ghost predicate WellParsed(a: Access) {
    a.blocks.Some? ==> DistinctIds(a.blocks.value) && forall b :: b in a.blocks.value ==> b.versionHash == a.version.hash
  }

  lemma PutFits(s: State, a: Access)
    requires Transparent(s) && a.blocks.Some? && WellParsed(a)
    ensures Transparent(Put(s, a, a.blocks.value))
  {
    var blocks := a.blocks.value;
    UpsertedHolds(blocks);
    SortIsView(Upserted(blocks), a.version.hash, blocks);
    var e := Entry(a.document, a.version, SortIndexedBlocks(blocks));
    CachedFits(s.cache, e, s.uses);
    var after := Put(s, a, blocks);
    forall x | x in after.cache
      ensures EntryFits(after, x)
    {
      assert x != e ==> EntryFits(s, x);
    }
  }

  // Calls that fail --------------------------------------------------------------------------------

  function EntryOf(a: Access): Entry
    requires a.blocks.Some?
  {
    Entry(a.document, a.version, SortIndexedBlocks(a.blocks.value))
  }

  /** What a call indexes, in order, up to its end or its failure. */
  function Ahead(s: State, todo: seq<Access>, force: bool, parsed: nat, max: nat): seq<Entry>
    decreases |todo|
  {
    if todo == [] then []
    else
      var a := todo[0];
      if Skipped(s, a, force) || parsed >= max then Ahead(s, todo[1..], force, parsed, max)
      else if a.blocks.None? then []
      else [EntryOf(a)] + Ahead(Put(s, a, a.blocks.value), todo[1..], force, parsed + 1, max)
  }

  /** What the cache keeps of these entries: the last one of each document, at most 512. */
  function Remembered(done: seq<Entry>): seq<Entry> {
    if done == [] then [] else Cached(Remembered(done[..|done| - 1]), done[|done| - 1])
  }

  lemma {:induction false} WithoutAppend(a: seq<Entry>, b: seq<Entry>, document: string)
    ensures Without(a + b, document) == Without(a, document) + Without(b, document)
  {
    if b == [] {
      assert a + b == a;
    } else {
      var n := |b| - 1;
      assert (a + b)[..|a| + n] == a + b[..n];
      WithoutAppend(a, b[..n], document);
    }
  }

  /** Shrinking what ends in `b` keeps a stretch before it, and of `b` what shrinking `b` keeps. */
  lemma ShrunkAppend(a: seq<Entry>, b: seq<Entry>) returns (front: seq<Entry>)
    ensures Shrunk(a + b) == front + Shrunk(b) && forall e :: e in front ==> e in a
  {
    ShrunkIsTail(a + b);
    ShrunkIsTail(b);
    front := TailOfJoin(a, b, |Shrunk(a + b)|, |Shrunk(b)|);
  }

  lemma TailOfJoin(a: seq<Entry>, b: seq<Entry>, n: nat, k: nat) returns (front: seq<Entry>)
    requires k <= |b| && k <= n <= |a| + |b| && (k == n || k == |b|)
    ensures (a + b)[|a| + |b| - n..] == front + b[|b| - k..] && forall e :: e in front ==> e in a
  {
    front := a[|a| - (n - k)..];
  }

  /** The cache is some entries from before the call and then what the call left of its own documents. */
  ghost predicate CacheAfter(before: seq<Entry>, cache: seq<Entry>, done: seq<Entry>) {
    exists front :: Front(before, cache, front, Remembered(done))
  }

  ghost predicate Front(before: seq<Entry>, cache: seq<Entry>, front: seq<Entry>, own: seq<Entry>) {
    cache == front + own && forall e :: e in front ==> e in before
  }

  lemma NothingAhead(cache: seq<Entry>)
    ensures CacheAfter(cache, cache, [])
  {
    assert Front(cache, cache, cache, Remembered([]));
  }

  lemma OneMoreCached(before: seq<Entry>, cache: seq<Entry>, done: seq<Entry>, e: Entry)
    requires CacheAfter(before, cache, done)
    ensures CacheAfter(before, Cached(cache, e), done + [e])
  {
    var own := Remembered(done);
    var front :| Front(before, cache, front, own);
    WithoutAppend(front, own, e.document);
    WithoutHolds(front, e.document);
    var rest := Without(front, e.document);
    var tail := Without(own, e.document) + [e];
    assert Without(cache, e.document) + [e] == rest + tail;
    var front' := ShrunkAppend(rest, tail);
    assert (done + [e])[..|done|] == done;
    assert Front(before, Cached(cache, e), front', Remembered(done + [e]));
  }

  /** The order and the size of the cache hold whatever is put. */
  ghost predicate Tidy(s: State) {
    |s.cache| <= CACHE_SIZE && ByRecency(s.cache, s.uses)
  }

  lemma {:induction false} CallIsTidy(start: State, s: State, todo: seq<Access>, force: bool, parsed: nat, max: nat)
    requires Tidy(s)
    ensures Tidy(IndexedFrom(start, s, todo, force, parsed, max).0)
    decreases |todo|
  {
    if todo == [] {
    } else {
      var a := todo[0];
      if Skipped(s, a, force) || parsed >= max {
        CallIsTidy(start, s, todo[1..], force, parsed, max);
      } else if a.blocks.Some? {
        CachedFits(s.cache, EntryOf(a), s.uses);
        CallIsTidy(start, Put(s, a, a.blocks.value), todo[1..], force, parsed + 1, max);
      }
    }
  }

  lemma {:induction false} CacheOfCall(start: State, s: State, todo: seq<Access>, force: bool, parsed: nat, max: nat, done: seq<Entry>)
    requires CacheAfter(start.cache, s.cache, done)
    ensures CacheAfter(start.cache, IndexedFrom(start, s, todo, force, parsed, max).0.cache, done + Ahead(s, todo, force, parsed, max))
    decreases |todo|
  {
    if todo == [] {
      assert done + [] == done;
    } else {
      var a := todo[0];
      if Skipped(s, a, force) || parsed >= max {
        CacheOfCall(start, s, todo[1..], force, parsed, max, done);
      } else if a.blocks.None? {
        assert done + [] == done;
      } else {
        var next := Put(s, a, a.blocks.value);
        OneMoreCached(start.cache, s.cache, done, EntryOf(a));
        CacheOfCall(start, next, todo[1..], force, parsed + 1, max, done + [EntryOf(a)]);
        assert done + [EntryOf(a)] + Ahead(next, todo[1..], force, parsed + 1, max) == done + Ahead(s, todo, force, parsed, max);
      }
    }
  }

  lemma {:induction false} FailureRestoresTable(start: State, s: State, todo: seq<Access>, force: bool, parsed: nat, max: nat)
    requires !IndexedFrom(start, s, todo, force, parsed, max).1
    ensures var after := IndexedFrom(start, s, todo, force, parsed, max).0; after.rows == start.rows && after.indexed == start.indexed
    decreases |todo|
  {
    if todo == [] {
    } else {
      var a := todo[0];
      if Skipped(s, a, force) || parsed >= max {
        FailureRestoresTable(start, s, todo[1..], force, parsed, max);
      } else if a.blocks.Some? {
        FailureRestoresTable(start, Put(s, a, a.blocks.value), todo[1..], force, parsed + 1, max);
      }
    }
  }

  /** Every document the call indexed yields the blocks the table already held at that version; of a document indexed more
      than once the last time counts, and of more than 512 documents the last 512. */
  ghost predicate NothingNew(s: State, todo: seq<Access>, force: bool, max: nat) {
    forall e :: e in Remembered(Ahead(s, todo, force, 0, max)) ==> EntryFits(s, e)
  }

  /** A failing call keeps the cache transparent exactly when everything it indexed ahead of the failure was in the table before. */
  lemma FailureIsHarmlessExactly(s: State, todo: seq<Access>, force: bool, max: nat)
    requires Transparent(s) && !IndexedFrom(s, s, todo, force, 0, max).1
    ensures Transparent(IndexedFrom(s, s, todo, force, 0, max).0) <==> NothingNew(s, todo, force, max)
  {
    var after, done := IndexedFrom(s, s, todo, force, 0, max).0, Ahead(s, todo, force, 0, max);
    NothingAhead(s.cache);
    CallIsTidy(s, s, todo, force, 0, max);
    CacheOfCall(s, s, todo, force, 0, max, []);
    assert [] + done == done;
    FailureRestoresTable(s, s, todo, force, 0, max);
    var front :| Front(s.cache, after.cache, front, Remembered(done));
    assert forall e :: e in after.cache <==> e in front || e in Remembered(done);
    SameRowsFit(s, after);
  }

  lemma SameRowsFit(s: State, after: State)
    requires after.rows == s.rows
    ensures RowsKeyed(after) <==> RowsKeyed(s)
    ensures forall e :: EntryFits(after, e) <==> EntryFits(s, e)
  {
  }

  /** Transparency is what reads tell: every read gives what the table holds exactly when every entry of the cache fits. */
  lemma ReadsTellTransparency(s: State)
    requires RowsKeyed(s) && Tidy(s)
    ensures (forall a :: ReadOne(s, a).1 == Loaded(RowsOf(s, a.document), a.version.hash)) <==> Transparent(s)
  {
    if Transparent(s) {
      forall a
        ensures ReadOne(s, a).1 == Loaded(RowsOf(s, a.document), a.version.hash)
      {
        ReadOneIsTransparent(s, a);
      }
    } else {
      var e :| e in s.cache && !EntryFits(s, e);
      var a := Access(e.document, e.version, None);
      SoleEntry(s, e);
      LoadedIsView(RowsOf(s, e.document), e.version.hash);
      assert ReadOne(s, a).1 == e.blocks;
    }
  }

  lemma SoleEntry(s: State, e: Entry)
    requires Tidy(s) && e in s.cache
    ensures Lookup(s.cache, e.document) == Some(e)
  {
    LookupMisses(s.cache, e.document);
    LookupFinds(s.cache, e.document);
    var x := Lookup(s.cache, e.document).value;
    var i :| 0 <= i < |s.cache| && s.cache[i] == e;
    var j :| 0 <= j < |s.cache| && s.cache[j] == x;
    assert LastUse(s.uses, s.cache[i].document) == LastUse(s.uses, s.cache[j].document);
  }

  lemma {:induction false} LookupMisses(cache: seq<Entry>, d: string)
    ensures Lookup(cache, d).None? ==> forall e :: e in cache ==> e.document != d
  {
    if cache == [] {
    } else {
      LookupMisses(cache[..|cache| - 1], d);
    }
  }

  /** In terms of reads: after a failing call some read gives what the table does not hold exactly when the call had indexed something new. */
  lemma FailureShowsExactly(s: State, todo: seq<Access>, force: bool, max: nat)
    requires Transparent(s) && !IndexedFrom(s, s, todo, force, 0, max).1
    ensures var after := IndexedFrom(s, s, todo, force, 0, max).0;
      (exists a :: ReadAll(after, [a]).1 != FromTable(after, [a])) <==> !NothingNew(s, todo, force, max)
  {
    var after := IndexedFrom(s, s, todo, force, 0, max).0;
    FailureIsHarmlessExactly(s, todo, force, max);
    FailureRestoresTable(s, s, todo, force, 0, max);
    CallIsTidy(s, s, todo, force, 0, max);
    ReadsTellTransparency(after);
    forall a
      ensures ReadAll(after, [a]).1 == ReadOne(after, a).1
      ensures FromTable(after, [a]) == Loaded(RowsOf(after, a.document), a.version.hash)
    {
      assert [a][..0] == [];
    }
  }

  /** The callers' case, documents listed once and at most 512 indexed: everything indexed is remembered. */
  lemma {:induction false} AllAreRemembered(done: seq<Entry>)
    requires |done| <= CACHE_SIZE && forall i, j :: 0 <= i < j < |done| ==> done[i].document != done[j].document
    ensures Remembered(done) == done
  {
    if done == [] {
    } else {
      var n := |done| - 1;
      AllAreRemembered(done[..n]);
      LookupFinds(done[..n], done[n].document);
      WithoutAbsent(done[..n], done[n].document);
      assert done[..n] + [done[n]] == done;
      ShrunkIsTail(done);
      assert done[0..] == done;
    }
  }

  lemma {:induction false} WithoutAbsent(cache: seq<Entry>, d: string)
    requires Lookup(cache, d).None?
    ensures Without(cache, d) == cache
  {
    if cache == [] {
    } else {
      var n := |cache| - 1;
      WithoutAbsent(cache[..n], d);
      assert cache[..n] + [cache[n]] == cache;
    }
  }

  lemma {:induction false} CallKeepsTransparent(start: State, s: State, todo: seq<Access>, force: bool, parsed: nat, max: nat)
    requires Transparent(s) && (forall a :: a in todo ==> WellParsed(a)) && IndexedFrom(start, s, todo, force, parsed, max).1
    ensures Transparent(IndexedFrom(start, s, todo, force, parsed, max).0)
    decreases |todo|
  {
    if todo == [] {
    } else {
      var a := todo[0];
      assert a in todo;
      if Skipped(s, a, force) || parsed >= max {
        CallKeepsTransparent(start, s, todo[1..], force, parsed, max);
      } else {
        PutFits(s, a);
        CallKeepsTransparent(start, Put(s, a, a.blocks.value), todo[1..], force, parsed + 1, max);
      }
    }
  }

  /** What a read would give without any cache. */
  function FromTable(s: State, todo: seq<Access>): seq<Block> {
    if todo == [] then []
    else
      var a := todo[|todo| - 1];
      FromTable(s, todo[..|todo| - 1]) + Loaded(RowsOf(s, a.document), a.version.hash)
  }

  lemma ReadOneIsTransparent(s: State, a: Access)
    requires Transparent(s)
    ensures var (after, blocks) := ReadOne(s, a);
      Transparent(after) && after.rows == s.rows && after.indexed == s.indexed && blocks == Loaded(RowsOf(s, a.document), a.version.hash)
  {
    var rows := RowsOf(s, a.document);
    var loaded := Loaded(rows, a.version.hash);
    LoadedIsView(rows, a.version.hash);
    if Hit(s.cache, a.document, a.version) {
      LookupFinds(s.cache, a.document);
      var e := Lookup(s.cache, a.document).value;
      assert EntryFits(s, e);
      ViewIsUnique(e.blocks, loaded);
      WithoutHolds(s.cache, a.document);
      UseKeepsOrder(s.cache, e, s.uses);
      HitFits(s, e);
    } else if Current(s, a) {
      CollectIsRows(rows, rows.Keys, a.version.hash);
      var e := Entry(a.document, a.version, SortIndexedBlocks(loaded));
      SortAgain(rows, a.version.hash, loaded);
      CachedFits(s.cache, e, s.uses);
      LoadFits(s, e);
    }
  }

  lemma SortAgain(rows: map<nat, Block>, hash: string, list: seq<Block>)
    requires IsView(rows, hash, list)
    ensures IsView(rows, hash, SortIndexedBlocks(list))
  {
    forall i, j | 0 <= i < j < |list|
      ensures list[i].id != list[j].id
    {
      assert list[i] in list && list[j] in list && Before(list[i], list[j]);
    }
    SortIsView(rows, hash, list);
  }

  lemma HitFits(s: State, e: Entry)
    requires Transparent(s) && e in s.cache
    ensures Transparent(s.(cache := Without(s.cache, e.document) + [e], uses := s.uses + [e.document]))
  {
    var after := s.(cache := Without(s.cache, e.document) + [e], uses := s.uses + [e.document]);
    WithoutHolds(s.cache, e.document);
    UseKeepsOrder(s.cache, e, s.uses);
    forall x | x in after.cache
      ensures EntryFits(after, x)
    {
      assert x in s.cache && EntryFits(s, x);
    }
  }

  lemma LoadFits(s: State, e: Entry)
    requires Transparent(s) && EntryFits(s, e)
    ensures Transparent(s.(cache := Cached(s.cache, e), uses := s.uses + [e.document]))
  {
    var after := s.(cache := Cached(s.cache, e), uses := s.uses + [e.document]);
    CachedFits(s.cache, e, s.uses);
    forall x | x in after.cache
      ensures EntryFits(after, x)
    {
      assert EntryFits(s, x);
    }
  }

  lemma {:induction false} ReadIsTransparent(s: State, todo: seq<Access>)
    requires Transparent(s)
    ensures var (after, blocks) := ReadAll(s, todo);
      Transparent(after) && after.rows == s.rows && after.indexed == s.indexed && blocks == FromTable(s, todo)
  {
    if todo == [] {
    } else {
      var n := |todo| - 1;
      ReadIsTransparent(s, todo[..n]);
      ReadOneIsTransparent(ReadAll(s, todo[..n]).0, todo[n]);
    }
  }

  // ---------------------------------------------------------------------------------------------
  // Runs
  // ---------------------------------------------------------------------------------------------

  datatype Event =
    | Index(documents: seq<Access>, force: bool, max: nat)
    | Read(documents: seq<Access>)
    | Trust(document: string)
    | Retain(removal: Removal)

  function Step(s: State, e: Event): State {
    match e
    case Index(documents, force, max) => IndexedFrom(s, s, documents, force, 0, max).0
    case Read(documents) => ReadAll(s, documents).0
    case Trust(document) => Trusted(s, document)
    case Retain(removal) => Retained(s, removal)
  }

  function Run(events: seq<Event>): State {
    if events == [] then State(map[], map[], [], []) else Step(Run(events[..|events| - 1]), events[|events| - 1])
  }

  /** Record ids are distinct within a document, and a call of the run that failed had indexed nothing new. */
  ghost predicate Sane(events: seq<Event>) {
    forall i :: 0 <= i < |events| && events[i].Index? ==> SaneCall(Run(events[..i]), events[i])
  }

  ghost predicate SaneCall(s: State, e: Event)
    requires e.Index?
  {
    if IndexedFrom(s, s, e.documents, e.force, 0, e.max).1 then forall a :: a in e.documents ==> WellParsed(a)
    else NothingNew(s, e.documents, e.force, e.max)
  }

  lemma IndexKeepsTransparent(s: State, e: Event)
    requires Transparent(s) && e.Index? && SaneCall(s, e)
    ensures Transparent(Step(s, e))
  {
    if IndexedFrom(s, s, e.documents, e.force, 0, e.max).1 {
      CallKeepsTransparent(s, s, e.documents, e.force, 0, e.max);
    } else {
      FailureIsHarmlessExactly(s, e.documents, e.force, e.max);
    }
  }

  lemma RetentionKeepsTransparent(s: State, r: Removal)
    requires Transparent(s)
    ensures Transparent(Retained(s, r))
  {
  }

  lemma StepKeepsTransparent(s: State, e: Event)
    requires Transparent(s) && (e.Index? ==> SaneCall(s, e))
    ensures Transparent(Step(s, e))
  {
    match e
    case Index(_, _, _) => IndexKeepsTransparent(s, e);
    case Read(documents) => ReadIsTransparent(s, documents);
    case Trust(document) =>
      WithoutHolds(s.cache, document);
      WithoutKeepsOrder(s.cache, document, s.uses);
    case Retain(removal) => RetentionKeepsTransparent(s, removal);
  }

  lemma SaneSoFar(events: seq<Event>)
    requires events != [] && Sane(events)
    ensures var before, e := events[..|events| - 1], events[|events| - 1];
      Sane(before) && (e.Index? ==> SaneCall(Run(before), e))
  {
    var before := events[..|events| - 1];
    forall i | 0 <= i < |before| && before[i].Index?
      ensures SaneCall(Run(before[..i]), before[i])
    {
      assert before[..i] == events[..i] && before[i] == events[i];
    }
  }

  lemma {:induction false} RunIsTransparent(events: seq<Event>)
    requires Sane(events)
    ensures Transparent(Run(events))
  {
    if events == [] {
    } else {
      var n := |events| - 1;
      SaneSoFar(events);
      RunIsTransparent(events[..n]);
      StepKeepsTransparent(Run(events[..n]), events[n]);
    }
  }

  /** After any run, a read returns exactly what the table holds for each document at its current version, in order; and
      the cache holds at most 512 documents. */
  lemma CacheIsTransparent(events: seq<Event>, documents: seq<Access>)
    requires Sane(events)
    ensures ReadAll(Run(events), documents).1 == FromTable(Run(events), documents) && |Run(events).cache| <= CACHE_SIZE
  {
    RunIsTransparent(events);
    ReadIsTransparent(Run(events), documents);
  }

  /** A document with one block, and the state after a call that indexed it and then failed on the next one. */
  function OneBlock(): Access {
    Access("a", Version("h", None), Some([Block(1, "h", 1, "text")]))
  }

  /** Its attachment's text cannot be loaded. */
  function Unreadable(): Access {
    Access("b", Version("k", Some("scan")), None)
  }

  function AfterFailure(): State {
    State(map[], map[], [Entry("a", Version("h", None), [Block(1, "h", 1, "text")])], ["a"])
  }

  lemma FirstIsPut(start: State, a: Access, blocks: seq<Block>)
    requires start == Run([]) && a == OneBlock() && a.blocks == Some(blocks)
    ensures !Skipped(start, a, false) && Put(start, a, blocks).cache == AfterFailure().cache && Put(start, a, blocks).uses == ["a"]
  {
    assert blocks[..0] == [] && SortIndexedBlocks(blocks) == blocks;
  }

  lemma SecondFails(start: State, s: State, b: Access)
    requires start == Run([]) && b == Unreadable() && s.cache == AfterFailure().cache && s.uses == ["a"] && b.document !in s.indexed
    ensures IndexedFrom(start, s, [b], false, 1, 250) == (AfterFailure(), false)
  {
    assert s.cache[..0] == [] && Lookup(s.cache[..0], b.document) == None;
  }

  lemma FailureKeepsCacheEntry()
    ensures Step(Run([]), Index([OneBlock(), Unreadable()], false, 250)) == AfterFailure()
  {
    var start, a, b := Run([]), OneBlock(), Unreadable();
    var put := Put(start, a, a.blocks.value);
    FirstIsPut(start, a, a.blocks.value);
    SecondFails(start, put, b);
    assert [a, b][1..] == [b];
    assert IndexedFrom(start, start, [a, b], false, 0, 250) == IndexedFrom(start, put, [b], false, 1, 250);
  }

  /** A call that fails after it indexed a document undoes the rows but not the cache: the next read of that document
      returns a block the table does not hold. */
  lemma FailedCallLeavesStaleBlocks()
    ensures var s := Step(Run([]), Index([OneBlock(), Unreadable()], false, 250));
      FromTable(s, [OneBlock()]) == [] && ReadAll(s, [OneBlock()]).1 == OneBlock().blocks.value
  {
    FailureKeepsCacheEntry();
    var s := AfterFailure();
    assert [OneBlock()][..0] == [];
    assert Collect(map[], {}, "h") == [];
    assert Hit(s.cache, "a", OneBlock().version);
  }

  /** A call that fails on the first document it parses leaves everything as it was. */
  lemma EarlyFailureIsClean(s: State, todo: seq<Access>, force: bool, max: nat, k: nat)
    requires k < |todo| && todo[k].blocks.None? && 0 < max && !Skipped(s, todo[k], force)
    requires forall i :: 0 <= i < k ==> Skipped(s, todo[i], force)
    ensures IndexedFrom(s, s, todo, force, 0, max) == (s, false)
    decreases k
  {
    if k > 0 {
      assert Skipped(s, todo[0], force);
      forall i | 0 <= i < k - 1
        ensures Skipped(s, todo[1..][i], force)
      {
        assert todo[1..][i] == todo[i + 1];
      }
      assert todo[1..][k - 1] == todo[k];
      EarlyFailureIsClean(s, todo[1..], force, max, k - 1);
    }
  }

  // ---------------------------------------------------------------------------------------------
  // What a call does for each document
  // ---------------------------------------------------------------------------------------------

  ghost predicate DistinctDocuments(todo: seq<Access>) {
    forall i, j :: 0 <= i < j < |todo| ==> todo[i].document != todo[j].document
  }

  /** The document's rows, mark and whether it is found in the cache at the version. */
  ghost predicate SameFor(s: State, after: State, a: Access) {
    && RowsOf(after, a.document) == RowsOf(s, a.document) && (Current(after, a) <==> Current(s, a))
    && (Hit(after.cache, a.document, a.version) ==> Hit(s.cache, a.document, a.version))
  }

  lemma LookupBehind(rest: seq<Entry>, e: Entry, d: string)
    ensures Lookup(rest + [e], d) == if e.document == d then Some(e) else Lookup(rest, d)
    ensures rest + [] == rest
  {
    assert (rest + [e])[..|rest|] == rest;
  }

  lemma {:induction false} LookupWithout(cache: seq<Entry>, d: string, other: string)
    requires d != other
    ensures Lookup(Without(cache, other), d) == Lookup(cache, d)
  {
    if cache == [] {
    } else {
      var n := |cache| - 1;
      LookupWithout(cache[..n], d, other);
      LookupBehind(Without(cache[..n], other), cache[n], d);
    }
  }

  /** Dropping entries from the front finds the same or nothing. */
  lemma {:induction false} LookupShrunk(cache: seq<Entry>, d: string)
    ensures Lookup(Shrunk(cache), d).Some? ==> Lookup(Shrunk(cache), d) == Lookup(cache, d)
    decreases |cache|
  {
    if |cache| > CACHE_SIZE {
      LookupShrunk(cache[1..], d);
      LookupTail(cache, d);
    }
  }

  lemma {:induction false} LookupTail(cache: seq<Entry>, d: string)
    requires cache != []
    ensures Lookup(cache[1..], d).Some? ==> Lookup(cache[1..], d) == Lookup(cache, d)
  {
    var n := |cache| - 1;
    if n > 0 && cache[n].document != d {
      LookupTail(cache[..n], d);
      assert cache[1..][..n - 1] == cache[..n][1..];
    }
  }

  lemma PutKeepsOthers(s: State, b: Access, blocks: seq<Block>, a: Access)
    requires a.document != b.document
    ensures SameFor(s, Put(s, b, blocks), a)
  {
    var e := Entry(b.document, b.version, SortIndexedBlocks(blocks));
    var rest := Without(s.cache, b.document);
    LookupShrunk(rest + [e], a.document);
    LookupBehind(rest, e, a.document);
    LookupWithout(s.cache, a.document, b.document);
  }

  ghost predicate IndexedAt(s: State, document: string, version: Version) {
    document in s.indexed && s.indexed[document] == version
  }

  ghost predicate CachedAt(s: State, document: string, version: Version) {
    exists e :: e in s.cache && e.document == document && e.version == version
  }

  /** The document is indexed at its version, from the blocks it was given. */
  ghost predicate FreshlyIndexed(s: State, a: Access) {
    a.blocks.Some? && IndexedAt(s, a.document, a.version) && RowsOf(s, a.document) == Upserted(a.blocks.value)
  }

  lemma HitIsCached(s: State, a: Access)
    ensures Hit(s.cache, a.document, a.version) ==> CachedAt(s, a.document, a.version)
  {
    LookupFinds(s.cache, a.document);
  }

  /** A call that goes through and may parse all leaves each document it lists, once each, indexed at its version from the blocks it was
      given, unless it was already indexed at it or cached at it and nothing forced the call; one that was already indexed at it, unforced,
      keeps its rows. */
  lemma {:induction false} EveryDocumentIsIndexed(start: State, s: State, todo: seq<Access>, force: bool, parsed: nat, max: nat, k: nat)
    requires DistinctDocuments(todo) && parsed + |todo| <= max && k < |todo| && IndexedFrom(start, s, todo, force, parsed, max).1
    ensures var after, a := IndexedFrom(start, s, todo, force, parsed, max).0, todo[k];
      && (force || (!IndexedAt(s, a.document, a.version) && !CachedAt(s, a.document, a.version)) ==> FreshlyIndexed(after, a))
      && (!force && IndexedAt(s, a.document, a.version) ==>
            IndexedAt(after, a.document, a.version) && RowsOf(after, a.document) == RowsOf(s, a.document))
    decreases |todo|
  {
    var first, rest := todo[0], todo[1..];
    assert forall i :: 0 <= i < |rest| ==> rest[i] == todo[i + 1];
    HitIsCached(s, todo[k]);
    if k == 0 {
      if !Skipped(s, first, force) {
        OthersLeaveAlone(start, Put(s, first, first.blocks.value), rest, force, parsed + 1, max, first);
      } else {
        OthersLeaveAlone(start, s, rest, force, parsed, max, first);
      }
    } else if Skipped(s, first, force) {
      EveryDocumentIsIndexed(start, s, rest, force, parsed, max, k - 1);
    } else {
      var next := Put(s, first, first.blocks.value);
      PutKeepsOthers(s, first, first.blocks.value, todo[k]);
      PutCachesNoOther(s, first, first.blocks.value, todo[k]);
      EveryDocumentIsIndexed(start, next, rest, force, parsed + 1, max, k - 1);
    }
  }

  lemma PutCachesNoOther(s: State, b: Access, blocks: seq<Block>, a: Access)
    requires a.document != b.document
    ensures CachedAt(Put(s, b, blocks), a.document, a.version) ==> CachedAt(s, a.document, a.version)
  {
    var e := Entry(b.document, b.version, SortIndexedBlocks(blocks));
    ShrunkHolds(Without(s.cache, b.document) + [e]);
    WithoutHolds(s.cache, b.document);
  }

  lemma {:induction false} ShrunkHolds(cache: seq<Entry>)
    ensures forall e :: e in Shrunk(cache) ==> e in cache
    decreases |cache|
  {
    if |cache| > CACHE_SIZE {
      ShrunkHolds(cache[1..]);
    }
  }

  /** A call for one document does nothing exactly when nothing forces it and the document is cached or indexed at its version, or when it
      may not parse; otherwise it indexes the document, or fails without changing anything when its blocks cannot be had. */
  lemma OneDocument(s: State, a: Access, force: bool, max: nat)
    requires OnceEach(s.cache)
    ensures var (after, through) := IndexedFrom(s, s, [a], force, 0, max);
      if (!force && (CachedAt(s, a.document, a.version) || IndexedAt(s, a.document, a.version))) || max == 0 then after == s && through
      else if a.blocks.None? then after == s && !through
      else through && FreshlyIndexed(after, a)
  {
    LookupSole(s.cache, a.document);
    LookupFinds(s.cache, a.document);
    assert [a][1..] == [];
  }

  /** No document has two entries. */
  ghost predicate OnceEach(cache: seq<Entry>) {
    forall i, j :: 0 <= i < j < |cache| ==> cache[i].document != cache[j].document
  }

  lemma {:induction false} LookupSole(cache: seq<Entry>, d: string)
    requires OnceEach(cache)
    ensures forall e :: e in cache && e.document == d ==> Lookup(cache, d) == Some(e)
  {
    if cache == [] {
    } else {
      var n := |cache| - 1;
      LookupSole(cache[..n], d);
      assert cache == cache[..n] + [cache[n]];
      assert forall e :: e in cache[..n] ==> e.document != cache[n].document;
    }
  }

  /** A read of a document that is cached at its version makes its entry the last used; one that is indexed at it is cached with what the
      table holds; any other leaves the cache alone. The table is never touched. */
  lemma ReadRemembers(s: State, a: Access)
    requires OnceEach(s.cache)
    ensures var (after, blocks) := ReadOne(s, a);
      && after.rows == s.rows && after.indexed == s.indexed
      && if CachedAt(s, a.document, a.version) then
           && after.cache != [] && after.cache[|after.cache| - 1] in s.cache
           && after.cache[|after.cache| - 1].document == a.document && after.cache[|after.cache| - 1].blocks == blocks
         else if IndexedAt(s, a.document, a.version) then
           && after.cache != [] && after.cache[|after.cache| - 1] == Entry(a.document, a.version, SortIndexedBlocks(blocks))
           && blocks == Loaded(RowsOf(s, a.document), a.version.hash)
         else after.cache == s.cache && blocks == Loaded(RowsOf(s, a.document), a.version.hash)
  {
    LookupSole(s.cache, a.document);
    LookupFinds(s.cache, a.document);
    LastStays(Without(s.cache, a.document), Entry(a.document, a.version, SortIndexedBlocks(Loaded(RowsOf(s, a.document), a.version.hash))));
  }

  lemma {:induction false} LastStays(rest: seq<Entry>, e: Entry)
    ensures var kept := Shrunk(rest + [e]); kept != [] && kept[|kept| - 1] == e
    decreases |rest|
  {
    if |rest| + 1 > CACHE_SIZE {
      assert (rest + [e])[1..] == rest[1..] + [e];
      LastStays(rest[1..], e);
    }
  }

  lemma {:induction false} OthersLeaveAlone(start: State, s: State, todo: seq<Access>, force: bool, parsed: nat, max: nat, a: Access)
    requires (forall b :: b in todo ==> b.document != a.document) && IndexedFrom(start, s, todo, force, parsed, max).1
    ensures var after := IndexedFrom(start, s, todo, force, parsed, max).0;
      RowsOf(after, a.document) == RowsOf(s, a.document) && (Current(after, a) <==> Current(s, a))
    decreases |todo|
  {
    if todo == [] {
    } else {
      var b, rest := todo[0], todo[1..];
      assert b in todo && forall c :: c in rest ==> c in todo;
      if Skipped(s, b, force) || parsed >= max {
        OthersLeaveAlone(start, s, rest, force, parsed, max, a);
      } else {
        PutKeepsOthers(s, b, b.blocks.value, a);
        OthersLeaveAlone(start, Put(s, b, b.blocks.value), rest, force, parsed + 1, max, a);
      }
    }
  }

  /** No call parses more documents than it may. */
  lemma {:induction false} ParsesAtMost(start: State, s: State, todo: seq<Access>, force: bool, parsed: nat, max: nat)
    requires parsed <= max
    ensures |IndexedFrom(start, s, todo, force, parsed, max).0.uses| <= |s.uses| + (max - parsed)
    decreases |todo|
  {
    if todo == [] {
    } else if Skipped(s, todo[0], force) || parsed >= max {
      ParsesAtMost(start, s, todo[1..], force, parsed, max);
    } else if todo[0].blocks.Some? {
      ParsesAtMost(start, Put(s, todo[0], todo[0].blocks.value), todo[1..], force, parsed + 1, max);
    }
  }

  /** Retention takes exactly the rows and marks it removes, and forgets the whole cache if it removes anything; setting trust takes the
      document's mark and entry and nothing else. */
  lemma RemovalsTakeExactly(s: State, r: Removal, d: string, id: nat, a: Access)
    ensures var after := Retained(s, r);
      && (id in RowsOf(after, d) <==> id in RowsOf(s, d) && (d, id) !in r.blocks)
      && (id in RowsOf(after, d) ==> RowsOf(after, d)[id] == RowsOf(s, d)[id])
      && (Current(after, a) <==> Current(s, a) && a.document !in r.marks)
      && after.cache == if r == Removal({}, {}, 0) then s.cache else []
    ensures var after := Trusted(s, d);
      && after.rows == s.rows && (Current(after, a) <==> Current(s, a) && a.document != d)
      && (Hit(after.cache, a.document, a.version) <==> Hit(s.cache, a.document, a.version) && a.document != d)
  {
    if a.document != d {
      LookupWithout(s.cache, a.document, d);
    } else {
      NotInWithout(s.cache, d);
    }
  }

  lemma {:induction false} NotInWithout(cache: seq<Entry>, d: string)
    ensures Lookup(Without(cache, d), d).None?
  {
    if cache == [] {
    } else {
      var n := |cache| - 1;
      NotInWithout(cache[..n], d);
      LookupBehind(Without(cache[..n], d), cache[n], d);
    }
  }
}
