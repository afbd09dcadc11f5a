/** A library and a run that meet what the theorems about settled directories ask for. */
module SyncWitness {
  import opened Wrappers
  import opened Text
  import opened Frontmatter
  import opened Revisions
  import opened Sync
  import opened SyncSafety
  import opened SyncFixpoint

  // ---------------------------------------------------------------------------------------------
  // Hashes that differ and are clean
  // ---------------------------------------------------------------------------------------------

  function Unary(n: nat): string {
    if n == 0 then "b" else "a" + Unary(n - 1)
  }

  /** Every character in unary. */
  function Spelled(x: string): string {
    if x == "" then "h" else Unary(x[0] as nat) + Spelled(x[1..])
  }

  lemma {:induction false} UnarySplits(m: nat, n: nat, s: string, t: string)
    requires Unary(m) + s == Unary(n) + t
    ensures m == n && s == t
  {
    assert (Unary(m) + s)[0] == (Unary(n) + t)[0];
    if m > 0 && n > 0 {
      assert (Unary(m) + s)[1..] == Unary(m - 1) + s && (Unary(n) + t)[1..] == Unary(n - 1) + t;
      UnarySplits(m - 1, n - 1, s, t);
    } else {
      assert (Unary(m) + s)[1..] == s && (Unary(n) + t)[1..] == t;
    }
  }

  lemma {:induction false} SpelledIsInjective(x: string, y: string)
    requires Spelled(x) == Spelled(y)
    ensures x == y
  {
    if x != "" && y != "" {
      UnarySplits(x[0] as nat, y[0] as nat, Spelled(x[1..]), Spelled(y[1..]));
      SpelledIsInjective(x[1..], y[1..]);
      assert x == [x[0]] + x[1..] && y == [y[0]] + y[1..];
    } else {
      assert Spelled(x)[0] == Spelled(y)[0];
    }
  }

  /** Letters only. */
  ghost predicate Lettered(s: string) {
    s != "" && forall c :: c in s ==> c == 'a' || c == 'b' || c == 'h'
  }

  lemma LetteredIsClean(s: string)
    requires Lettered(s)
    ensures CleanText(s)
  {
    assert s[0] in s && s[|s| - 1] in s;
  }

  lemma {:induction false} UnaryIsLettered(n: nat)
    ensures Lettered(Unary(n))
  {
    if n > 0 {
      UnaryIsLettered(n - 1);
    }
  }

  lemma {:induction false} SpelledIsLettered(x: string)
    ensures Lettered(Spelled(x))
  {
    if x == "" {
    } else {
      UnaryIsLettered(x[0] as nat);
      SpelledIsLettered(x[1..]);
    }
  }

  /** The first id drawn is `p`; sources are kept as sent. */
  function Spelling(): Library {
    Library((x: string) => Spelled(x), (k: nat) => if k == 0 then "p" else Unary(k), (k: nat, x: string) => x,
            (x: string, y: string) => y, (x: string) => [])
  }

  lemma SpellingIsClean()
    ensures CleanHashes(Spelling()) && Injective(Spelling().sha)
    ensures forall k: nat :: CleanText(Spelling().newId(k)) && (k > 0 ==> Spelling().newId(k) != "p")
  {
    var lib := Spelling();
    forall x: string
      ensures CleanText(lib.sha(x))
    {
      SpelledIsLettered(x);
      LetteredIsClean(Spelled(x));
    }
    forall x, y | lib.sha(x) == lib.sha(y)
      ensures x == y
    {
      SpelledIsInjective(x, y);
    }
    forall k: nat
      ensures CleanText(lib.newId(k)) && (k > 0 ==> lib.newId(k) != "p")
    {
      UnaryIsLettered(k);
      LetteredIsClean(Unary(k));
      assert Unary(k)[0] in Unary(k);
    }
  }

  // ---------------------------------------------------------------------------------------------
  // A directory that an earlier run filled
  // ---------------------------------------------------------------------------------------------

  const BODY := "Ship"

  /** One page, made from its file by an earlier run, and nothing changed since. */
  function Earlier(): Setting {
    Setting(Spelling(), (k: nat) => [], (k: nat) => Answered, Options(true, true, false), [ONE_PATH], [ONE_SLOT])
  }

  function EarlierWorld(hash: string): World {
    World(map[ONE_PATH := WithSyncFrontmatter(BODY, ONE_PAGE_KEYS(hash))], map[],
          Server(Store(map["p" := Head("Ship", BODY, hash)], map[]), 1, []), 0)
  }

  lemma BodyIsPlain()
    ensures Plain(BODY)
  {
    assert BODY[0] == 'S';
  }

  lemma EarlierIsOnePage(s: Setting, w: World, hash: string)
    requires s == Earlier() && w == EarlierWorld(hash)
    ensures OnePage(s, w, BODY, hash) && s.options == Options(true, true, false)
    ensures s.lib == Spelling() && w.server.writes == 1 && w.server.store.heads["p"] == Head("Ship", BODY, hash)
  {
  }

  lemma NoParentStamped(lib: Library, body: string, hash: string)
    requires Plain(body) && CleanText(hash)
    ensures OptionalClean(ReadFile(lib, ONE_PATH, WithSyncFrontmatter(body, ONE_PAGE_KEYS(hash))).meta.cloudParent)
  {
    StampReads(lib, ONE_PATH, body, ONE_PAGE_KEYS(hash));
  }

  lemma OneFileIsKnown(s: Setting, w: World, hash: string)
    requires OnePage(s, w, BODY, hash) && CleanText(hash)
    ensures Lists(s.order, w.disk) && ContextOf(s, w).local == [OneFile(s, w)]
    ensures var f := OneFile(s, w); f.meta.cloudId == Some("p") && f.body == BODY && Base(f) == hash && OptionalClean(f.meta.cloudParent)
  {
    BodyIsPlain();
    OnePageScan(s, w, BODY, hash);
    OneFileReads(s, w, BODY, hash);
    NoParentStamped(s.lib, BODY, hash);
  }

  lemma PageIdIsClean()
    ensures CleanText("p")
  {
  }

  /** A page of id `p` whose file is in the directory, the id drawn at the first write and the server at its second. */
  lemma OnePageIsTidy(s: Setting, w: World, hash: string, f: LocalFile)
    requires OnePage(s, w, BODY, hash) && s.lib == Spelling() && hash == s.lib.sha(BODY) && s.options == Options(true, true, false)
    requires w.server.writes == 1 && w.server.store.heads["p"] == Head("Ship", BODY, hash)
    requires Lists(s.order, w.disk) && ContextOf(s, w).local == [f] && f.meta.cloudId == Some("p") && f.body == BODY
    requires OptionalClean(f.meta.cloudParent)
    ensures Tidy(s, w)
  {
    SpellingIsClean();
    BodyIsPlain();
    PageIdIsClean();
    assert ContextOf(s, w).lib == s.lib;
    assert CleanIds(ContextOf(s, w), 1);
  }

  /** A run over a directory that holds a file of an earlier created page meets the premises, and its page is unchanged. */
  lemma FirstRunWitness(s: Setting, w: World, hash: string)
    requires s == Earlier() && w == EarlierWorld(hash) && hash == s.lib.sha(BODY)
    ensures FirstRun(s, w) && Run(s, w).actions == [Action(Unchanged, ONE_PATH)]
    ensures w.server.writes == 1 && OneFile(s, w).meta.cloudId == Some(s.lib.newId(0))
  {
    SpellingIsClean();
    EarlierIsOnePage(s, w, hash);
    OneFileIsKnown(s, w, hash);
    OnePageIsTidy(s, w, hash, OneFile(s, w));
    OnePageScan(s, w, BODY, hash);
    var c, st, page, file := ContextOf(s, w), Start(s, w), ContextOf(s, w).pages[0], OneFile(s, w);
    var next := SyncPage(c, st, page);
    assert ClaimOf(c.local, page.id) == Some(file);
    assert next == Did(st, st.w, Unchanged, ONE_PATH);
    assert PagesFrom(c, next, 1) == next;
    MatchedFileIsSkipped(c, Leftovers(next, map[]), page, file);
    RunParts(s, w, next, Leftovers(next, map[]));
  }
}
