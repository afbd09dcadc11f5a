/** What a search result and a citation are, block by block. */
module Results {
  import opened Wrappers
  import opened Ranking

  // ---------------------------------------------------------------------------------------------
  // The score
  // ---------------------------------------------------------------------------------------------

  /** The query words found are counted, repeated ones each time. */
  lemma {:induction false} MatchesCount(query: seq<string>, words: set<string>)
    ensures Matches(query, words) == |set i | 0 <= i < |query| && query[i] in words|
  {
    var found := set i | 0 <= i < |query| && query[i] in words;
    if query == [] {
      assert found == {};
    } else {
      var n := |query| - 1;
      var before := set i | 0 <= i < n && query[..n][i] in words;
      MatchesCount(query[..n], words);
      assert found == before + (if query[n] in words then {n} else {});
    }
  }

  /** The parts of a score. */
  datatype Parts = Parts(lexical: real, semantic: real, typed: real, graph: real, verification: real, freshness: real)

  function Score(p: Parts): real {
    RawScore(p.lexical, p.semantic, p.typed, p.graph, p.verification, p.freshness)
  }

  /** What a block is worth that is perfect in one part and nothing in the others; together they make a full score. */
  lemma WorthOfEachPart()
    ensures Score(Parts(1.0, 0.0, 0.0, 0.0, 0.0, 0.0)) == 0.38 && Score(Parts(0.0, 1.0, 0.0, 0.0, 0.0, 0.0)) == 0.28
    ensures Score(Parts(0.0, 0.0, 1.0, 0.0, 0.0, 0.0)) == 0.1 && Score(Parts(0.0, 0.0, 0.0, 0.0, 0.0, 1.0)) == 0.09
    ensures Score(Parts(0.0, 0.0, 0.0, 0.0, 1.0, 0.0)) == 0.08 && Score(Parts(0.0, 0.0, 0.0, 1.0, 0.0, 0.0)) == 0.07
    ensures Score(Parts(0.0, 0.0, 0.0, 0.0, 0.0, 0.0)) == 0.0 && Score(Parts(1.0, 1.0, 1.0, 1.0, 1.0, 1.0)) == 1.0
  {
  }

  /** The parts add up, each in proportion: with their worths this fixes every score. */
  lemma ScoreIsLinear(p: Parts, q: Parts)
    ensures Score(Parts(p.lexical + q.lexical, p.semantic + q.semantic, p.typed + q.typed, p.graph + q.graph,
                        p.verification + q.verification, p.freshness + q.freshness)) == Score(p) + Score(q)
  {
  }

  /** `b` is at least as good as `a` in every respect. */
  ghost predicate NoWorse(query: seq<string>, a: Block, b: Block) {
    && (forall w :: w in query && w in a.words ==> w in b.words) && (forall w :: w in query && w in a.typeWords ==> w in b.typeWords)
    && a.canonicalFor <= b.canonicalFor && a.sourceOf <= b.sourceOf && a.supersedes <= b.supersedes
    && (a.verified ==> b.verified) && a.freshness <= b.freshness
  }

  lemma {:induction false} MoreWordsMatch(query: seq<string>, words: set<string>, more: set<string>)
    requires forall w :: w in query && w in words ==> w in more
    ensures Matches(query, words) <= Matches(query, more)
  {
    if query == [] {
    } else {
      var n := |query| - 1;
      assert query[n] in query;
      MoreWordsMatch(query[..n], words, more);
    }
  }

  lemma Quotients(a: nat, b: nat, n: nat)
    requires a <= b && 0 < n
    ensures a as real / n as real <= b as real / n as real
  {
  }

  lemma MoreWordsShare(query: seq<string>, words: set<string>, more: set<string>)
    requires forall w :: w in query && w in words ==> w in more
    ensures Share(query, words) <= Share(query, more)
  {
    MoreWordsMatch(query, words, more);
    if query != [] {
      Quotients(Matches(query, words), Matches(query, more), |query|);
    }
  }

  /** A block that is no worse in any respect never scores lower: one more word found, one more link, a verification or a fresher
      source can only help. */
  lemma BetterBlocksScoreNoLower(query: seq<string>, a: Block, b: Block, semanticA: real, semanticB: real)
    requires NoWorse(query, a, b) && semanticA <= semanticB
    ensures Scored(query, a, semanticA).score <= Scored(query, b, semanticB).score
    ensures Scored(query, a, semanticA).lexical <= Scored(query, b, semanticB).lexical
    ensures Scored(query, a, semanticA).semantic <= Scored(query, b, semanticB).semantic
  {
    MoreWordsShare(query, WordsOf(a.words), WordsOf(b.words));
    MoreWordsShare(query, a.typeWords, b.typeWords);
    var rawA := RawOf(query, a, semanticA);
    var rawB := RawOf(query, b, semanticB);
    assert GraphScore(a) <= GraphScore(b);
    RoundIsMonotone(rawA, rawB);
    RoundIsMonotone(Share(query, WordsOf(a.words)), Share(query, WordsOf(b.words)));
    RoundIsMonotone(semanticA, semanticB);
  }

  function RawOf(query: seq<string>, b: Block, semantic: real): (raw: real)
    ensures Scored(query, b, semantic).score == Round4(raw)
  {
    RawScore(Share(query, WordsOf(b.words)), semantic, TypedScore(query, b), GraphScore(b), if b.verified then 1.0 else 0.0, b.freshness)
  }

  /** A block that has every query word in its text and among its types, the same meaning, enough links, a verification and full
      freshness scores one. */
  lemma PerfectBlockScoresOne(query: seq<string>, b: Block)
    requires query != [] && (forall w :: w in query ==> w in b.words && w in b.typeWords) && b.verified && b.freshness == 1.0
    requires 15 * b.canonicalFor + 10 * b.sourceOf + 10 * b.supersedes >= 100
    ensures Scored(query, b, 1.0).score == 1.0 && Scored(query, b, 1.0).lexical == 1.0
  {
    AllMatch(query, WordsOf(b.words));
    WholeShare(query, WordsOf(b.words));
    AllMatch(query, b.typeWords);
    WholeShare(query, b.typeWords);
    LinksCount(b);
  }

  lemma {:induction false} AllMatch(query: seq<string>, words: set<string>)
    requires forall w :: w in query ==> w in words
    ensures Matches(query, words) == |query|
  {
    if query == [] {
    } else {
      var n := |query| - 1;
      assert query[n] in query;
      AllMatch(query[..n], words);
    }
  }

  lemma WholeShare(query: seq<string>, words: set<string>)
    requires query != [] && Matches(query, words) == |query|
    ensures Share(query, words) == 1.0
  {
    var n := |query| as real;
    assert n / n == 1.0;
  }

  /** A page counts fifteen hundredths for each page it is canonical for, ten for each it is a source of and for each it supersedes,
      a hundred at most. */
  lemma LinksCount(b: Block)
    ensures var hundredths := 15 * b.canonicalFor + 10 * b.sourceOf + 10 * b.supersedes;
      GraphScore(b) == (if hundredths < 100 then hundredths else 100) as real / 100.0
  {
  }

  /** Only a review that is overdue makes a source worthless, and only one that lies thirty days ahead or more makes it perfectly fresh. */
  lemma FreshnessTells(review: Option<int>, updatedAt: int, now: int)
    ensures FreshnessFor(review, updatedAt, now) == 0.0 <==> review.Some? && review.value < now
    ensures FreshnessFor(review, updatedAt, now) == 1.0 <==> review.Some? && review.value >= now + 30 * DAY
    ensures review.None? ==> 0.2 <= FreshnessFor(review, updatedAt, now) <= 0.9
    ensures review.None? ==> (FreshnessFor(review, updatedAt, now) == 0.9 <==> now <= updatedAt + 180 * DAY)
    ensures review.None? ==> (FreshnessFor(review, updatedAt, now) == 0.2 <==> now > updatedAt + 365 * DAY)
  {
  }

  /** Nothing gets fresher as time goes by. */
  lemma FreshnessFades(review: Option<int>, updatedAt: int, now: int, later: int)
    requires now <= later
    ensures FreshnessFor(review, updatedAt, later) <= FreshnessFor(review, updatedAt, now)
  {
  }

  // ---------------------------------------------------------------------------------------------
  // The result list
  // ---------------------------------------------------------------------------------------------

  /** The record of a block of a wanted type that answers the query: without query words any score above 0.04 will do; with them the
      block has one of the words or is close in meaning, and scores above 0.08. */
  ghost predicate Answers(query: seq<string>, types: set<string>, b: Block, semantic: real, r: Record) {
    && (types == {} || b.contentType in types)
    && r == Scored(query, b, semantic) && r.document == b.document && r.block == b.block && r.line == b.line && r.source == b.source
    && if query == [] then r.score > 0.04 else r.score > 0.08 && (r.lexical > 0.0 || r.semantic >= 0.75)
  }

  lemma LastBlock(query: seq<string>, types: set<string>, blocks: seq<Block>, semantic: Block -> real, r: Record)
    requires blocks != []
    ensures var n := |blocks| - 1;
      r in Candidates(query, types, blocks, semantic) <==>
        r in Candidates(query, types, blocks[..n], semantic) || Answers(query, types, blocks[n], semantic(blocks[n]), r)
  {
  }

  lemma {:induction false} CandidatesAnswer(query: seq<string>, types: set<string>, blocks: seq<Block>, semantic: Block -> real, r: Record)
    ensures r in Candidates(query, types, blocks, semantic) <==> exists b :: b in blocks && Answers(query, types, b, semantic(b), r)
  {
    if blocks == [] {
    } else {
      var n := |blocks| - 1;
      CandidatesAnswer(query, types, blocks[..n], semantic, r);
      LastBlock(query, types, blocks, semantic, r);
      assert forall b :: b in blocks <==> b in blocks[..n] || b == blocks[n];
    }
  }

  /** Better score, then the lower document, then the lower line; equal in all three otherwise. */
  predicate InOrder(a: Record, b: Record) {
    || a.score > b.score
    || (a.score == b.score && (a.document < b.document || (a.document == b.document && a.line <= b.line)))
  }

  ghost predicate AllInOrder(s: seq<Record>) {
    forall i, j :: 0 <= i < j < |s| ==> InOrder(s[i], s[j])
  }

  lemma {:induction false} InsertKeepsOrder(r: Record, s: seq<Record>)
    requires AllInOrder(s)
    ensures AllInOrder(Insert(r, s))
  {
    if s == [] || Before(r, s[0]) {
    } else {
      InsertKeepsOrder(r, s[1..]);
      InsertAdds(r, s[1..]);
      assert forall x :: x in s[1..] ==> InOrder(s[0], x);
      assert forall x :: x in Insert(r, s[1..]) ==> InOrder(s[0], x);
    }
  }

  lemma {:induction false} SortedIsInOrder(s: seq<Record>)
    ensures AllInOrder(Sorted(s))
  {
    if s == [] {
    } else {
      SortedIsInOrder(s[..|s| - 1]);
      InsertKeepsOrder(s[|s| - 1], Sorted(s[..|s| - 1]));
    }
  }

  /** Every search: the results are records of blocks that answer, in order of score, document and line, and a block that answers is
      missing only when the list is full of records that go before it. */
  lemma ResultsAnswerInOrder(query: seq<string>, types: set<string>, blocks: seq<Block>, semantic: Block -> real, limit: nat)
    ensures var ranked := Rank(query, types, blocks, semantic, limit);
      && AllInOrder(ranked) && |ranked| <= limit
      && (forall r :: r in ranked ==> exists b :: b in blocks && Answers(query, types, b, semantic(b), r))
      && (forall b :: b in blocks && Answers(query, types, b, semantic(b), Scored(query, b, semantic(b))) ==>
            Scored(query, b, semantic(b)) in ranked
            || (|ranked| == limit && forall x :: x in ranked ==> InOrder(x, Scored(query, b, semantic(b)))))
  {
    var all := Candidates(query, types, blocks, semantic);
    var sorted := Sorted(all);
    SortRanks(all);
    SortedIsInOrder(all);
    SameMembers(sorted, all);
    assert forall r :: r in Top(sorted, limit) ==> r in sorted;
    forall r
      ensures r in sorted <==> exists b :: b in blocks && Answers(query, types, b, semantic(b), r)
    {
      CandidatesAnswer(query, types, blocks, semantic, r);
    }
    forall b | b in blocks && Answers(query, types, b, semantic(b), Scored(query, b, semantic(b)))
      ensures Scored(query, b, semantic(b)) in sorted
    {
      CandidatesAnswer(query, types, blocks, semantic, Scored(query, b, semantic(b)));
    }
  }

  // ---------------------------------------------------------------------------------------------
  // Citations
  // ---------------------------------------------------------------------------------------------

  ghost predicate DistinctBlocks(s: seq<Record>) {
    forall i, j :: 0 <= i < j < |s| ==> s[i].document != s[j].document || s[i].block != s[j].block
  }

  ghost predicate DistinctTexts(s: seq<Record>, summary: string -> string) {
    forall i, j :: 0 <= i < j < |s| ==> summary(s[i].source) != summary(s[j].source)
  }

  lemma {:induction false} BlocksAreDistinct(s: seq<Record>)
    ensures DistinctBlocks(FirstOfBlocks(s)) && forall r :: r in FirstOfBlocks(s) ==> r in s
  {
    if s == [] {
    } else {
      var n := |s| - 1;
      BlocksAreDistinct(s[..n]);
      assert s == s[..n] + [s[n]];
    }
  }

  lemma {:induction false} SomeAreDistinct(s: seq<Record>, floor: real)
    requires DistinctBlocks(s)
    ensures DistinctBlocks(CitableOnes(s, floor)) && forall r :: r in CitableOnes(s, floor) ==> r in s
  {
    if s == [] {
    } else {
      var n := |s| - 1;
      SomeAreDistinct(s[..n], floor);
      assert s == s[..n] + [s[n]];
      assert forall r :: r in s[..n] ==> r.document != s[n].document || r.block != s[n].block;
    }
  }

  lemma {:induction false} TextsAreTheirs(s: seq<Record>, summary: string -> string)
    ensures forall r :: r in FirstOfTexts(s, summary) ==> r in s && summary(r.source) != ""
  {
    if s == [] {
    } else {
      var n := |s| - 1;
      TextsAreTheirs(s[..n], summary);
      assert s == s[..n] + [s[n]];
    }
  }

  /** One more record, of a block and with a text that `kept` does not have. */
  lemma OneMoreDistinct(kept: seq<Record>, r: Record, summary: string -> string)
    requires DistinctTexts(kept, summary) && DistinctBlocks(kept)
    requires forall x :: x in kept ==> summary(x.source) != summary(r.source) && (x.document != r.document || x.block != r.block)
    ensures DistinctTexts(kept + [r], summary) && DistinctBlocks(kept + [r])
  {
  }

  lemma {:induction false} TextsAreDistinct(s: seq<Record>, summary: string -> string)
    requires DistinctBlocks(s)
    ensures DistinctTexts(FirstOfTexts(s, summary), summary) && DistinctBlocks(FirstOfTexts(s, summary))
  {
    if s == [] {
    } else {
      var n := |s| - 1;
      TextsAreDistinct(s[..n], summary);
      TextsAreTheirs(s[..n], summary);
      if summary(s[n].source) != "" && !SeenText(s[..n], s[n], summary) {
        OneMoreDistinct(FirstOfTexts(s[..n], summary), s[n], summary);
      }
    }
  }

  lemma {:induction false} EveryTextIsKept(s: seq<Record>, r: Record, summary: string -> string)
    requires r in s && summary(r.source) != ""
    ensures SeenText(FirstOfTexts(s, summary), r, summary)
  {
    var n := |s| - 1;
    assert s == s[..n] + [s[n]];
    if r in s[..n] {
      EveryTextIsKept(s[..n], r, summary);
      var x :| x in FirstOfTexts(s[..n], summary) && summary(x.source) == summary(r.source);
      assert x in FirstOfTexts(s, summary);
    } else if SeenText(s[..n], s[n], summary) {
      var x :| x in s[..n] && summary(x.source) == summary(s[n].source);
      EveryTextIsKept(s[..n], x, summary);
      var y :| y in FirstOfTexts(s[..n], summary) && summary(y.source) == summary(x.source);
      assert y in FirstOfTexts(s, summary);
    } else {
      assert s[n] in FirstOfTexts(s, summary);
    }
  }

  /** Good enough to cite beside the best result: it has a query word or is close in meaning, scores at least 0.16, and at least 0.45
      of the best score. */
  ghost predicate Close(r: Record, best: Record) {
    (r.lexical > 0.0 || r.semantic >= 0.75) && r.score >= 0.16 && r.score >= best.score * 0.45
  }

  lemma CloseIsCitable(r: Record, best: Record)
    ensures Citable(r, Floor(best)) <==> Close(r, best)
  {
  }

  /** Before the list is cut to five: what is citable of the first records of the blocks, one of each excerpt. */
  lemma CitableTexts(unique: seq<Record>, best: Record, summary: string -> string)
    requires Descending(unique) && DistinctBlocks(unique)
    ensures var kept := FirstOfTexts(CitableOnes(unique, Floor(best)), summary);
      && DistinctBlocks(kept) && DistinctTexts(kept, summary)
      && (forall c :: c in kept ==> c in unique && Close(c, best) && summary(c.source) != "")
      && forall r :: r in unique && Close(r, best) && summary(r.source) != "" ==> SeenText(kept, r, summary)
  {
    var citable := CitableOnes(unique, Floor(best));
    CitableOnesKeep(unique, Floor(best));
    SomeAreDistinct(unique, Floor(best));
    TextsAreDistinct(citable, summary);
    TextsAreTheirs(citable, summary);
    forall r | r in unique
      ensures Citable(r, Floor(best)) <==> Close(r, best)
    {
      CloseIsCitable(r, best);
    }
    forall r | r in citable && summary(r.source) != ""
      ensures SeenText(FirstOfTexts(citable, summary), r, summary)
    {
      EveryTextIsKept(citable, r, summary);
    }
  }

  lemma TopOfDistinct(kept: seq<Record>, summary: string -> string)
    requires DistinctBlocks(kept) && DistinctTexts(kept, summary)
    ensures var cs := Top(kept, 5);
      |cs| <= 5 && DistinctBlocks(cs) && DistinctTexts(cs, summary) && (forall c :: c in cs ==> c in kept) && (cs == kept || |cs| == 5)
  {
  }

  /** Every answer: no block and no excerpt is cited twice, none is empty, all are close to the best result, and a close result that is
      the first of its block is cited by its excerpt unless five others are. */
  lemma CitationsAreDistinctAndComplete(results: seq<Record>, summary: string -> string)
    requires Descending(results)
    ensures var cs := Citations(results, summary);
      && |cs| <= 5 && DistinctBlocks(cs) && DistinctTexts(cs, summary)
      && (forall c :: c in cs ==> c in results && Close(c, results[0]) && summary(c.source) != "")
      && (forall r :: r in FirstOfBlocks(results) && Close(r, results[0]) && summary(r.source) != "" ==>
            SeenText(cs, r, summary) || |cs| == 5)
  {
    var unique := FirstOfBlocks(results);
    FirstOfBlocksKeeps(results);
    BlocksAreDistinct(results);
    if unique != [] {
      CitableTexts(unique, unique[0], summary);
      TopOfDistinct(FirstOfTexts(CitableOnes(unique, Floor(unique[0])), summary), summary);
    }
  }
}
