/** How retrieval results are scored, ranked, cited and trusted. Numbers are real; times are in milliseconds. */
module Ranking {
  import opened Wrappers
  import Scores

  const DAY := 86_400_000

  /** What scoring needs of an indexed block; the freshness score was computed when the block was indexed. */
  datatype Block = Block(document: nat, block: string, line: int, source: string, contentType: string, words: seq<string>,
                         typeWords: set<string>, canonicalFor: nat, sourceOf: nat, supersedes: nat, verified: bool, freshness: real)

  datatype Record = Record(document: nat, block: string, line: int, source: string, score: real, lexical: real, semantic: real)

  function HalfUp(x: real): int {
    (x * 10000.0 + 0.5).Floor
  }

  function TenThousandths(k: int): real {
    k as real / 10000.0
  }

  /** Rounded half up to four digits. */
  function Round4(x: real): real {
    TenThousandths(HalfUp(x))
  }

  function Min(x: real, y: real): real {
    if x < y then x else y
  }

  function Max(x: real, y: real): real {
    if x > y then x else y
  }

  lemma FloorIsMonotone(x: real, y: real)
    requires x <= y
    ensures x.Floor <= y.Floor
  {
  }

  lemma RoundIsMonotone(x: real, y: real)
    requires x <= y
    ensures Round4(x) <= Round4(y)
  {
    FloorIsMonotone(x * 10000.0 + 0.5, y * 10000.0 + 0.5);
  }

  lemma DigitsBack(k: int)
    ensures TenThousandths(k) * 10000.0 == k as real && HalfUp(TenThousandths(k)) == k
  {
  }

  lemma RoundIsStable(x: real)
    ensures Round4(Round4(x)) == Round4(x)
  {
    DigitsBack(HalfUp(x));
  }

  // ---------------------------------------------------------------------------------------------
  // Parts of the score
  // ---------------------------------------------------------------------------------------------

  function FreshnessFor(reviewBy: Option<int>, documentUpdatedAt: int, now: int): real {
    match reviewBy
    case Some(review) => if review < now then 0.0 else if review - now < 30 * DAY then 0.5 else 1.0
    case None =>
      var age := now - documentUpdatedAt;
      if age > 365 * DAY then 0.2 else if age > 180 * DAY then 0.6 else 0.9
  }

  /** How many query words are among `words`. */
  function Matches(query: seq<string>, words: set<string>): nat {
    if query == [] then 0 else Matches(query[..|query| - 1], words) + (if query[|query| - 1] in words then 1 else 0)
  }

  function WordsOf(words: seq<string>): set<string> {
    set w | w in words
  }

  function Share(query: seq<string>, words: set<string>): real {
    if query == [] then 0.0 else Matches(query, words) as real / |query| as real
  }

  method LexicalScore(query: seq<string>, document: seq<string>) returns (score: real)
    ensures score == Share(query, WordsOf(document)) && 0.0 <= score <= 1.0
  {
    ShareInUnit(query, WordsOf(document));
    if |query| == 0 || |document| == 0 {
      NoWordsNoShare(query);
      assert document == [] ==> WordsOf(document) == {};
      return 0.0;
    }
    var counts: map<string, nat> := map[];
    for i := 0 to |document|
      invariant counts.Keys == WordsOf(document[..i])
    {
      assert WordsOf(document[..i + 1]) == WordsOf(document[..i]) + {document[i]};
      counts := counts[document[i] := (if document[i] in counts then counts[document[i]] else 0) + 1];
    }
    assert document[..|document|] == document;
    var matches := 0;
    for i := 0 to |query|
      invariant matches == Matches(query[..i], counts.Keys)
    {
      assert query[..i + 1][..i] == query[..i];
      if query[i] in counts {
        matches := matches + 1;
      }
    }
    assert query[..|query|] == query;
    score := Min(1.0, matches as real / |query| as real);
  }

  function TypedScore(query: seq<string>, block: Block): real {
    Share(query, block.typeWords)
  }

  function GraphScore(block: Block): real {
    Min(1.0, block.canonicalFor as real * 0.15 + block.sourceOf as real * 0.1 + block.supersedes as real * 0.1)
  }

  function RawScore(lexical: real, semantic: real, typed: real, graph: real, verification: real, freshness: real): real {
    lexical * 0.38 + semantic * 0.28 + typed * 0.1 + graph * 0.07 + verification * 0.08 + freshness * 0.09
  }

  function Scored(query: seq<string>, block: Block, semantic: real): Record {
    var lexical := Share(query, WordsOf(block.words));
    var raw := RawScore(lexical, semantic, TypedScore(query, block), GraphScore(block), if block.verified then 1.0 else 0.0, block.freshness);
    Record(block.document, block.block, block.line, block.source, Round4(raw), Round4(lexical), Round4(semantic))
  }

  lemma {:induction false} MatchesBounded(query: seq<string>, words: set<string>)
    ensures Matches(query, words) <= |query| && (words == {} ==> Matches(query, words) == 0)
  {
    if query == [] {
    } else {
      MatchesBounded(query[..|query| - 1], words);
    }
  }

  lemma ShareInUnit(query: seq<string>, words: set<string>)
    ensures 0.0 <= Share(query, words) <= 1.0
  {
    if query != [] {
      MatchesBounded(query, words);
    }
  }

  lemma NoWordsNoShare(query: seq<string>)
    ensures Share(query, {}) == 0.0
  {
    MatchesBounded(query, {});
  }

  ghost predicate InUnit(x: real) {
    0.0 <= x <= 1.0
  }

  lemma FreshnessInUnit(reviewBy: Option<int>, documentUpdatedAt: int, now: int)
    ensures InUnit(FreshnessFor(reviewBy, documentUpdatedAt, now))
  {
  }

  /** Every retrieval score lies between 0 and 1. */
  lemma ScoreInUnit(query: seq<string>, block: Block, semantic: real)
    requires InUnit(semantic) && InUnit(block.freshness)
    ensures InUnit(Scored(query, block, semantic).score) && Round4(Scored(query, block, semantic).score) == Scored(query, block, semantic).score
    ensures InUnit(Scored(query, block, semantic).lexical) && InUnit(Scored(query, block, semantic).semantic)
  {
    var lexical := Share(query, WordsOf(block.words));
    ShareInUnit(query, WordsOf(block.words));
    ShareInUnit(query, block.typeWords);
    var raw := RawScore(lexical, semantic, TypedScore(query, block), GraphScore(block), if block.verified then 1.0 else 0.0, block.freshness);
    assert InUnit(GraphScore(block));
    assert InUnit(raw);
    RoundInUnit(raw);
    RoundInUnit(lexical);
    RoundInUnit(semantic);
    RoundIsStable(raw);
  }

  lemma RoundInUnit(x: real)
    requires InUnit(x)
    ensures InUnit(Round4(x))
  {
  }

  // ---------------------------------------------------------------------------------------------
  // Ranking
  // ---------------------------------------------------------------------------------------------

  predicate Relevant(query: seq<string>, r: Record) {
    if query == [] then r.score > 0.04 else (r.lexical > 0.0 || r.semantic >= 0.75) && r.score > 0.08
  }

  /** `a` goes before `b`: higher score, then document, then line. */
  predicate Before(a: Record, b: Record) {
    || a.score > b.score
    || (a.score == b.score && (a.document < b.document || (a.document == b.document && a.line < b.line)))
  }

  function Insert(r: Record, s: seq<Record>): seq<Record> {
    if s == [] || Before(r, s[0]) then [r] + s else [s[0]] + Insert(r, s[1..])
  }

  function Sorted(s: seq<Record>): seq<Record> {
    if s == [] then [] else Insert(s[|s| - 1], Sorted(s[..|s| - 1]))
  }

  /** The relevant records of the blocks of the wanted types. */
  function Candidates(query: seq<string>, types: set<string>, blocks: seq<Block>, semantic: Block -> real): seq<Record> {
    if blocks == [] then []
    else
      var b := blocks[|blocks| - 1];
      var r := Scored(query, b, semantic(b));
      Candidates(query, types, blocks[..|blocks| - 1], semantic)
      + (if (types == {} || b.contentType in types) && Relevant(query, r) then [r] else [])
  }

  function Rank(query: seq<string>, types: set<string>, blocks: seq<Block>, semantic: Block -> real, limit: nat): seq<Record> {
    Top(Sorted(Candidates(query, types, blocks, semantic)), limit)
  }

  ghost predicate Descending(s: seq<Record>) {
    forall i, j :: 0 <= i < j < |s| ==> s[i].score >= s[j].score
  }

  lemma {:induction false} InsertAdds(r: Record, s: seq<Record>)
    ensures multiset(Insert(r, s)) == multiset(s) + multiset{r}
    ensures forall x :: x in Insert(r, s) <==> x in s || x == r
  {
    if s == [] || Before(r, s[0]) {
    } else {
      InsertAdds(r, s[1..]);
      assert s == [s[0]] + s[1..];
    }
  }

  lemma {:induction false} InsertRanks(r: Record, s: seq<Record>)
    requires Descending(s)
    ensures Descending(Insert(r, s))
  {
    if s == [] || Before(r, s[0]) {
    } else {
      InsertRanks(r, s[1..]);
      InsertAdds(r, s[1..]);
      assert forall x :: x in s[1..] ==> x.score <= s[0].score;
    }
  }

  lemma {:induction false} SortRanks(s: seq<Record>)
    ensures Descending(Sorted(s)) && multiset(Sorted(s)) == multiset(s)
  {
    if s == [] {
    } else {
      SortRanks(s[..|s| - 1]);
      InsertRanks(s[|s| - 1], Sorted(s[..|s| - 1]));
      InsertAdds(s[|s| - 1], Sorted(s[..|s| - 1]));
      LastApart(s);
    }
  }

  lemma LastApart(s: seq<Record>)
    requires s != []
    ensures multiset(s) == multiset(s[..|s| - 1]) + multiset{s[|s| - 1]}
  {
    assert s == s[..|s| - 1] + [s[|s| - 1]];
  }

  /** A rounded score between 0 and 1. */
  ghost predicate Proper(r: Record) {
    InUnit(r.score) && Round4(r.score) == r.score
  }

  ghost predicate AllProper(s: seq<Record>) {
    forall r :: r in s ==> Proper(r)
  }

  lemma {:induction false} CandidatesAreProper(query: seq<string>, types: set<string>, blocks: seq<Block>, semantic: Block -> real)
    requires forall b :: b in blocks ==> InUnit(semantic(b)) && InUnit(b.freshness)
    ensures AllProper(Candidates(query, types, blocks, semantic))
  {
    if blocks == [] {
    } else {
      var b := blocks[|blocks| - 1];
      CandidatesAreProper(query, types, blocks[..|blocks| - 1], semantic);
      ScoreInUnit(query, b, semantic(b));
    }
  }

  function Top(s: seq<Record>, limit: nat): seq<Record> {
    if |s| <= limit then s else s[..limit]
  }

  /** The result list descends, its scores lie between 0 and 1, and no relevant block is left out for a worse one. */
  lemma RankIsBest(query: seq<string>, types: set<string>, blocks: seq<Block>, semantic: Block -> real, limit: nat)
    requires forall b :: b in blocks ==> InUnit(semantic(b)) && InUnit(b.freshness)
    ensures var ranked := Rank(query, types, blocks, semantic, limit);
      && Descending(ranked) && AllProper(ranked) && |ranked| <= limit
      && forall r :: r in Candidates(query, types, blocks, semantic) && r !in ranked ==>
           |ranked| == limit && forall x :: x in ranked ==> x.score >= r.score
  {
    var all := Candidates(query, types, blocks, semantic);
    CandidatesAreProper(query, types, blocks, semantic);
    SortRanks(all);
    SameMembers(Sorted(all), all);
  }

  lemma SameMembers(s: seq<Record>, r: seq<Record>)
    requires multiset(s) == multiset(r)
    ensures forall x :: x in s <==> x in r
  {
    forall x
      ensures x in s <==> x in r
    {
      assert x in s <==> x in multiset(s);
      assert x in r <==> x in multiset(r);
    }
  }

  // ---------------------------------------------------------------------------------------------
  // Citations
  // ---------------------------------------------------------------------------------------------

  ghost predicate SeenBlock(s: seq<Record>, r: Record) {
    exists x :: x in s && x.document == r.document && x.block == r.block
  }

  /** The first record of every block. */
  ghost function FirstOfBlocks(s: seq<Record>): seq<Record> {
    if s == [] then []
    else
      var n := |s| - 1;
      FirstOfBlocks(s[..n]) + (if SeenBlock(s[..n], s[n]) then [] else [s[n]])
  }

  predicate Citable(r: Record, floor: real) {
    r.score >= floor && (r.lexical > 0.0 || r.semantic >= 0.75)
  }

  function CitableOnes(s: seq<Record>, floor: real): seq<Record> {
    if s == [] then [] else CitableOnes(s[..|s| - 1], floor) + (if Citable(s[|s| - 1], floor) then [s[|s| - 1]] else [])
  }

  ghost predicate HasText(s: seq<Record>, text: string, summary: string -> string) {
    exists x :: x in s && summary(x.source) == text
  }

  ghost predicate SeenText(s: seq<Record>, r: Record, summary: string -> string) {
    HasText(s, summary(r.source), summary)
  }

  /** The first record of every excerpt that is not empty. */
  ghost function FirstOfTexts(s: seq<Record>, summary: string -> string): seq<Record> {
    if s == [] then []
    else
      var n := |s| - 1;
      FirstOfTexts(s[..n], summary)
      + (if summary(s[n].source) == "" || SeenText(s[..n], s[n], summary) then [] else [s[n]])
  }

  function Floor(best: Record): real {
    Max(0.16, best.score * 0.45)
  }

  /** Close to the best hit, no copied pages, at most five. */
  ghost function Citations(results: seq<Record>, summary: string -> string): seq<Record> {
    var unique := FirstOfBlocks(results);
    if unique == [] then [] else Top(FirstOfTexts(CitableOnes(unique, Floor(unique[0])), summary), 5)
  }

  method UniqueCitations(results: seq<Record>) returns (unique: seq<Record>)
    ensures unique == FirstOfBlocks(results)
  {
    unique := [];
    var seen: set<(nat, string)> := {};
    for i := 0 to |results|
      invariant unique == FirstOfBlocks(results[..i])
      invariant forall d, b :: (d, b) in seen <==> exists x :: x in results[..i] && x.document == d && x.block == b
    {
      var r := results[i];
      var key := (r.document, r.block);
      assert results[..i + 1][..i] == results[..i] && results[..i + 1] == results[..i] + [r];
      assert key in seen <==> SeenBlock(results[..i], r);
      if key !in seen {
        seen := seen + {key};
        unique := unique + [r];
      }
    }
    assert results[..|results|] == results;
  }

  /** The excerpts seen that are not empty. */
  ghost function TextsOf(s: seq<Record>, summary: string -> string): set<string> {
    if s == [] then {}
    else
      var text := summary(s[|s| - 1].source);
      TextsOf(s[..|s| - 1], summary) + if text == "" then {} else {text}
  }

  lemma {:induction false} TextsAreThose(s: seq<Record>, text: string, summary: string -> string)
    ensures text in TextsOf(s, summary) <==> text != "" && HasText(s, text, summary)
  {
    if s == [] {
    } else {
      var n := |s| - 1;
      TextsAreThose(s[..n], text, summary);
      assert s == s[..n] + [s[n]];
      assert s[n] in s;
    }
  }

  lemma TextStep(s: seq<Record>, r: Record, summary: string -> string)
    ensures var text, all := summary(r.source), s + [r];
      && TextsOf(all, summary) == TextsOf(s, summary) + (if text == "" then {} else {text})
      && FirstOfTexts(all, summary) == FirstOfTexts(s, summary) + if text == "" || text in TextsOf(s, summary) then [] else [r]
  {
    assert (s + [r])[..|s|] == s;
    TextsAreThose(s, summary(r.source), summary);
  }

  method DistinctTexts(results: seq<Record>, summary: string -> string) returns (distinct: seq<Record>)
    ensures distinct == FirstOfTexts(results, summary)
  {
    distinct := [];
    var seen: set<string> := {};
    for i := 0 to |results|
      invariant distinct == FirstOfTexts(results[..i], summary)
      invariant seen == TextsOf(results[..i], summary)
    {
      var r := results[i];
      var key := summary(r.source);
      assert results[..i + 1] == results[..i] + [r];
      TextStep(results[..i], r, summary);
      if key == "" || key in seen {
        continue;
      }
      seen := seen + {key};
      distinct := distinct + [r];
    }
    assert results[..|results|] == results;
  }

  method SelectCitations(results: seq<Record>, summary: string -> string) returns (citations: seq<Record>)
    ensures citations == Citations(results, summary)
  {
    var unique := UniqueCitations(results);
    if unique == [] {
      return [];
    }
    var distinct := DistinctTexts(CitableOnes(unique, Floor(unique[0])), summary);
    citations := Top(distinct, 5);
  }

  function Total(s: seq<Record>): real {
    if s == [] then 0.0 else Total(s[..|s| - 1]) + s[|s| - 1].score
  }

  function Confidence(citations: seq<Record>): real {
    if citations == [] then 0.0 else Round4(citations[0].score * 0.7 + Total(citations) / |citations| as real * 0.3)
  }

  method CitationConfidence(citations: seq<Record>) returns (c: real)
    ensures c == Confidence(citations)
  {
    if |citations| == 0 {
      return 0.0;
    }
    var sum := 0.0;
    for i := 0 to |citations|
      invariant sum == Total(citations[..i])
    {
      assert citations[..i + 1][..i] == citations[..i];
      sum := sum + citations[i].score;
    }
    assert citations[..|citations|] == citations;
    var mean := sum / |citations| as real;
    c := Round4(citations[0].score * 0.7 + mean * 0.3);
  }

  predicate Insufficient(citations: seq<Record>) {
    citations == [] || citations[0].score < 0.16 || Confidence(citations) < 0.12
    || (citations[0].lexical < 0.45 && citations[0].semantic < 0.55)
  }

  // The filters keep order -----------------------------------------------------------------------

  /** Adding the next record to what was kept of those before it. */
  lemma KeepOneMore(s: seq<Record>, n: nat, kept: seq<Record>)
    requires n < |s| && Descending(s) && Descending(kept) && forall r :: r in kept ==> r in s[..n]
    ensures Descending(kept + [s[n]]) && Descending(s[..n])
    ensures forall r :: r in kept + [s[n]] ==> r in s[..n + 1]
    ensures forall r :: r in s[..n + 1] <==> r in s[..n] || r == s[n]
  {
    assert s[..n + 1] == s[..n] + [s[n]];
    forall i | 0 <= i < |kept|
      ensures kept[i].score >= s[n].score
    {
      assert kept[i] in s[..n];
      var j :| 0 <= j < n && s[j] == kept[i];
    }
  }

  lemma {:induction false} FirstOfBlocksKeeps(s: seq<Record>)
    requires Descending(s)
    ensures Descending(FirstOfBlocks(s)) && forall r :: r in FirstOfBlocks(s) ==> r in s
    ensures s != [] ==> FirstOfBlocks(s) != [] && FirstOfBlocks(s)[0] == s[0]
  {
    if s == [] {
    } else {
      var n := |s| - 1;
      FirstOfBlocksKeeps(s[..n]);
      KeepOneMore(s, n, FirstOfBlocks(s[..n]));
      assert s[..n + 1] == s;
    }
  }

  /** No block of the results is without its first record. */
  lemma {:induction false} EveryBlockIsKept(s: seq<Record>, r: Record)
    requires r in s
    ensures SeenBlock(FirstOfBlocks(s), r)
  {
    var n := |s| - 1;
    var after := FirstOfBlocks(s);
    assert s == s[..n] + [s[n]];
    if r in s[..n] {
      EveryBlockIsKept(s[..n], r);
    } else if SeenBlock(s[..n], s[n]) {
      var x :| x in s[..n] && x.document == s[n].document && x.block == s[n].block;
      EveryBlockIsKept(s[..n], x);
    } else {
      assert s[n] in after;
    }
  }

  lemma {:induction false} CitableOnesKeep(s: seq<Record>, floor: real)
    requires Descending(s)
    ensures Descending(CitableOnes(s, floor)) && forall r :: r in CitableOnes(s, floor) <==> r in s && Citable(r, floor)
  {
    if s == [] {
    } else {
      var n := |s| - 1;
      assert s[..n + 1] == s;
      KeepOneMore(s, n, []);
      CitableOnesKeep(s[..n], floor);
      KeepOneMore(s, n, CitableOnes(s[..n], floor));
    }
  }

  lemma {:induction false} FirstOfTextsKeeps(s: seq<Record>, summary: string -> string)
    requires Descending(s)
    ensures Descending(FirstOfTexts(s, summary)) && forall r :: r in FirstOfTexts(s, summary) ==> r in s
  {
    if s == [] {
    } else {
      var n := |s| - 1;
      assert s[..n + 1] == s;
      KeepOneMore(s, n, []);
      FirstOfTextsKeeps(s[..n], summary);
      KeepOneMore(s, n, FirstOfTexts(s[..n], summary));
    }
  }

  /** Citations come from the results, best first, at most five, none far below the best hit. */
  lemma CitationsAreClose(results: seq<Record>, summary: string -> string)
    requires Descending(results)
    ensures var cs := Citations(results, summary);
      && Descending(cs) && |cs| <= 5
      && forall c :: c in cs ==> c in results && Citable(c, Floor(results[0]))
  {
    var unique := FirstOfBlocks(results);
    FirstOfBlocksKeeps(results);
    if unique != [] {
      var citable := CitableOnes(unique, Floor(unique[0]));
      CitableOnesKeep(unique, Floor(unique[0]));
      FirstOfTextsKeeps(citable, summary);
      assert results != [];
    }
  }

  // Confidence -----------------------------------------------------------------------------------

  function Multiple(n: nat, x: real): real {
    n as real * x
  }

  lemma {:induction false} TotalBetween(s: seq<Record>, low: real, high: real)
    requires forall r :: r in s ==> low <= r.score <= high
    ensures Multiple(|s|, low) <= Total(s) <= Multiple(|s|, high)
  {
    if s == [] {
    } else {
      var n := |s| - 1;
      TotalBetween(s[..n], low, high);
      assert s[n] in s;
      OneMore(n, low);
      OneMore(n, high);
    }
  }

  lemma OneMore(n: nat, x: real)
    ensures Multiple(n + 1, x) == Multiple(n, x) + x
  {
  }

  lemma MeanBetween(total: real, n: nat, low: real, high: real)
    requires 0 < n && Multiple(n, low) <= total <= Multiple(n, high)
    ensures low <= total / n as real <= high
  {
  }

  /** Confidence lies between the weakest and the best citation's score, both between 0 and 1. */
  lemma ConfidenceIsBelowBest(citations: seq<Record>, low: real)
    requires citations != [] && Descending(citations) && AllProper(citations)
    requires 0.0 <= low && Round4(low) == low && forall c :: c in citations ==> low <= c.score
    ensures low <= Confidence(citations) <= citations[0].score <= 1.0
  {
    var top := citations[0];
    assert top in citations;
    forall c | c in citations
      ensures c.score <= top.score
    {
      var i :| 0 <= i < |citations| && citations[i] == c;
    }
    TotalBetween(citations, low, top.score);
    MeanBetween(Total(citations), |citations|, low, top.score);
    var mean := Total(citations) / |citations| as real;
    RoundIsMonotone(top.score * 0.7 + mean * 0.3, top.score);
    RoundIsMonotone(low, top.score * 0.7 + mean * 0.3);
  }

  /** For every search: the answer's confidence never exceeds the best citation's score, which is at most 1; and of the four
      grounds for an insufficient answer two never occur. */
  lemma AnswerIsNeverOverconfident(query: seq<string>, types: set<string>, blocks: seq<Block>, semantic: Block -> real, limit: nat,
                                   summary: string -> string)
    requires forall b :: b in blocks ==> InUnit(semantic(b)) && InUnit(b.freshness)
    ensures var cs := Citations(Rank(query, types, blocks, semantic, limit), summary);
      && (cs != [] ==> 0.16 <= Confidence(cs) <= cs[0].score <= 1.0)
      && (Insufficient(cs) <==> cs == [] || (cs[0].lexical < 0.45 && cs[0].semantic < 0.55))
  {
    var ranked := Rank(query, types, blocks, semantic, limit);
    var cs := Citations(ranked, summary);
    RankIsBest(query, types, blocks, semantic, limit);
    CitationsAreClose(ranked, summary);
    if cs != [] {
      DigitsBack(1600);
      assert TenThousandths(1600) == 0.16;
      ConfidenceIsBelowBest(cs, 0.16);
    }
  }

  /** Whichever pair of vectors each block is compared by, the provider's or the local ones, the whole search is bounded. */
  lemma SearchIsBounded(query: seq<string>, types: set<string>, blocks: seq<Block>, semantic: Block -> real, limit: nat,
                        left: Block -> seq<real>, right: Block -> seq<real>, sqrt: real -> real, summary: string -> string)
    requires forall b :: b in blocks ==> semantic(b) == Scores.Cosine(left(b), right(b), sqrt) && InUnit(b.freshness)
    requires forall b :: b in blocks && |left(b)| == |right(b)| ==>
      Scores.RootAt(sqrt, Scores.Times(Scores.Dot(left(b), left(b)), Scores.Dot(right(b), right(b))))
    ensures var ranked := Rank(query, types, blocks, semantic, limit);
      && AllProper(ranked) && 0.0 <= Confidence(Citations(ranked, summary)) <= 1.0
  {
    forall b | b in blocks
      ensures InUnit(semantic(b))
    {
      Scores.CosineInUnit(left(b), right(b), sqrt);
    }
    RankIsBest(query, types, blocks, semantic, limit);
    AnswerIsNeverOverconfident(query, types, blocks, semantic, limit, summary);
  }
}
