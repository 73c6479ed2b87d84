/** Hybrid retrieval: reciprocal-rank fusion of two ranked lists, reranking, rejection and top-K selection. */
module Retrieval {
  import opened MemoryRecords
  import Ranking
  import opened Scores

  datatype RetrievalResult = RetrievalResult(
    memoryId: string,
    score: Score,
    lexicalScore: Score,
    semanticScore: Score,
    fusedScore: Score,
    reason: string,
    rejected: bool,
    rejectionRule: string,
    selected: bool,
    matchedTerms: seq<string>,
    freshnessAgeDays: int,
    memory: MemoryRecord)

  datatype RetrievalQuery = RetrievalQuery(
    text: string, lexicalTerms: seq<string>, topK: int, retrievalPolicy: string, freshnessPolicy: string)

  datatype FreshnessPolicy = FreshnessPolicy(
    name: string, episodicMaxAge: int, rejectLowConfidence: bool, lowConfidenceFloor: real, minAcceptedFusedScore: real)

  datatype RetrievalPolicy = RetrievalPolicy(name: string, freshness: FreshnessPolicy)

  datatype RejectionPolicy = RejectionPolicy(
    minScore: real, defaultPolicy: RetrievalPolicy, policies: map<string, RetrievalPolicy>, now: int)

  type Results = seq<RetrievalResult>

  function ResultKey(r: RetrievalResult): Ranking.Key {
    Ranking.Key(r.score, r.memoryId)
  }

  // ---------- Fusion ----------

  datatype Source = Lexical | Semantic

  function SourceName(source: Source): string {
    match source
    case Lexical => "lexical"
    case Semantic => "semantic"
  }

  /** The constant of the fusion formula; 0 stands for the default. */
  function Constant(k: real): real {
    if k == 0.0 then 60.0 else k
  }

  /** The weight of a rank, infinite when the constant cancels it. */
  function Weight(k: real, rank: nat): Score {
    var denominator := k + (rank + 1) as real;
    if denominator == 0.0 then Infinite else Finite(1.0 / denominator)
  }

  function WithSourceScore(r: RetrievalResult, source: Source, score: Score): RetrievalResult {
    match source
    case Lexical => r.(lexicalScore := score)
    case Semantic => r.(semanticScore := score)
  }

  /** The fused entry of a result's id once the result has been added at its rank. */
  function Absorbed(combined: map<string, RetrievalResult>, r: RetrievalResult, weight: Score, source: Source): RetrievalResult {
    if r.memoryId in combined then
      var existing := combined[r.memoryId];
      WithSourceScore(
        existing.(score := Plus(existing.score, weight), fusedScore := Plus(existing.score, weight),
                  reason := existing.reason + "+" + SourceName(source)),
        source, r.score)
    else
      WithSourceScore(r.(score := weight, fusedScore := weight, reason := "rrf:" + SourceName(source)), source, r.score)
  }

  function Accumulated(combined: map<string, RetrievalResult>, results: Results, source: Source, k: real)
    : map<string, RetrievalResult>
  {
    if results == [] then combined
    else
      var n := |results| - 1;
      var before := Accumulated(combined, results[..n], source, k);
      before[results[n].memoryId := Absorbed(before, results[n], Weight(k, n), source)]
  }

  method Accumulate(combined: map<string, RetrievalResult>, results: Results, source: Source, k: real)
    returns (r: map<string, RetrievalResult>)
    ensures r == Accumulated(combined, results, source, k)
  {
    r := combined;
    for rank := 0 to |results|
      invariant r == Accumulated(combined, results[..rank], source, k)
    {
      assert results[..rank + 1][..rank] == results[..rank];
      var result := results[rank];
      var score := Weight(k, rank);
      var sourceScore := result.score;
      if result.memoryId in r {
        var existing := r[result.memoryId];
        existing := existing.(score := Plus(existing.score, score));
        existing := existing.(fusedScore := existing.score, reason := existing.reason + "+" + SourceName(source));
        if source == Lexical { existing := existing.(lexicalScore := sourceScore); }
        if source == Semantic { existing := existing.(semanticScore := sourceScore); }
        r := r[result.memoryId := existing];
      } else {
        result := result.(score := score, fusedScore := score, reason := "rrf:" + SourceName(source));
        if source == Lexical { result := result.(lexicalScore := sourceScore); }
        if source == Semantic { result := result.(semanticScore := sourceScore); }
        r := r[result.memoryId := result];
      }
    }
    assert results[..|results|] == results;
  }

  function Combined(lexical: Results, semantic: Results, k: real): map<string, RetrievalResult>
  {
    Accumulated(Accumulated(map[], lexical, Lexical, k), semantic, Semantic, k)
  }

  /** The fused list. */
  ghost function Fused(lexical: Results, semantic: Results, k: real): Results
  {
    Ranking.SortedSet(Combined(lexical, semantic, Constant(k)).Values, ResultKey)
  }

  /** Fusion collects the entries of a map, whose order is arbitrary, and sorts them: the result is always `Fused`. */
  method Fuse(lexical: Results, semantic: Results, k: real) returns (results: Results)
    ensures results == Fused(lexical, semantic, k)
  {
    var combined := Accumulate(map[], lexical, Lexical, Constant(k));
    combined := Accumulate(combined, semantic, Semantic, Constant(k));
    CombinedKeyed(lexical, semantic, Constant(k));
    results := [];
    var todo := combined.Keys;
    while todo != {}
      invariant todo <= combined.Keys
      invariant Ranking.Enumerates(results, set id | id in combined.Keys - todo :: combined[id])
    {
      var id :| id in todo;
      ghost var done := combined.Keys - todo;
      assert combined[id] !in results;
      results := results + [combined[id]];
      todo := todo - {id};
      assert combined.Keys - todo == done + {id};
    }
    assert combined.Keys - todo == combined.Keys;
    assert combined.Values == set id | id in combined.Keys :: combined[id];
    Ranking.SortOfListing(results, combined.Values, ResultKey);
    results := Ranking.Sort(results, ResultKey);
  }

  predicate Keyed(combined: map<string, RetrievalResult>) {
    forall id :: id in combined ==> combined[id].memoryId == id && combined[id].fusedScore == combined[id].score
  }

  function Ids(results: Results): set<string> {
    set r | r in results :: r.memoryId
  }

  /** What a list contributes to the score of an id: the weights of the ranks at which it occurs. */
  function Share(results: Results, id: string, k: real): Score
  {
    if results == [] then Finite(0.0)
    else
      var n := |results| - 1;
      Plus(Share(results[..n], id, k), if results[n].memoryId == id then Weight(k, n) else Finite(0.0))
  }

  function StartScore(start: map<string, RetrievalResult>, id: string): Score {
    if id in start then start[id].score else Finite(0.0)
  }

  /** The entries are those of `start` and of the added results; each score has grown by the result's share. */
  ghost predicate Scored(start: map<string, RetrievalResult>, c: map<string, RetrievalResult>, results: Results, k: real)
  {
    && Keyed(c)
    && (forall id :: id in c <==> id in start || id in Ids(results))
    && (forall id :: id in c ==> c[id].score == Plus(StartScore(start, id), Share(results, id, k)))
  }

  lemma {:induction false} AccumulatedScores(start: map<string, RetrievalResult>, results: Results, source: Source, k: real)
    requires Keyed(start)
    ensures Scored(start, Accumulated(start, results, source, k), results, k)
  {
    if results != [] {
      var n := |results| - 1;
      AccumulatedScores(start, results[..n], source, k);
      ScoredNext(start, Accumulated(start, results[..n], source, k), results, source, k);
    }
  }

  lemma IdsNext(results: Results)
    requires results != []
    ensures Ids(results) == Ids(results[..|results| - 1]) + {results[|results| - 1].memoryId}
  {
    assert results == results[..|results| - 1] + [results[|results| - 1]];
  }

  lemma ShareNext(results: Results, id: string, k: real)
    requires results != []
    ensures var n := |results| - 1;
            Share(results, id, k)
            == Plus(Share(results[..n], id, k), if results[n].memoryId == id then Weight(k, n) else Finite(0.0))
  {
  }

  /** The score of the entry a result is absorbed into. */
  lemma AbsorbedScore(c: map<string, RetrievalResult>, r: RetrievalResult, weight: Score, source: Source)
    requires Keyed(c)
    ensures var entry := Absorbed(c, r, weight, source);
            && entry.memoryId == r.memoryId && entry.fusedScore == entry.score
            && entry.score == Plus(StartScore(c, r.memoryId), weight)
  {
  }

  lemma PlusAssociative(a: Score, b: Score, c: Score)
    ensures Plus(Plus(a, b), c) == Plus(a, Plus(b, c)) && Plus(a, Finite(0.0)) == a
  {
  }

  lemma ScoreNext(start: map<string, RetrievalResult>, c: map<string, RetrievalResult>, results: Results, source: Source, k: real,
                  id: string)
    requires results != [] && Scored(start, c, results[..|results| - 1], k)
    ensures var n, r := |results| - 1, results[|results| - 1];
            var next := c[r.memoryId := Absorbed(c, r, Weight(k, n), source)];
            id in next ==> next[id].score == Plus(StartScore(start, id), Share(results, id, k))
  {
    var n, r := |results| - 1, results[|results| - 1];
    var before := Share(results[..n], id, k);
    var share := if r.memoryId == id then Weight(k, n) else Finite(0.0);
    ShareNext(results, id, k);
    assert StartScore(c, id) == Plus(StartScore(start, id), before) by {
      if id !in c { NoShareOutside(results[..n], id, k); }
    }
    SumNext(StartScore(c, id), StartScore(start, id), before, share);
    AbsorbedScore(c, r, Weight(k, n), source);
  }

  lemma SumNext(score: Score, start: Score, before: Score, share: Score)
    requires score == Plus(start, before)
    ensures Plus(score, share) == Plus(start, Plus(before, share)) && (share == Finite(0.0) ==> Plus(score, share) == score)
  {
    PlusAssociative(start, before, share);
  }

  lemma ScoredNext(start: map<string, RetrievalResult>, c: map<string, RetrievalResult>, results: Results, source: Source, k: real)
    requires results != [] && Scored(start, c, results[..|results| - 1], k)
    ensures var n := |results| - 1;
            Scored(start, c[results[n].memoryId := Absorbed(c, results[n], Weight(k, n), source)], results, k)
  {
    var n, r := |results| - 1, results[|results| - 1];
    IdsNext(results);
    AbsorbedScore(c, r, Weight(k, n), source);
    forall id { ScoreNext(start, c, results, source, k, id); }
  }

  lemma {:induction false} NoShareOutside(results: Results, id: string, k: real)
    ensures id !in Ids(results) ==> Share(results, id, k) == Finite(0.0)
  {
    if results != [] {
      var n := |results| - 1;
      assert results[n] in results;
      assert forall r :: r in results[..n] ==> r in results;
      NoShareOutside(results[..n], id, k);
    }
  }

  lemma CombinedKeyed(lexical: Results, semantic: Results, k: real)
    ensures Keyed(Combined(lexical, semantic, k))
    ensures Combined(lexical, semantic, k).Keys == Ids(lexical) + Ids(semantic)
    ensures forall id :: id in Combined(lexical, semantic, k) ==>
              Combined(lexical, semantic, k)[id].score == Plus(Share(lexical, id, k), Share(semantic, id, k))
    ensures Ranking.IdentifiedBy(Combined(lexical, semantic, k).Values, ResultKey)
  {
    AccumulatedScores(map[], lexical, Lexical, k);
    AccumulatedScores(Accumulated(map[], lexical, Lexical, k), semantic, Semantic, k);
    var first, c := Accumulated(map[], lexical, Lexical, k), Combined(lexical, semantic, k);
    assert Scored(map[], first, lexical, k) && Scored(first, c, semantic, k);
    forall id | id in Ids(semantic) && id !in Ids(lexical) ensures Share(lexical, id, k) == Finite(0.0) {
      NoShareOutside(lexical, id, k);
    }
  }

  /** Fusion keeps every candidate exactly once, scored by the sum of its weights in both lists, best first. */
  lemma FusedCorrect(lexical: Results, semantic: Results, k: real)
    ensures Ids(Fused(lexical, semantic, k)) == Ids(lexical) + Ids(semantic)
    ensures Ranking.DistinctIds(Fused(lexical, semantic, k), ResultKey)
    ensures Ranking.Sorted(Fused(lexical, semantic, k), ResultKey)
    ensures forall r :: r in Fused(lexical, semantic, k) ==> r.fusedScore == r.score
    ensures forall r :: r in Fused(lexical, semantic, k) ==>
              r.score == Plus(Share(lexical, r.memoryId, Constant(k)), Share(semantic, r.memoryId, Constant(k)))
  {
    var c := Combined(lexical, semantic, Constant(k));
    CombinedKeyed(lexical, semantic, Constant(k));
    Ranking.SortedSetCorrect(c.Values, ResultKey);
    forall r | r in Fused(lexical, semantic, k) ensures r.memoryId in c && c[r.memoryId] == r {
    }
    forall id | id in c ensures id in Ids(Fused(lexical, semantic, k)) {
      assert c[id] in c.Values && c[id] in Fused(lexical, semantic, k);
    }
  }

  function Keys(results: Results): seq<Ranking.Key> {
    seq(|results|, i requires 0 <= i < |results| => ResultKey(results[i]))
  }

  function Itself(k: Ranking.Key): Ranking.Key { k }

  /** A ranking is determined by its ids and their scores. */
  lemma RankingDetermined(a: Results, b: Results)
    requires Ranking.DistinctIds(a, ResultKey) && Ranking.Sorted(a, ResultKey)
    requires Ranking.DistinctIds(b, ResultKey) && Ranking.Sorted(b, ResultKey)
    requires Ids(a) == Ids(b) && forall r, s :: r in a && s in b && r.memoryId == s.memoryId ==> r.score == s.score
    ensures Keys(a) == Keys(b)
  {
    var all := set r | r in a :: ResultKey(r);
    KeysEnumerate(a, all);
    forall r | r in b ensures ResultKey(r) in all {
      assert r.memoryId in Ids(a);
      var s :| s in a && s.memoryId == r.memoryId;
    }
    forall x | x in all ensures exists r :: r in b && ResultKey(r) == x {
      var s :| s in a && ResultKey(s) == x;
      assert s.memoryId in Ids(b);
      var r :| r in b && r.memoryId == s.memoryId;
    }
    KeysEnumerate(b, all);
    Ranking.EnumerationsPermute(Keys(a), Keys(b), all);
    Ranking.SortedUnique(Keys(a), Keys(b), Itself);
  }

  lemma PlusCommutes(a: Score, b: Score)
    ensures Plus(a, b) == Plus(b, a)
  {
  }

  /** Which list is called lexical does not matter to the ranking: ids and scores come out the same. */
  lemma FusionSymmetric(lexical: Results, semantic: Results, k: real)
    ensures Keys(Fused(lexical, semantic, k)) == Keys(Fused(semantic, lexical, k))
  {
    FusedCorrect(lexical, semantic, k);
    FusedCorrect(semantic, lexical, k);
    forall r, s | r in Fused(lexical, semantic, k) && s in Fused(semantic, lexical, k) && r.memoryId == s.memoryId
      ensures r.score == s.score
    {
      PlusCommutes(Share(lexical, r.memoryId, Constant(k)), Share(semantic, r.memoryId, Constant(k)));
    }
    RankingDetermined(Fused(lexical, semantic, k), Fused(semantic, lexical, k));
  }

  lemma KeysEnumerate(results: Results, all: set<Ranking.Key>)
    requires Ranking.DistinctIds(results, ResultKey) && Ranking.Sorted(results, ResultKey)
    requires forall r :: r in results ==> ResultKey(r) in all
    requires forall x :: x in all ==> exists r :: r in results && ResultKey(r) == x
    ensures Ranking.Enumerates(Keys(results), all)
    ensures Ranking.DistinctIds(Keys(results), Itself) && Ranking.Sorted(Keys(results), Itself)
  {
    forall x | x in all ensures x in Keys(results) {
      var r :| r in results && ResultKey(r) == x;
      var i :| 0 <= i < |results| && results[i] == r;
      assert Keys(results)[i] == x;
    }
  }
}
