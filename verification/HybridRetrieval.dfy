/** The retrievers over the durable store, and hybrid retrieval from query to selection. */
module HybridRetrieval {
  import opened Wrappers
  import opened MemoryRecords
  import opened MemoryStore
  import opened MemorySearch
  import opened LexicalScoring
  import opened Retrieval
  import opened RetrievalPipeline
  import opened RetrievalGuarantees
  import opened Scores
  import MemoryWriter
  import Ranking
  import SemanticSearch
  import Text
  import Vectors

  // ---------- Lexical ----------

  const LEXICAL_REASON := "lexical bm25-like scoring"

  function LexicalResult(c: Candidate, record: MemoryRecord): RetrievalResult {
    RetrievalResult(c.memoryId, Finite(c.score), Finite(c.score), Finite(0.0), Finite(c.score), LEXICAL_REASON,
                    false, "", false, c.matchedTerms, 0, record)
  }

  /** The best `topK` documents that contain a token of the query, all of them without a limit. */
  ghost function BestHits(t: Tables, query: RetrievalQuery, ln: Log): seq<Hit>
    requires Counted(IndexView(t))
  {
    Hits(IndexView(t), SetOf(QueryTokens(query)), query.topK, ln)
  }

  /** `out` are the stored records of the hits, in their order. */
  ghost predicate ResultsOf(t: Tables, hits: seq<Hit>, out: Results) {
    && |out| == |hits|
    && forall i :: 0 <= i < |out| ==>
         && hits[i].memoryId in t.records
         && out[i].memoryId == hits[i].memoryId && out[i].score == out[i].lexicalScore == Finite(hits[i].score)
         && out[i].memory == t.records[hits[i].memoryId].record
         && !out[i].selected && !out[i].rejected
  }

  /** The stored records of the best hits, each once, nothing decided yet, within the limit if there is one. */
  ghost predicate LexicalList(t: Tables, query: RetrievalQuery, ln: Log, out: Results)
    requires Counted(IndexView(t))
  {
    ResultsOf(t, BestHits(t, query, ln), out) && NoDuplicates(out) && Undecided(out) && Within(out, query.topK)
  }

  predicate Within(out: Results, limit: int) {
    limit > 0 ==> |out| <= limit
  }

  /** The record says a word the query asks for. */
  ghost predicate Shares(query: RetrievalQuery, r: MemoryRecord) {
    exists w :: AsksFor(query, w) && Says(r, w)
  }

  /** Only records that share a word with the query are returned, and all of them when the limit was not reached. */
  ghost predicate FindsShared(t: Tables, query: RetrievalQuery, out: Results) {
    && (forall id :: id in Ids(out) ==> id in t.records && Shares(query, t.records[id].record))
    && (query.topK <= 0 || |out| < query.topK ==>
          forall id :: id in t.records && Shares(query, t.records[id].record) ==> id in Ids(out))
  }

  lemma SharesIff(t: Tables, query: RetrievalQuery, id: string)
    requires Stored(t) && IndexAgrees(t) && id in t.records
    ensures Shares(query, t.records[id].record) <==>
              exists w :: w in SetOf(QueryTokens(query)) && w in IndexView(t)[id].freq
  {
    var r := t.records[id].record;
    QueryTokensIff(query);
    assert Agrees(t, id);
    forall w ensures w in IndexView(t)[id].freq <==> Says(r, w) {
      RecordTokens(r, w);
    }
    forall w ensures w in SetOf(QueryTokens(query)) <==> AsksFor(query, w) {}
  }

  lemma BestHitsAll(t: Tables, query: RetrievalQuery, ln: Log)
    requires Counted(IndexView(t))
    ensures |BestHits(t, query, ln)| < query.topK || query.topK <= 0 ==>
              BestHits(t, query, ln) == Hits(IndexView(t), SetOf(QueryTokens(query)), 0, ln)
    ensures forall h :: h in BestHits(t, query, ln) ==> h in Hits(IndexView(t), SetOf(QueryTokens(query)), 0, ln)
  {
  }

  lemma ListFindsShared(t: Tables, query: RetrievalQuery, ln: Log, out: Results)
    requires Stored(t) && IndexAgrees(t) && Counted(IndexView(t)) && LexicalList(t, query, ln, out)
    ensures FindsShared(t, query, out)
  {
    var best, terms := BestHits(t, query, ln), SetOf(QueryTokens(query));
    BestHitsAll(t, query, ln);
    forall id | id in Ids(out) ensures id in t.records && Shares(query, t.records[id].record) {
      var i :| 0 <= i < |out| && out[i].memoryId == id;
      assert best[i] in best && best[i].memoryId == id;
      FoundIffMatching(IndexView(t), terms, ln, id);
      SharesIff(t, query, id);
    }
    if query.topK <= 0 || |out| < query.topK {
      forall id | id in t.records && Shares(query, t.records[id].record) ensures id in Ids(out) {
        SharesIff(t, query, id);
        FoundIffMatching(IndexView(t), terms, ln, id);
        var h :| h in best && h.memoryId == id;
        var i :| 0 <= i < |best| && best[i] == h;
        assert out[i] in out && out[i].memoryId == id;
      }
    }
  }

  /** Asks the index for twice the limit, looks the records up, sorts and cuts. */
  method RetrieveLexical(store: SqliteMemoryStore, query: RetrievalQuery, ln: Log) returns (out: Results)
    requires Stored(store.Snapshot())
    ensures Counted(IndexView(store.Snapshot()))
    ensures LexicalList(store.Snapshot(), query, ln, out)
    ensures IndexAgrees(store.Snapshot()) ==> FindsShared(store.Snapshot(), query, out)
  {
    var candidates := SearchLexical(store, QueryTokens(query), query.topK * 2, ln);
    ghost var hits := WiderHits(store.Snapshot(), query, ln);
    AllStored(store.Snapshot(), query, ln, candidates);
    var results := LookUp(store, candidates);
    out := SortAndCut(results, query.topK);
    LookedUp(store.Snapshot(), candidates, results);
    LexicalFits(store.Snapshot(), query, ln, results);
    if IndexAgrees(store.Snapshot()) { ListFindsShared(store.Snapshot(), query, ln, out); }
  }

  method SortAndCut(results: Results, limit: int) returns (out: Results)
    ensures out == Limited(Ranking.Sort(results, ResultKey), limit)
  {
    var sorted := Ranking.Sort(results, ResultKey);
    if limit <= 0 || limit >= |sorted| { return sorted; }
    return sorted[..limit];
  }

  method LookUp(store: SqliteMemoryStore, candidates: seq<Candidate>) returns (results: Results)
    requires forall c :: c in candidates ==> c.memoryId in store.records
    ensures |results| == |candidates|
    ensures forall i :: 0 <= i < |results| ==>
              candidates[i].memoryId in store.records
              && results[i] == LexicalResult(candidates[i], store.records[candidates[i].memoryId].record)
  {
    results := [];
    for i := 0 to |candidates|
      invariant |results| == i
      invariant forall k :: 0 <= k < i ==>
                  candidates[k].memoryId in store.records
                  && results[k] == LexicalResult(candidates[k], store.records[candidates[k].memoryId].record)
    {
      assert candidates[i] in candidates;
      results := results + [LexicalResult(candidates[i], store.records[candidates[i].memoryId].record)];
    }
  }

  /** What the index is asked for: twice as many documents. */
  ghost function WiderHits(t: Tables, query: RetrievalQuery, ln: Log): seq<Hit>
    requires Counted(IndexView(t))
  {
    Hits(IndexView(t), SetOf(QueryTokens(query)), query.topK * 2, ln)
  }

  lemma AllStored(t: Tables, query: RetrievalQuery, ln: Log, candidates: seq<Candidate>)
    requires Counted(IndexView(t))
    requires AsHits(candidates) == Hits(IndexView(t), SetOf(Deduped(QueryTokens(query))), query.topK * 2, ln)
    ensures AsHits(candidates) == WiderHits(t, query, ln)
    ensures forall c :: c in candidates ==> c.memoryId in t.records
  {
    QueryTokensDistinct(query);
    HitsStored(IndexView(t), SetOf(QueryTokens(query)), query.topK * 2, ln);
    var hits := WiderHits(t, query, ln);
    forall c | c in candidates ensures c.memoryId in t.records {
      var i :| 0 <= i < |candidates| && candidates[i] == c;
      assert hits[i] == AsHits(candidates)[i] && hits[i] in hits;
    }
  }

  lemma LookedUp(t: Tables, candidates: seq<Candidate>, results: Results)
    requires |results| == |candidates|
    requires forall i :: 0 <= i < |results| ==>
               candidates[i].memoryId in t.records
               && results[i] == LexicalResult(candidates[i], t.records[candidates[i].memoryId].record)
    ensures ResultsOf(t, AsHits(candidates), results)
  {
  }

  lemma LexicalFits(t: Tables, query: RetrievalQuery, ln: Log, results: Results)
    requires Counted(IndexView(t)) && ResultsOf(t, WiderHits(t, query, ln), results)
    ensures var out := Limited(Ranking.Sort(results, ResultKey), query.topK);
            LexicalList(t, query, ln, out)
  {
    var hits := WiderHits(t, query, ln);
    HitsStored(IndexView(t), SetOf(QueryTokens(query)), query.topK * 2, ln);
    SortedResults(t, hits, results);
    CutResults(t, hits, results, query.topK);
    CutTwice(IndexView(t), SetOf(QueryTokens(query)), query.topK, ln);
  }

  /** Deduplicating the query's tokens again changes nothing about them. */
  lemma QueryTokensDistinct(query: RetrievalQuery)
    ensures SetOf(Deduped(QueryTokens(query))) == SetOf(QueryTokens(query))
  {
    var tokens := QueryTokens(query);
    QueryTermsTrimmed(query.lexicalTerms + Deduped(Text.Tokens(query.text)));
    DedupedWords(tokens);
  }

  lemma HitsStored(c: Corpus, terms: set<string>, limit: int, ln: Log)
    requires Counted(c)
    ensures forall h :: h in Hits(c, terms, limit, ln) ==> h.memoryId in c
    ensures Ranking.DistinctIds(Hits(c, terms, limit, ln), HitKey) && Ranking.Sorted(Hits(c, terms, limit, ln), HitKey)
  {
    HitsIdentified(c, terms, ln);
    Ranking.SortedSetCorrect(HitSet(c, terms, ln), HitKey);
    CutHits(Ranking.SortedSet(HitSet(c, terms, ln), HitKey), limit);
    forall h | h in Hits(c, terms, limit, ln) ensures h.memoryId in c {
      assert h in HitSet(c, terms, ln);
    }
  }

  lemma CutHits(hits: seq<Hit>, limit: int)
    requires Ranking.DistinctIds(hits, HitKey) && Ranking.Sorted(hits, HitKey)
    ensures Ranking.DistinctIds(Limited(hits, limit), HitKey) && Ranking.Sorted(Limited(hits, limit), HitKey)
    ensures forall h :: h in Limited(hits, limit) ==> h in hits
  {
  }

  lemma CutTwice(c: Corpus, terms: set<string>, limit: int, ln: Log)
    requires Counted(c)
    ensures Limited(Hits(c, terms, limit * 2, ln), limit) == Hits(c, terms, limit, ln)
  {
  }

  /** Results of sorted hits are sorted already. */
  lemma SortedResults(t: Tables, hits: seq<Hit>, results: Results)
    requires ResultsOf(t, hits, results) && Ranking.DistinctIds(hits, HitKey) && Ranking.Sorted(hits, HitKey)
    ensures Ranking.Sort(results, ResultKey) == results && NoDuplicates(results)
  {
    forall i | 0 <= i < |hits| ensures ResultKey(results[i]) == HitKey(hits[i]) {}
    forall i, j | 0 <= i < j < |results| ensures results[i].memoryId != results[j].memoryId {
      assert HitKey(hits[i]).id != HitKey(hits[j]).id;
    }
    assert Ranking.Sorted(results, ResultKey) by {
      forall i, j | 0 <= i < j < |results| ensures !Ranking.Before(ResultKey(results[j]), ResultKey(results[i])) {
        assert !Ranking.Before(HitKey(hits[j]), HitKey(hits[i]));
      }
    }
    assert Ranking.DistinctIds(results, ResultKey);
    Ranking.SortSorted(results, ResultKey);
    Ranking.SortedUnique(results, Ranking.Sort(results, ResultKey), ResultKey);
  }

  lemma CutResults(t: Tables, hits: seq<Hit>, results: Results, limit: int)
    requires ResultsOf(t, hits, results) && NoDuplicates(results)
    ensures ResultsOf(t, Limited(hits, limit), Limited(results, limit))
    ensures NoDuplicates(Limited(results, limit)) && Undecided(Limited(results, limit))
    ensures Within(Limited(results, limit), limit)
  {
    var cut := Limited(results, limit);
    forall r | r in cut ensures !r.selected && !r.rejected {
      var i :| 0 <= i < |cut| && cut[i] == r;
      assert results[i] == r;
    }
  }

  // ---------- Semantic ----------

  function Completed(r: RetrievalResult): RetrievalResult {
    var r1 := if r.semanticScore == Finite(0.0) then r.(semanticScore := r.score) else r;
    if r1.fusedScore == Finite(0.0) then r1.(fusedScore := r1.score) else r1
  }

  function CompleteAll(results: Results): Results {
    seq(|results|, i requires 0 <= i < |results| => Completed(results[i]))
  }

  method Complete(results: Results) returns (completed: Results)
    ensures completed == CompleteAll(results)
  {
    completed := [];
    for i := 0 to |results|
      invariant |completed| == i && forall k :: 0 <= k < i ==> completed[k] == Completed(results[k])
    {
      completed := completed + [Completed(results[i])];
    }
  }

  /** The stored records by id. */
  function RecordsOf(t: Tables): SemanticSearch.Records {
    map id | id in t.records :: t.records[id].record
  }

  lemma ListedRecords(t: Tables, records: seq<MemoryRecord>)
    requires Stored(t) && SemanticSearch.AllRecords(t, records)
    ensures SemanticSearch.Latest(records) == RecordsOf(t)
  {
    SemanticSearch.LatestIdentified(records);
    var byId := SemanticSearch.Latest(records);
    forall id | id in byId ensures id in t.records && byId[id] == t.records[id].record {
      assert byId[id] in records;
    }
    forall id | id in t.records ensures id in byId {
      assert t.records[id].record in records;
    }
  }

  /** The records embedded under the model, best first, up to the limit if there is one. */
  ghost function BestEmbedded(t: Tables, model: string, target: Vectors.Vector, query: RetrievalQuery,
                              scorer: SemanticSearch.Scorer): Results
  {
    CompleteAll(Limited(SemanticSearch.Ranked(t.embeddings, model, RecordsOf(t), target, query, scorer), query.topK))
  }

  /** For a proper model, the best records embedded under it, each once; in any case nothing decided yet, and within the
      limit if there is one. */
  ghost predicate SemanticList(t: Tables, model: string, target: Vectors.Vector, query: RetrievalQuery,
                               scorer: SemanticSearch.Scorer, out: Results)
  {
    && Undecided(out) && Within(out, query.topK)
    && (!Text.Blank(model) ==> out == BestEmbedded(t, model, target, query, scorer) && NoDuplicates(out))
  }

  /** Searches all stored records, sorts, fills in missing scores and cuts. */
  method RetrieveSemantic(store: SqliteMemoryStore, model: string, target: Option<Vectors.Vector>, query: RetrievalQuery,
                          scorer: SemanticSearch.Scorer) returns (out: Option<Results>)
    requires Stored(store.Snapshot())
    ensures out.None? <==> model == "" || target.None?
    ensures out.Some? ==> SemanticList(store.Snapshot(), model, target.value, query, scorer, out.value)
  {
    var records := MemoryWriter.List(store);
    ListedRecords(store.Snapshot(), records);
    var found := SemanticSearch.Search(store, model, target, query, records, scorer);
    if found.None? { return None; }
    FoundUndecided(store.embeddings, model, RecordsOf(store.Snapshot()), target.value, query, scorer, found.value);
    var results := Ranking.Sort(found.value, ResultKey);
    SortKeepsFit(found.value);
    var completed := Complete(results);
    CompletedFits(results);
    CutFits(completed, query.topK);
    if !Text.Blank(model) {
      FoundDistinct(store.embeddings, model, RecordsOf(store.Snapshot()), target.value, query, scorer);
      RankedStays(store.Snapshot(), model, target.value, query, scorer, found.value);
    }
    if query.topK <= 0 || query.topK >= |completed| { return Some(completed); }
    return Some(completed[..query.topK]);
  }

  lemma CutStays(results: Results, limit: int)
    requires Ranking.Sorted(results, ResultKey) && NoDuplicates(results)
    ensures Ranking.Sort(Limited(results, limit), ResultKey) == Limited(results, limit)
  {
    var cut := Limited(results, limit);
    assert Ranking.Sorted(cut, ResultKey) && Ranking.DistinctIds(cut, ResultKey);
    Ranking.SortSorted(cut, ResultKey);
    Ranking.SortedUnique(cut, Ranking.Sort(cut, ResultKey), ResultKey);
  }

  lemma LimitedTwice(results: Results, limit: int)
    ensures Limited(CompleteAll(Limited(results, limit)), limit) == CompleteAll(Limited(results, limit))
  {
  }

  /** Sorting and cutting what the search has sorted and cut changes nothing. */
  lemma RankedStays(t: Tables, model: string, target: Vectors.Vector, query: RetrievalQuery, scorer: SemanticSearch.Scorer,
                    found: Results)
    requires Stored(t)
    requires found == Limited(SemanticSearch.Ranked(t.embeddings, model, RecordsOf(t), target, query, scorer), query.topK)
    ensures Limited(CompleteAll(Ranking.Sort(found, ResultKey)), query.topK) == BestEmbedded(t, model, target, query, scorer)
  {
    SemanticSearch.RankedForFusion(t.embeddings, model, RecordsOf(t), target, query, scorer);
    var all := SemanticSearch.Ranked(t.embeddings, model, RecordsOf(t), target, query, scorer);
    CutStays(all, query.topK);
    LimitedTwice(all, query.topK);
  }

  lemma CompletedFits(results: Results)
    ensures Undecided(results) ==> Undecided(CompleteAll(results))
    ensures NoDuplicates(results) ==> NoDuplicates(CompleteAll(results))
  {
    var completed := CompleteAll(results);
    if Undecided(results) {
      forall r | r in completed ensures !r.selected && !r.rejected {
        var i :| 0 <= i < |completed| && completed[i] == r;
        assert results[i] in results;
      }
    }
  }

  lemma CutFits(results: Results, limit: int)
    requires Undecided(results)
    ensures Undecided(Limited(results, limit))
    ensures NoDuplicates(results) ==> NoDuplicates(Limited(results, limit))
  {
    forall r | r in Limited(results, limit) ensures r in results {}
  }

  lemma SortKeepsFit(results: Results)
    ensures Undecided(results) ==> Undecided(Ranking.Sort(results, ResultKey))
    ensures NoDuplicates(results) ==> NoDuplicates(Ranking.Sort(results, ResultKey))
  {
    var sorted := Ranking.Sort(results, ResultKey);
    forall r | r in sorted ensures r in results {
      assert r in multiset(sorted) && r in multiset(results);
    }
    if NoDuplicates(results) {
      assert Ranking.DistinctIds(results, ResultKey);
      Ranking.DistinctIdsPermute(results, sorted, ResultKey);
      forall i, j | 0 <= i < j < |sorted| ensures sorted[i].memoryId != sorted[j].memoryId {
        assert ResultKey(sorted[i]).id != ResultKey(sorted[j]).id;
      }
    }
  }

  lemma {:induction false} MatchesUndecided(rows: seq<(string, string)>, embeddings: map<(string, string), Embedding>,
                                            byId: SemanticSearch.Records, target: Vectors.Vector, query: RetrievalQuery,
                                            scorer: SemanticSearch.Scorer)
    requires forall key :: key in rows ==> key in embeddings
    ensures Undecided(SemanticSearch.Matches(rows, embeddings, byId, target, query, scorer))
  {
    if rows != [] { MatchesUndecided(rows[..|rows| - 1], embeddings, byId, target, query, scorer); }
  }

  /** What the search finds is undecided. */
  lemma FoundUndecided(embeddings: map<(string, string), Embedding>, model: string, byId: SemanticSearch.Records,
                       target: Vectors.Vector, query: RetrievalQuery, scorer: SemanticSearch.Scorer, found: Results)
    requires exists rows :: Ranking.Enumerates(rows, SemanticSearch.Listed(embeddings, model))
               && found == SemanticSearch.SortedMatches(rows, embeddings, byId, target, query, scorer)
    ensures Undecided(found)
  {
    var rows :| Ranking.Enumerates(rows, SemanticSearch.Listed(embeddings, model))
                && found == SemanticSearch.SortedMatches(rows, embeddings, byId, target, query, scorer);
    var matches := SemanticSearch.Matches(rows, embeddings, byId, target, query, scorer);
    MatchesUndecided(rows, embeddings, byId, target, query, scorer);
    SortKeepsFit(matches);
    CutFits(Ranking.Sort(matches, ResultKey), query.topK);
  }

  /** For a proper model it is also free of duplicates. */
  lemma FoundDistinct(embeddings: map<(string, string), Embedding>, model: string, byId: SemanticSearch.Records,
                      target: Vectors.Vector, query: RetrievalQuery, scorer: SemanticSearch.Scorer)
    requires SemanticSearch.Identified(byId)
    ensures NoDuplicates(Limited(SemanticSearch.Ranked(embeddings, model, byId, target, query, scorer), query.topK))
  {
    SemanticSearch.RankedForFusion(embeddings, model, byId, target, query, scorer);
    CutFits(SemanticSearch.Ranked(embeddings, model, byId, target, query, scorer), query.topK);
  }

  // ---------- From query to selection ----------

  /** The two lists fusion is given: the best documents of the index and the best embedded records. */
  ghost predicate Retrieved(t: Tables, expanded: RetrievalQuery, model: string, target: Vectors.Vector, ln: Log,
                            scorer: SemanticSearch.Scorer, lexical: Results, semantic: Results)
    requires Counted(IndexView(t))
  {
    LexicalList(t, expanded, ln, lexical) && SemanticList(t, model, target, expanded, scorer, semantic)
  }

  ghost predicate Outcome(t: Tables, query: RetrievalQuery, model: string, target: Vectors.Vector, ln: Log,
                          scorer: SemanticSearch.Scorer, k: real, p: RejectionPolicy, out: Results)
    requires Counted(IndexView(t))
  {
    exists lexical, semantic ::
      && Retrieved(t, query.(topK := CandidateWindow(query.topK)), model, target, ln, scorer, lexical, semantic)
      && out == Selected(Rejected(p, query, Ranked(lexical, semantic, k, query)), query.topK)
      && Guarantee(p, query, Ranked(lexical, semantic, k, query), out)
  }

  /** Both retrievers are asked for the candidate window. */
  method RetrieveBoth(store: SqliteMemoryStore, query: RetrievalQuery, ln: Log, model: string, target: Option<Vectors.Vector>,
                      scorer: SemanticSearch.Scorer) returns (lexical: Results, semantic: Option<Results>)
    requires Stored(store.Snapshot())
    ensures Counted(IndexView(store.Snapshot()))
    ensures semantic.None? <==> model == "" || target.None?
    ensures semantic.Some? ==>
              Retrieved(store.Snapshot(), query.(topK := CandidateWindow(query.topK)), model, target.value, ln, scorer,
                        lexical, semantic.value)
  {
    var expanded := query.(topK := CandidateWindow(query.topK));
    lexical := RetrieveLexical(store, expanded, ln);
    semantic := RetrieveSemantic(store, model, target, expanded, scorer);
  }

  /** What comes out meets the retrieval guarantee, with nothing assumed about the lists in between. */
  method Retrieve(store: SqliteMemoryStore, query: RetrievalQuery, ln: Log, model: string, target: Option<Vectors.Vector>,
                  scorer: SemanticSearch.Scorer, k: real, p: RejectionPolicy) returns (out: Option<Results>)
    requires Stored(store.Snapshot())
    ensures Counted(IndexView(store.Snapshot()))
    ensures out.None? <==> model == "" || target.None?
    ensures out.Some? ==> Outcome(store.Snapshot(), query, model, target.value, ln, scorer, k, p, out.value)
  {
    ghost var t := store.Snapshot();
    var lexical, semantic := RetrieveBoth(store, query, ln, model, target, scorer);
    out := RetrievalGuarantees.Retrieve(Some(lexical), semantic, k, query, p);
    assert store.Snapshot() == t;
    if semantic.Some? {
      MeetsGuarantee(t, query, model, target.value, ln, scorer, k, p, lexical, semantic.value, out.value);
    }
  }

  lemma MeetsGuarantee(t: Tables, query: RetrievalQuery, model: string, target: Vectors.Vector, ln: Log,
                       scorer: SemanticSearch.Scorer, k: real, p: RejectionPolicy, lexical: Results, semantic: Results, out: Results)
    requires Counted(IndexView(t))
    requires Retrieved(t, query.(topK := CandidateWindow(query.topK)), model, target, ln, scorer, lexical, semantic)
    requires out == Selected(Rejected(p, query, Ranked(lexical, semantic, k, query)), query.topK)
    ensures Outcome(t, query, model, target, ln, scorer, k, p, out)
  {
    RetrievalGuarantee(lexical, semantic, k, query, p);
  }

  // ---------- What was written is found ----------

  /** A record written with an embedding is found by every search for that model and, by every word it says, in the index. */
  lemma WrittenIsFound(before: Tables, r: MemoryRecord, c: MemoryWriter.Context, after: Tables,
                       target: Vectors.Vector, query: RetrievalQuery, scorer: SemanticSearch.Scorer, ln: Log)
    requires Stored(after) && Counted(IndexView(after)) && c.embeds && r.id in after.records
    requires MemoryWriter.Recorded(r, c.now, after.records[r.id]) && MemoryWriter.Indexed(before, r, c, after)
    ensures c.provided.Some?
    ensures r.id in Ids(SemanticSearch.Ranked(after.embeddings, c.provided.value.model, RecordsOf(after), target, query, scorer))
    ensures Shares(query, r) ==> exists h :: h in Hits(IndexView(after), SetOf(QueryTokens(query)), 0, ln) && h.memoryId == r.id
  {
    SemanticSearch.RankedForFusion(after.embeddings, c.provided.value.model, RecordsOf(after), target, query, scorer);
    if w :| AsksFor(query, w) && Says(r, w) {
      QueryTokensIff(query);
      RecordTokens(r, w);
      assert w in IndexView(after)[r.id].freq;
      FoundIffMatching(IndexView(after), SetOf(QueryTokens(query)), ln, r.id);
    }
  }
}
