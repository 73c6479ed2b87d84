/** Semantic search over the stored embeddings, and what it hands to hybrid retrieval. */
module SemanticSearch {
  import opened Wrappers
  import opened MemoryRecords
  import opened MemoryStore
  import opened MemoryIndexer
  import opened Numbers
  import opened Retrieval
  import RetrievalGuarantees
  import Ranking
  import opened Scores
  import Text
  import Vectors

  /** How far a record fits a query besides its similarity, and why. */
  type Scorer = (RetrievalQuery, MemoryRecord) -> (real, string)

  type Records = map<string, MemoryRecord>

  /** The records by id; of two with one id the later counts. */
  function Latest(records: seq<MemoryRecord>): Records {
    if records == [] then map[] else Latest(records[..|records| - 1])[records[|records| - 1].id := records[|records| - 1]]
  }

  lemma {:induction false} LatestIdentified(records: seq<MemoryRecord>)
    ensures forall id :: id in Latest(records) ==> Latest(records)[id].id == id && Latest(records)[id] in records
    ensures forall r :: r in records ==> r.id in Latest(records)
  {
    if records != [] {
      LatestIdentified(records[..|records| - 1]);
      assert records == records[..|records| - 1] + [records[|records| - 1]];
    }
  }

  function Scored(record: MemoryRecord, vector: Vectors.Vector, target: Vectors.Vector, query: RetrievalQuery, scorer: Scorer)
    : RetrievalResult
  {
    var similarity, (boost, reason) := Vectors.Cosine(target, vector), scorer(query, record);
    var score := RoundTo4((similarity + boost) / 2.0);
    RetrievalResult(record.id, Finite(score), Finite(0.0), Finite(similarity), Finite(score), reason, false, "", false, [], 0, record)
  }

  /** The stored embeddings a listing for a model names. A blank model names all of them. */
  function Listed(embeddings: map<(string, string), Embedding>, model: string): set<(string, string)> {
    set key | key in embeddings && (Text.Blank(model) || key.1 == model)
  }

  function Matches(rows: seq<(string, string)>, embeddings: map<(string, string), Embedding>, byId: Records,
                   target: Vectors.Vector, query: RetrievalQuery, scorer: Scorer): Results
    requires forall key :: key in rows ==> key in embeddings
  {
    if rows == [] then []
    else
      var key := rows[|rows| - 1];
      Matches(rows[..|rows| - 1], embeddings, byId, target, query, scorer)
      + if key.0 in byId then [Scored(byId[key.0], embeddings[key].vector, target, query, scorer)] else []
  }

  /** The matches of the listed rows, sorted and cut. */
  ghost function SortedMatches(rows: seq<(string, string)>, embeddings: map<(string, string), Embedding>, byId: Records,
                               target: Vectors.Vector, query: RetrievalQuery, scorer: Scorer): Results
    requires forall key :: key in rows ==> key in embeddings
  {
    Limited(Ranking.Sort(Matches(rows, embeddings, byId, target, query, scorer), ResultKey), query.topK)
  }

  method ListEmbeddings(store: SqliteMemoryStore, model: string) returns (rows: seq<(string, string)>)
    ensures Ranking.Enumerates(rows, Listed(store.embeddings, model))
  {
    var all := Listed(store.embeddings, model);
    var todo := all;
    rows := [];
    while todo != {}
      invariant todo <= all
      invariant Ranking.Enumerates(rows, all - todo)
    {
      var key :| key in todo;
      assert key !in rows;
      rows := rows + [key];
      todo := todo - {key};
    }
    assert all - todo == all;
  }

  method IndexById(records: seq<MemoryRecord>) returns (byId: Records)
    ensures byId == Latest(records)
  {
    byId := map[];
    for i := 0 to |records|
      invariant byId == Latest(records[..i])
    {
      assert records[..i + 1][..i] == records[..i];
      byId := byId[records[i].id := records[i]];
    }
    assert records[..|records|] == records;
  }

  method ScoreEmbeddings(rows: seq<(string, string)>, embeddings: map<(string, string), Embedding>, byId: Records,
                         target: Vectors.Vector, query: RetrievalQuery, scorer: Scorer) returns (results: Results)
    requires forall key :: key in rows ==> key in embeddings
    ensures results == Matches(rows, embeddings, byId, target, query, scorer)
  {
    results := [];
    for i := 0 to |rows|
      invariant results == Matches(rows[..i], embeddings, byId, target, query, scorer)
    {
      assert rows[..i + 1][..i] == rows[..i];
      if rows[i].0 !in byId { continue; }
      var similarity := Vectors.CosineSimilarity(target, embeddings[rows[i]].vector);
      var (boost, reason) := scorer(query, byId[rows[i].0]);
      var score := RoundTo4((similarity + boost) / 2.0);
      results := results + [RetrievalResult(byId[rows[i].0].id, Finite(score), Finite(0.0), Finite(similarity), Finite(score),
                                            reason, false, "", false, [], 0, byId[rows[i].0])];
    }
    assert rows[..|rows|] == rows;
  }

  /** The records with an embedding under the model, each with its score. */
  ghost function Found(embeddings: map<(string, string), Embedding>, model: string, byId: Records,
                       target: Vectors.Vector, query: RetrievalQuery, scorer: Scorer): set<RetrievalResult>
  {
    set id | id in byId && (id, model) in embeddings :: Scored(byId[id], embeddings[(id, model)].vector, target, query, scorer)
  }

  ghost predicate Identified(byId: Records) {
    forall id :: id in byId ==> byId[id].id == id
  }

  lemma FoundIdentified(embeddings: map<(string, string), Embedding>, model: string, byId: Records,
                        target: Vectors.Vector, query: RetrievalQuery, scorer: Scorer)
    requires Identified(byId)
    ensures Ranking.IdentifiedBy(Found(embeddings, model, byId, target, query, scorer), ResultKey)
  {
  }

  /** The matches of some rows of one model are the scored records of those rows, each once. */
  lemma {:induction false} MatchesEnumerate(rows: seq<(string, string)>, embeddings: map<(string, string), Embedding>,
                                            model: string, byId: Records, target: Vectors.Vector, query: RetrievalQuery, scorer: Scorer)
    requires Identified(byId) && (forall key :: key in rows ==> key in embeddings && key.1 == model)
    requires forall i, j :: 0 <= i < j < |rows| ==> rows[i] != rows[j]
    ensures RetrievalGuarantees.NoDuplicates(Matches(rows, embeddings, byId, target, query, scorer))
    ensures forall r :: r in Matches(rows, embeddings, byId, target, query, scorer) <==>
              && r.memoryId in byId && (r.memoryId, model) in rows
              && r == Scored(byId[r.memoryId], embeddings[(r.memoryId, model)].vector, target, query, scorer)
  {
    if rows != [] {
      var rest, key := rows[..|rows| - 1], rows[|rows| - 1];
      assert rows == rest + [key] && key == (key.0, model);
      MatchesEnumerate(rest, embeddings, model, byId, target, query, scorer);
      assert key !in rest;
    }
  }

  /** What a search for a non-blank model finds, best first. */
  ghost function Ranked(embeddings: map<(string, string), Embedding>, model: string, byId: Records,
                        target: Vectors.Vector, query: RetrievalQuery, scorer: Scorer): Results
  {
    Ranking.SortedSet(Found(embeddings, model, byId, target, query, scorer), ResultKey)
  }

  lemma MatchesRanked(rows: seq<(string, string)>, embeddings: map<(string, string), Embedding>, model: string, byId: Records,
                      target: Vectors.Vector, query: RetrievalQuery, scorer: Scorer)
    requires Identified(byId) && !Text.Blank(model) && Ranking.Enumerates(rows, Listed(embeddings, model))
    ensures Ranking.Sort(Matches(rows, embeddings, byId, target, query, scorer), ResultKey)
         == Ranked(embeddings, model, byId, target, query, scorer)
  {
    var results := Matches(rows, embeddings, byId, target, query, scorer);
    var found := Found(embeddings, model, byId, target, query, scorer);
    MatchesEnumerate(rows, embeddings, model, byId, target, query, scorer);
    FoundIdentified(embeddings, model, byId, target, query, scorer);
    assert forall r :: r in results <==> r in found;
    Ranking.SortOfListing(results, found, ResultKey);
  }

  /** An error exactly without a model or an embedding of the query; otherwise, for a model that is not blank, the records
      embedded under it, ranked, up to the limit if there is one, in whatever order the rows are listed. */
  method Search(store: SqliteMemoryStore, model: string, target: Option<Vectors.Vector>, query: RetrievalQuery,
                records: seq<MemoryRecord>, scorer: Scorer) returns (out: Option<Results>)
    ensures out.None? <==> model == "" || target.None?
    ensures out.Some? && !Text.Blank(model) ==>
              out.value == Limited(
                Ranked(store.embeddings, model, Latest(records), target.value, query, scorer), query.topK)
    ensures out.Some? ==>
              exists rows :: Ranking.Enumerates(rows, Listed(store.embeddings, model))
                             && out.value == SortedMatches(rows, store.embeddings, Latest(records), target.value, query, scorer)
  {
    if model == "" || target.None? { return None; }
    var rows := ListEmbeddings(store, model);
    var byId := IndexById(records);
    var results := ScoreEmbeddings(rows, store.embeddings, byId, target.value, query, scorer);
    if !Text.Blank(model) {
      LatestIdentified(records);
      MatchesRanked(rows, store.embeddings, model, byId, target.value, query, scorer);
    }
    results := Ranking.Sort(results, ResultKey);
    if query.topK <= 0 || query.topK >= |results| { return Some(results); }
    return Some(results[..query.topK]);
  }

  /** The ranking meets what hybrid retrieval expects of its lists: no duplicates, nothing decided yet; and it misses no
      record that is embedded under the model. */
  lemma RankedForFusion(embeddings: map<(string, string), Embedding>, model: string, byId: Records,
                        target: Vectors.Vector, query: RetrievalQuery, scorer: Scorer)
    requires Identified(byId)
    ensures var out := Ranked(embeddings, model, byId, target, query, scorer);
            && RetrievalGuarantees.NoDuplicates(out) && RetrievalGuarantees.Undecided(out)
            && Ranking.Sorted(out, ResultKey)
            && Ids(out) == set id | id in byId && (id, model) in embeddings
  {
    var found, out := Found(embeddings, model, byId, target, query, scorer), Ranked(embeddings, model, byId, target, query, scorer);
    FoundIdentified(embeddings, model, byId, target, query, scorer);
    Ranking.SortedSetCorrect(found, ResultKey);
    forall id | id in byId && (id, model) in embeddings ensures id in Ids(out) {
      assert Scored(byId[id], embeddings[(id, model)].vector, target, query, scorer) in out;
    }
    forall i, j | 0 <= i < j < |out| ensures out[i].memoryId != out[j].memoryId {
      assert ResultKey(out[i]).id != ResultKey(out[j]).id;
    }
  }

  /** How similar the embedding of a record is to the target, and how well the record fits the query besides. */
  function Similarity(embeddings: map<(string, string), Embedding>, model: string, id: string, target: Vectors.Vector): real
    requires (id, model) in embeddings
  {
    Vectors.Cosine(target, embeddings[(id, model)].vector)
  }

  function Fit(byId: Records, id: string, query: RetrievalQuery, scorer: Scorer): real
    requires id in byId
  {
    scorer(query, byId[id]).0
  }

  lemma FoundScore(embeddings: map<(string, string), Embedding>, model: string, byId: Records,
                   target: Vectors.Vector, query: RetrievalQuery, scorer: Scorer, r: RetrievalResult)
    requires Identified(byId) && r in Found(embeddings, model, byId, target, query, scorer)
    ensures r.memoryId in byId && (r.memoryId, model) in embeddings
    ensures r.score == Finite(RoundTo4((Similarity(embeddings, model, r.memoryId, target) + Fit(byId, r.memoryId, query, scorer)) / 2.0))
  {
  }

  /** If the second is at least as similar and fits at least as well, the two have the same score. */
  predicate NotOutdone(embeddings: map<(string, string), Embedding>, model: string, byId: Records,
                       target: Vectors.Vector, query: RetrievalQuery, scorer: Scorer, a: RetrievalResult, b: RetrievalResult)
  {
    && a.memoryId in byId && b.memoryId in byId && (a.memoryId, model) in embeddings && (b.memoryId, model) in embeddings
    && ((&& Similarity(embeddings, model, a.memoryId, target) <= Similarity(embeddings, model, b.memoryId, target)
         && Fit(byId, a.memoryId, query, scorer) <= Fit(byId, b.memoryId, query, scorer)) ==> a.score == b.score)
  }

  lemma MeanGrows(x: real, f: real, y: real, g: real)
    requires x <= y && f <= g
    ensures RoundTo4((x + f) / 2.0) <= RoundTo4((y + g) / 2.0)
  {
    RoundTo4Monotone((x + f) / 2.0, (y + g) / 2.0);
  }

  /** The ranking never lists a record before one that is at least as similar and fits at least as well, unless their rounded
      scores are equal. */
  lemma SimilarFirst(embeddings: map<(string, string), Embedding>, model: string, byId: Records,
                     target: Vectors.Vector, query: RetrievalQuery, scorer: Scorer, i: nat, j: nat)
    requires Identified(byId) && i < j < |Ranked(embeddings, model, byId, target, query, scorer)|
    ensures NotOutdone(embeddings, model, byId, target, query, scorer,
                       Ranked(embeddings, model, byId, target, query, scorer)[i],
                       Ranked(embeddings, model, byId, target, query, scorer)[j])
  {
    var found, out := Found(embeddings, model, byId, target, query, scorer), Ranked(embeddings, model, byId, target, query, scorer);
    FoundIdentified(embeddings, model, byId, target, query, scorer);
    Ranking.SortedSetCorrect(found, ResultKey);
    OrderedPair(embeddings, model, byId, target, query, scorer, out[i], out[j]);
  }

  lemma OrderedPair(embeddings: map<(string, string), Embedding>, model: string, byId: Records,
                    target: Vectors.Vector, query: RetrievalQuery, scorer: Scorer, a: RetrievalResult, b: RetrievalResult)
    requires Identified(byId) && !Ranking.Before(ResultKey(b), ResultKey(a))
    requires a in Found(embeddings, model, byId, target, query, scorer) && b in Found(embeddings, model, byId, target, query, scorer)
    ensures NotOutdone(embeddings, model, byId, target, query, scorer, a, b)
  {
    FoundScore(embeddings, model, byId, target, query, scorer, a);
    FoundScore(embeddings, model, byId, target, query, scorer, b);
    var x, f := Similarity(embeddings, model, a.memoryId, target), Fit(byId, a.memoryId, query, scorer);
    var y, g := Similarity(embeddings, model, b.memoryId, target), Fit(byId, b.memoryId, query, scorer);
    if x <= y && f <= g { MeanGrows(x, f, y, g); }
  }

  /** The score of a record lies between its similarity and its fit, to four places. */
  lemma ScoreBetween(record: MemoryRecord, vector: Vectors.Vector, target: Vectors.Vector, query: RetrievalQuery, scorer: Scorer)
    ensures var similarity, fit := Vectors.Cosine(target, vector), scorer(query, record).0;
            var low, high := if similarity <= fit then similarity else fit, if similarity <= fit then fit else similarity;
            Between(RoundTo4(low), Scored(record, vector, target, query, scorer).score, RoundTo4(high))
  {
    var similarity, fit := Vectors.Cosine(target, vector), scorer(query, record).0;
    var middle := (similarity + fit) / 2.0;
    if similarity <= fit {
      RoundTo4Monotone(similarity, middle);
      RoundTo4Monotone(middle, fit);
    } else {
      RoundTo4Monotone(fit, middle);
      RoundTo4Monotone(middle, similarity);
    }
  }

  /** The stored records, as a search is given them. */
  ghost predicate AllRecords(t: Tables, records: seq<MemoryRecord>) {
    forall r :: r in records <==> exists id :: id in t.records && t.records[id].record == r
  }

  /** After a rebuild whose provider answers under the model, a search without a limit finds every record. */
  lemma RebuiltFindsAll(t: Tables, provider: Provider, now: int, model: string, records: seq<MemoryRecord>,
                        target: Vectors.Vector, query: RetrievalQuery, scorer: Scorer)
    requires Stored(t) && EmbeddedAll(t, provider, t.records.Keys, now) && AllRecords(t, records)
    requires forall id :: id in t.records && provider(t.records[id].record).Some? ==>
               provider(t.records[id].record).value.model == model
    ensures Ids(Ranked(t.embeddings, model, Latest(records), target, query, scorer)) == t.records.Keys
  {
    var byId := Latest(records);
    LatestIdentified(records);
    RankedForFusion(t.embeddings, model, byId, target, query, scorer);
    forall id ensures id in byId && (id, model) in t.embeddings <==> id in t.records {
      if id in t.records {
        assert Embedded(t, provider, id, now) && t.records[id].record in records;
      }
    }
  }
}
