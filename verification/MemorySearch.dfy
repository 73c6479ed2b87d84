/** Lexical search over the inverted index, and the indexer that rebuilds it. The search ranges over SQL rows and maps
    in arbitrary order; its result is nevertheless the one `LexicalScoring.Hits` defines. */
module MemorySearch {
  import opened Wrappers
  import opened MemoryStore
  import opened MemoryRecords
  import opened LexicalScoring
  import opened Numbers
  import Text
  import Ranking
  import Scores

  datatype Posting = Posting(memoryId: string, term: string, termFreq: int, tokenCount: int)

  datatype Scored = Scored(score: real, terms: seq<string>)

  function SetOf(s: seq<string>): set<string> {
    set x | x in s
  }

  /** The rows of the joined query: one for every stored term of a record that is among the wanted ones. */
  function PostingSet(c: Corpus, wanted: set<string>): set<Posting> {
    set id, t | id in c && t in wanted && t in c[id].freq :: Posting(id, t, c[id].freq[t], c[id].length)
  }

  ghost predicate PostingsOf(ps: seq<Posting>, c: Corpus, wanted: set<string>) {
    && (forall p :: p in ps ==> p in PostingSet(c, wanted))
    && (forall id, t :: id in c && t in wanted && t in c[id].freq ==> Posting(id, t, c[id].freq[t], c[id].length) in ps)
    && (forall i, j :: 0 <= i < j < |ps| ==> ps[i] != ps[j])
  }

  method ListPostings(c: Corpus, wanted: set<string>) returns (ps: seq<Posting>)
    ensures PostingsOf(ps, c, wanted)
  {
    var rows := PostingSet(c, wanted);
    ps := ListRows(rows);
    assert forall p :: p in ps <==> p in PostingSet(c, wanted);
  }

  method ListRows(all: set<Posting>) returns (ps: seq<Posting>)
    ensures Ranking.Enumerates(ps, all)
  {
    var rows := all;
    ps := [];
    while rows != {}
      invariant rows <= all
      invariant Ranking.Enumerates(ps, all - rows)
    {
      var p :| p in rows;
      assert p !in ps;
      ps := ps + [p];
      rows := rows - {p};
    }
    assert all - rows == all;
  }

  /** The number of records and their average token count, as the aggregate query returns them. */
  method CountRecords(c: Corpus) returns (docCount: nat, avg: real)
    requires Counted(c)
    ensures docCount == |c|
    ensures docCount > 0 ==> avg == AverageLength(c)
  {
    docCount := |c|;
    avg := 0.0;
    if docCount == 0 { return; }
    var total := 0;
    var todo := c.Keys;
    while todo != {}
      invariant todo <= c.Keys && total == LengthOver(c, c.Keys - todo)
    {
      var id :| id in todo;
      LengthWithout(c, c.Keys - (todo - {id}), id);
      assert c.Keys - (todo - {id}) - {id} == c.Keys - todo;
      total := total + c[id].length;
      todo := todo - {id};
    }
    assert c.Keys - todo == c.Keys;
    avg := total as real / docCount as real;
    if avg == 0.0 { avg := 1.0; }
  }

  ghost function DocsWith(ps: seq<Posting>, term: string): set<string> {
    set p | p in ps && p.term == term :: p.memoryId
  }

  lemma DocsWithNext(ps: seq<Posting>, i: nat)
    requires i < |ps|
    ensures forall t :: DocsWith(ps[..i + 1], t) == DocsWith(ps[..i], t) + if t == ps[i].term then {ps[i].memoryId} else {}
  {
    assert ps[..i + 1] == ps[..i] + [ps[i]];
  }

  ghost predicate CountedFor(docFreq: map<string, nat>, seenDocs: map<string, set<string>>, t: string, docs: set<string>) {
    if t !in docFreq then t !in seenDocs && docs == {}
    else t in seenDocs && seenDocs[t] == docs && docs != {} && docFreq[t] == |docs|
  }

  ghost predicate DocumentsCounted(docFreq: map<string, nat>, seenDocs: map<string, set<string>>, ps: seq<Posting>) {
    forall t :: CountedFor(docFreq, seenDocs, t, DocsWith(ps, t))
  }

  /** Counts, for every term, the distinct records among its rows. */
  method CountDocuments(ps: seq<Posting>) returns (docFreq: map<string, nat>)
    ensures forall p :: p in ps ==> p.term in docFreq && docFreq[p.term] == |DocsWith(ps, p.term)|
  {
    docFreq := map[];
    var seenDocs: map<string, set<string>> := map[];
    for i := 0 to |ps|
      invariant DocumentsCounted(docFreq, seenDocs, ps[..i])
    {
      docFreq, seenDocs := CountDocument(docFreq, seenDocs, ps, i);
    }
    assert ps[..|ps|] == ps;
    forall p | p in ps ensures p.term in docFreq && docFreq[p.term] == |DocsWith(ps, p.term)| {
      assert p.memoryId in DocsWith(ps, p.term);
      assert CountedFor(docFreq, seenDocs, p.term, DocsWith(ps, p.term));
    }
  }

  /** One row: the record counts for the term the first time it is seen with it. */
  method CountDocument(docFreq: map<string, nat>, seenDocs: map<string, set<string>>, ps: seq<Posting>, i: nat)
    returns (docFreq': map<string, nat>, seenDocs': map<string, set<string>>)
    requires i < |ps| && DocumentsCounted(docFreq, seenDocs, ps[..i])
    ensures DocumentsCounted(docFreq', seenDocs', ps[..i + 1])
  {
    docFreq', seenDocs' := docFreq, seenDocs;
    var p := ps[i];
    assert CountedFor(docFreq, seenDocs, p.term, DocsWith(ps[..i], p.term));
    if p.term !in seenDocs' {
      seenDocs' := seenDocs'[p.term := {}];
      docFreq' := docFreq'[p.term := 0];
    }
    if p.memoryId !in seenDocs'[p.term] {
      seenDocs' := seenDocs'[p.term := seenDocs'[p.term] + {p.memoryId}];
      docFreq' := docFreq'[p.term := docFreq'[p.term] + 1];
    }
    assert CountedFor(docFreq', seenDocs', p.term, DocsWith(ps[..i], p.term) + {p.memoryId});
    DocumentsCountedNext(docFreq, seenDocs, docFreq', seenDocs', ps, i);
  }

  lemma DocumentsCountedNext(docFreq: map<string, nat>, seenDocs: map<string, set<string>>,
                             docFreq': map<string, nat>, seenDocs': map<string, set<string>>, ps: seq<Posting>, i: nat)
    requires i < |ps| && DocumentsCounted(docFreq, seenDocs, ps[..i])
    requires CountedFor(docFreq', seenDocs', ps[i].term, DocsWith(ps[..i], ps[i].term) + {ps[i].memoryId})
    requires forall t :: t != ps[i].term ==> (t in docFreq' <==> t in docFreq) && (t in seenDocs' <==> t in seenDocs)
    requires forall t :: t != ps[i].term && t in docFreq ==> docFreq'[t] == docFreq[t]
    requires forall t :: t != ps[i].term && t in seenDocs ==> seenDocs'[t] == seenDocs[t]
    ensures DocumentsCounted(docFreq', seenDocs', ps[..i + 1])
  {
    DocsWithNext(ps, i);
    var before, prefix := ps[..i], ps[..i + 1];
    forall t ensures CountedFor(docFreq', seenDocs', t, DocsWith(prefix, t)) {
      assert CountedFor(docFreq, seenDocs, t, DocsWith(before, t));
    }
  }

  /** The distinct records among the rows of a term are the records that contain it. */
  lemma DocumentFrequencies(ps: seq<Posting>, c: Corpus, wanted: set<string>)
    requires PostingsOf(ps, c, wanted)
    ensures forall p :: p in ps ==> DocsWith(ps, p.term) == Containing(c, p.term)
  {
    forall p | p in ps ensures DocsWith(ps, p.term) == Containing(c, p.term) {
      assert p in PostingSet(c, wanted);
      forall id | id in Containing(c, p.term) ensures id in DocsWith(ps, p.term) {
        assert Posting(id, p.term, c[id].freq[p.term], c[id].length) in ps;
      }
      forall q | q in ps && q.term == p.term ensures q.memoryId in Containing(c, p.term) {
        assert q in PostingSet(c, wanted);
      }
    }
  }

  ghost function TermsOf(ps: seq<Posting>, id: string): set<string> {
    set p | p in ps && p.memoryId == id :: p.term
  }

  /** What the accumulated entry of `id` is once the terms `ts` of it have been added. */
  ghost predicate ScoredFor(candidates: map<string, Scored>, c: Corpus, id: string, ts: set<string>, ln: Log)
    requires Counted(c)
  {
    if id !in candidates then ts == {}
    else
      && ts != {} && id in c && ts <= c[id].freq.Keys
      && SetOf(candidates[id].terms) == ts
      && candidates[id].score == ScoreOver(c, id, ts, ln)
  }

  ghost predicate Accumulated(candidates: map<string, Scored>, ps: seq<Posting>, c: Corpus, ln: Log)
    requires Counted(c)
  {
    forall id :: ScoredFor(candidates, c, id, TermsOf(ps, id), ln)
  }

  /** Adds every row's term score to its record. */
  method ScorePostings(ps: seq<Posting>, docFreq: map<string, nat>, docCount: nat, avg: real, ln: Log,
                       ghost c: Corpus, ghost wanted: set<string>)
    returns (candidates: map<string, Scored>)
    requires Counted(c) && c != map[] && docCount == |c| && avg == AverageLength(c)
    requires PostingsOf(ps, c, wanted)
    requires forall p :: p in ps ==> p.term in docFreq && docFreq[p.term] == |Containing(c, p.term)|
    ensures Accumulated(candidates, ps, c, ln)
  {
    candidates := map[];
    for i := 0 to |ps|
      invariant Accumulated(candidates, ps[..i], c, ln)
    {
      var p := ps[i];
      assert p in PostingSet(c, wanted);
      var termScore := TermScore(docCount, docFreq[p.term], p.termFreq, p.tokenCount, avg, ln);
      assert termScore == ScoreIn(c, p.memoryId, p.term, ln);
      var existing := if p.memoryId in candidates then candidates[p.memoryId] else Scored(0.0, []);
      AccumulateNext(candidates, ps, i, c, wanted, ln);
      candidates := candidates[p.memoryId := Scored(existing.score + termScore, existing.terms + [p.term])];
    }
    assert ps[..|ps|] == ps;
  }

  lemma TermsOfNext(ps: seq<Posting>, i: nat, c: Corpus, wanted: set<string>)
    requires i < |ps| && PostingsOf(ps, c, wanted)
    ensures forall id :: id != ps[i].memoryId ==> TermsOf(ps[..i + 1], id) == TermsOf(ps[..i], id)
    ensures TermsOf(ps[..i + 1], ps[i].memoryId) == TermsOf(ps[..i], ps[i].memoryId) + {ps[i].term}
    ensures ps[i].term !in TermsOf(ps[..i], ps[i].memoryId)
  {
    var p := ps[i];
    assert ps[..i + 1] == ps[..i] + [p];
    forall q | q in ps[..i] && q.memoryId == p.memoryId ensures q.term != p.term {
      assert q in PostingSet(c, wanted) && p in PostingSet(c, wanted);
      var k :| 0 <= k < i && ps[k] == q;
    }
  }

  lemma AccumulateNext(candidates: map<string, Scored>, ps: seq<Posting>, i: nat, c: Corpus, wanted: set<string>, ln: Log)
    requires Counted(c) && i < |ps| && PostingsOf(ps, c, wanted) && Accumulated(candidates, ps[..i], c, ln)
    ensures ps[i] in PostingSet(c, wanted)
    ensures var p := ps[i];
            var existing := if p.memoryId in candidates then candidates[p.memoryId] else Scored(0.0, []);
            var next := Scored(existing.score + ScoreIn(c, p.memoryId, p.term, ln), existing.terms + [p.term]);
            Accumulated(candidates[p.memoryId := next], ps[..i + 1], c, ln)
  {
    var p := ps[i];
    assert p in PostingSet(c, wanted);
    var existing := if p.memoryId in candidates then candidates[p.memoryId] else Scored(0.0, []);
    var next := Scored(existing.score + ScoreIn(c, p.memoryId, p.term, ln), existing.terms + [p.term]);
    var after := candidates[p.memoryId := next];
    TermsOfNext(ps, i, c, wanted);
    var prefix := ps[..i + 1];
    forall id ensures ScoredFor(after, c, id, TermsOf(prefix, id), ln) {
      var before := TermsOf(ps[..i], id);
      assert ScoredFor(candidates, c, id, before, ln);
      if id == p.memoryId { ScoredForNext(candidates, c, id, before, p.term, ln); }
    }
  }

  lemma ScoredForNext(candidates: map<string, Scored>, c: Corpus, id: string, before: set<string>, t: string, ln: Log)
    requires Counted(c) && id in c && before <= c[id].freq.Keys && t in c[id].freq && t !in before
    requires ScoredFor(candidates, c, id, before, ln)
    ensures var existing := if id in candidates then candidates[id] else Scored(0.0, []);
            var next := Scored(existing.score + ScoreIn(c, id, t, ln), existing.terms + [t]);
            ScoredFor(candidates[id := next], c, id, before + {t}, ln)
  {
    var existing := if id in candidates then candidates[id] else Scored(0.0, []);
    OneMoreTerm(existing, Scored(existing.score + ScoreIn(c, id, t, ln), existing.terms + [t]), c, id, before, t, ln);
  }

  lemma OneMoreTerm(existing: Scored, next: Scored, c: Corpus, id: string, before: set<string>, t: string, ln: Log)
    requires Counted(c) && id in c && before <= c[id].freq.Keys && t in c[id].freq && t !in before
    requires SetOf(existing.terms) == before && existing.score == ScoreOver(c, id, before, ln)
    requires next == Scored(existing.score + ScoreIn(c, id, t, ln), existing.terms + [t])
    ensures SetOf(next.terms) == before + {t} && next.score == ScoreOver(c, id, before + {t}, ln)
  {
    ScoreWithout(c, id, before + {t}, t, ln);
    assert before + {t} - {t} == before;
  }

  function CandidateKey(c: Candidate): Ranking.Key {
    Ranking.Key(Scores.Finite(c.score), c.memoryId)
  }

  /** A candidate without the order of its matched terms, which follows the order of the rows. */
  function AsHit(c: Candidate): Hit {
    Hit(c.memoryId, c.score, SetOf(c.matchedTerms))
  }

  function AsHits(cs: seq<Candidate>): seq<Hit> {
    seq(|cs|, i requires 0 <= i < |cs| => AsHit(cs[i]))
  }

  // ---------- From accumulated scores to hits ----------

  lemma TermsAreMatched(ps: seq<Posting>, c: Corpus, wanted: set<string>, id: string)
    requires PostingsOf(ps, c, wanted)
    ensures TermsOf(ps, id) == if id in c then Matched(c, id, wanted) else {}
  {
    forall p | p in ps && p.memoryId == id ensures id in c && p.term in Matched(c, id, wanted) {
      assert p in PostingSet(c, wanted);
    }
    forall t | id in c && t in Matched(c, id, wanted) ensures t in TermsOf(ps, id) {
      assert Posting(id, t, c[id].freq[t], c[id].length) in ps;
    }
  }

  lemma {:induction false} DedupedWords(items: seq<string>)
    requires forall t :: t in items ==> t != "" && Text.Trim(t) == t
    ensures SetOf(Deduped(items)) == SetOf(items)
  {
    assert Trimmed(items) == items;
  }

  lemma CandidateIsHit(candidates: map<string, Scored>, ps: seq<Posting>, c: Corpus, wanted: set<string>, id: string, ln: Log)
    requires Counted(c) && PostingsOf(ps, c, wanted) && Accumulated(candidates, ps, c, ln) && id in candidates
    requires forall t :: t in wanted ==> t != "" && Text.Trim(t) == t
    ensures id in c && Matched(c, id, wanted) != {}
    ensures AsHit(Candidate(id, RoundTo4(candidates[id].score), Deduped(candidates[id].terms))) == HitFor(c, id, wanted, ln)
  {
    TermsAreMatched(ps, c, wanted, id);
    assert ScoredFor(candidates, c, id, TermsOf(ps, id), ln);
    forall t | t in candidates[id].terms ensures t in wanted {
      assert t in SetOf(candidates[id].terms);
    }
    DedupedWords(candidates[id].terms);
  }

  ghost function HitsOutside(c: Corpus, wanted: set<string>, todo: set<string>, ln: Log): set<Hit>
    requires Counted(c)
  {
    set id | id in c && id !in todo && Matched(c, id, wanted) != {} :: HitFor(c, id, wanted, ln)
  }

  lemma NothingMissed(candidates: map<string, Scored>, ps: seq<Posting>, c: Corpus, wanted: set<string>, ln: Log)
    requires Counted(c) && PostingsOf(ps, c, wanted) && Accumulated(candidates, ps, c, ln)
    ensures HitsOutside(c, wanted, candidates.Keys, ln) == {}
  {
    forall id | id in c && Matched(c, id, wanted) != {} ensures id in candidates {
      TermsAreMatched(ps, c, wanted, id);
      assert ScoredFor(candidates, c, id, TermsOf(ps, id), ln);
    }
  }

  lemma HitsOutsideNext(c: Corpus, wanted: set<string>, todo: set<string>, id: string, ln: Log)
    requires Counted(c) && id in todo && id in c && Matched(c, id, wanted) != {}
    ensures HitsOutside(c, wanted, todo - {id}, ln) == HitsOutside(c, wanted, todo, ln) + {HitFor(c, id, wanted, ln)}
    ensures HitFor(c, id, wanted, ln) !in HitsOutside(c, wanted, todo, ln)
  {
  }

  lemma {:induction false} InsertAsHits(x: Candidate, s: seq<Candidate>)
    ensures AsHits(Ranking.Insert(x, s, CandidateKey)) == Ranking.Insert(AsHit(x), AsHits(s), HitKey)
  {
    if s != [] {
      assert AsHits(s)[1..] == AsHits(s[1..]);
      InsertAsHits(x, s[1..]);
      assert forall t: seq<Candidate>, y :: AsHits([y] + t) == [AsHit(y)] + AsHits(t);
    }
  }

  lemma {:induction false} SortAsHits(s: seq<Candidate>)
    ensures AsHits(Ranking.Sort(s, CandidateKey)) == Ranking.Sort(AsHits(s), HitKey)
  {
    if s != [] {
      assert AsHits(s)[1..] == AsHits(s[1..]);
      SortAsHits(s[1..]);
      InsertAsHits(s[0], Ranking.Sort(s[1..], CandidateKey));
    }
  }

  lemma QueryTermsTrimmed(items: seq<string>)
    ensures forall t :: t in SetOf(Deduped(items)) ==> t != "" && Text.Trim(t) == t
  {
    forall t | t in Deduped(items) ensures Text.Trim(t) == t {
      var i :| 0 <= i < |items| && Text.Trim(items[i]) == t;
      TrimTwice(items[i]);
    }
  }

  /** The search returns exactly the hits of the collection the index shows; when the index agrees with the records,
      exactly those a scan of all record texts would find. */
  method SearchLexical(store: SqliteMemoryStore, queryTerms: seq<string>, limit: int, ln: Log)
    returns (results: seq<Candidate>)
    requires Stored(store.Snapshot())
    ensures Counted(IndexView(store.Snapshot())) && Counted(ScanView(store.Snapshot()))
    ensures AsHits(results) == Hits(IndexView(store.Snapshot()), SetOf(Deduped(queryTerms)), limit, ln)
    ensures IndexAgrees(store.Snapshot()) ==>
              AsHits(results) == Hits(ScanView(store.Snapshot()), SetOf(Deduped(queryTerms)), limit, ln)
    ensures Increasing(ln) ==> BestFitsFirst(IndexView(store.Snapshot()), SetOf(Deduped(queryTerms)), AsHits(results))
  {
    StoredIsCounted(store.Snapshot());
    AgreementIsScanView(store.Snapshot());
    results := SearchRows(IndexView(store.Snapshot()), queryTerms, limit, ln);
    if Increasing(ln) { HitsBestFirst(IndexView(store.Snapshot()), SetOf(Deduped(queryTerms)), limit, ln); }
  }

  lemma SortedCandidates(results: seq<Candidate>, c: Corpus, wanted: set<string>, ln: Log)
    requires Counted(c) && Ranking.Enumerates(AsHits(results), HitSet(c, wanted, ln))
    ensures AsHits(Ranking.Sort(results, CandidateKey)) == Ranking.SortedSet(HitSet(c, wanted, ln), HitKey)
  {
    HitsIdentified(c, wanted, ln);
    Ranking.SortOfListing(AsHits(results), HitSet(c, wanted, ln), HitKey);
    SortAsHits(results);
  }

  /** The search over the joined rows of memory_terms and memory_records. */
  method SearchRows(c: Corpus, queryTerms: seq<string>, limit: int, ln: Log) returns (results: seq<Candidate>)
    requires Counted(c)
    ensures AsHits(results) == Hits(c, SetOf(Deduped(queryTerms)), limit, ln)
  {
    var terms := DedupeTokens(queryTerms);
    ghost var wanted := SetOf(terms);
    if terms == [] || c == map[] {
      NoHits(c, wanted, limit, ln);
      return [];
    }
    QueryTermsTrimmed(queryTerms);
    results := ScoreRows(c, SetOf(terms), ln);
    SortedCandidates(results, c, wanted, ln);
    results := Ranking.Sort(results, CandidateKey);
    CutAsHits(results, limit);
    if limit > 0 && |results| > limit {
      results := results[..limit];
    }
  }

  lemma NoHits(c: Corpus, wanted: set<string>, limit: int, ln: Log)
    requires Counted(c) && (wanted == {} || c == map[])
    ensures Hits(c, wanted, limit, ln) == []
  {
    assert HitSet(c, wanted, ln) == {};
  }

  lemma CutAsHits(results: seq<Candidate>, limit: int)
    ensures AsHits(Limited(results, limit)) == Limited(AsHits(results), limit)
  {
  }

  /** The three passes: read the rows, count documents per term, add up the scores per record. */
  method ScoreRows(c: Corpus, wanted: set<string>, ln: Log) returns (results: seq<Candidate>)
    requires Counted(c) && c != map[] && forall t :: t in wanted ==> t != "" && Text.Trim(t) == t
    ensures Ranking.Enumerates(AsHits(results), HitSet(c, wanted, ln))
  {
    var docCount, avg := CountRecords(c);
    var ps := ListPostings(c, wanted);
    var docFreq := CountDocuments(ps);
    DocumentFrequencies(ps, c, wanted);
    var candidates := ScorePostings(ps, docFreq, docCount, avg, ln, c, wanted);
    results := CollectHits(candidates, c, wanted, ps, ln);
  }

  /** Rounds the scores and drops repeated terms, in whatever order the map is ranged over. */
  method CollectHits(candidates: map<string, Scored>, ghost c: Corpus, ghost wanted: set<string>,
                     ghost ps: seq<Posting>, ghost ln: Log)
    returns (results: seq<Candidate>)
    requires Counted(c) && PostingsOf(ps, c, wanted) && Accumulated(candidates, ps, c, ln)
    requires forall t :: t in wanted ==> t != "" && Text.Trim(t) == t
    ensures Ranking.Enumerates(AsHits(results), HitSet(c, wanted, ln))
  {
    results := [];
    var todo := candidates.Keys;
    NothingMissed(candidates, ps, c, wanted, ln);
    while todo != {}
      invariant todo <= candidates.Keys
      invariant Ranking.Enumerates(AsHits(results), HitsOutside(c, wanted, todo, ln))
    {
      var id :| id in todo;
      var matched := DedupeTokens(candidates[id].terms);
      var candidate := Candidate(id, RoundTo4(candidates[id].score), matched);
      CandidateIsHit(candidates, ps, c, wanted, id, ln);
      HitsOutsideNext(c, wanted, todo, id, ln);
      EnumerateNext(results, candidate, HitsOutside(c, wanted, todo, ln));
      results := results + [candidate];
      todo := todo - {id};
    }
    assert HitsOutside(c, wanted, {}, ln) == HitSet(c, wanted, ln);
  }

  lemma EnumerateNext(results: seq<Candidate>, x: Candidate, hits: set<Hit>)
    requires Ranking.Enumerates(AsHits(results), hits) && AsHit(x) !in hits
    ensures Ranking.Enumerates(AsHits(results + [x]), hits + {AsHit(x)})
  {
    assert AsHits(results + [x]) == AsHits(results) + [AsHit(x)];
  }
}
