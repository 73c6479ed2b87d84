/** What hybrid retrieval guarantees end to end, and what the constants of its scoring imply. */
module RetrievalGuarantees {
  import opened Wrappers
  import opened MemoryRecords
  import opened Numbers
  import opened Retrieval
  import opened RetrievalPipeline
  import Ranking
  import Text
  import opened Scores

  // ---------- The composition ----------

  ghost function Ranked(lexical: Results, semantic: Results, k: real, query: RetrievalQuery): Results
  {
    Reranked(Fused(lexical, semantic, k), query)
  }

  method Retrieve(lexical: Option<Results>, semantic: Option<Results>, k: real, query: RetrievalQuery, p: RejectionPolicy)
    returns (out: Option<Results>)
    ensures out.Some? <==> lexical.Some? && semantic.Some?
    ensures out.Some? ==>
              out.value == Selected(Rejected(p, query, Ranked(lexical.value, semantic.value, k, query)), query.topK)
  {
    if lexical.None? || semantic.None? { return None; }
    var fused := Fuse(lexical.value, semantic.value, k);
    var results := new RetrievalResult[|fused|](i requires 0 <= i < |fused| => fused[i]);
    assert results[..] == fused;
    Rerank(results, query);
    var judged := Reject(p, query, results);
    var selected := Select(judged, query.topK);
    return Some(selected);
  }

  /** The memories the workflow service passes on. */
  function HandedOn(results: Results): seq<MemoryRecord> {
    if results == [] then []
    else
      var n := |results| - 1;
      HandedOn(results[..n]) + if results[n].selected && results[n].memoryId != "" then [results[n].memory] else []
  }

  method RetrieveMemories(results: Results) returns (memories: seq<MemoryRecord>)
    ensures memories == HandedOn(results)
  {
    memories := [];
    for i := 0 to |results|
      invariant memories == HandedOn(results[..i])
    {
      assert results[..i + 1][..i] == results[..i];
      if !results[i].selected || results[i].memoryId == "" { continue; }
      memories := memories + [results[i].memory];
    }
    assert results[..|results|] == results;
  }

  // ---------- Candidates stay what they were ----------

  /** Retrievers hand over results that nobody has selected or rejected yet. */
  predicate Undecided(results: Results) {
    forall r :: r in results ==> !r.selected && !r.rejected
  }

  ghost predicate From(r: RetrievalResult, source: Results) {
    exists s :: s in source && s.memoryId == r.memoryId && s.memory == r.memory
                && s.selected == r.selected && s.rejected == r.rejected
  }

  lemma {:induction false} AccumulatedFrom(start: map<string, RetrievalResult>, results: Results, source: Source, k: real,
                                          all: Results)
    requires forall r :: r in results ==> r in all
    requires forall id :: id in start ==> From(start[id], all)
    ensures forall id :: id in Accumulated(start, results, source, k) ==> From(Accumulated(start, results, source, k)[id], all)
  {
    if results != [] {
      var n := |results| - 1;
      AccumulatedFrom(start, results[..n], source, k, all);
      assert results[n] in all;
    }
  }

  lemma FusedFrom(lexical: Results, semantic: Results, k: real)
    ensures forall r :: r in Fused(lexical, semantic, k) ==> From(r, lexical + semantic)
  {
    var all := lexical + semantic;
    AccumulatedFrom(map[], lexical, Lexical, Constant(k), all);
    AccumulatedFrom(Accumulated(map[], lexical, Lexical, Constant(k)), semantic, Semantic, Constant(k), all);
    CombinedKeyed(lexical, semantic, Constant(k));
    Ranking.SortedSetCorrect(Combined(lexical, semantic, Constant(k)).Values, ResultKey);
  }

  /** Reranking permutes a list of different results, boosting some. */
  lemma RerankedCorrect(fused: Results, query: RetrievalQuery)
    requires Ranking.DistinctIds(fused, ResultKey)
    ensures Ranking.DistinctIds(Reranked(fused, query), ResultKey) && Ranking.Sorted(Reranked(fused, query), ResultKey)
    ensures forall r :: r in Reranked(fused, query) <==> r in BoostAll(fused, QueryTokens(query))
  {
    var boosted, ranked := BoostAll(fused, QueryTokens(query)), Reranked(fused, query);
    Ranking.SortSorted(boosted, ResultKey);
    Ranking.DistinctIdsPermute(boosted, ranked, ResultKey);
    forall r ensures r in ranked <==> r in boosted {
      assert r in ranked <==> r in multiset(ranked);
      assert r in boosted <==> r in multiset(boosted);
    }
  }

  lemma BoostedIds(fused: Results, query: RetrievalQuery)
    requires Ranking.DistinctIds(fused, ResultKey)
    ensures Ids(Reranked(fused, query)) == Ids(fused)
    ensures forall r :: r in Reranked(fused, query) ==> exists f :: f in fused && r == Boosted(f, QueryTokens(query))
  {
    RerankedCorrect(fused, query);
    var boosted, ranked := BoostAll(fused, QueryTokens(query)), Reranked(fused, query);
    forall id | id in Ids(fused) ensures id in Ids(ranked) {
      var i :| 0 <= i < |fused| && fused[i].memoryId == id;
      assert boosted[i] in boosted && boosted[i].memoryId == id;
    }
    forall r | r in ranked ensures exists f :: f in fused && r == Boosted(f, QueryTokens(query)) {
      var i :| 0 <= i < |boosted| && boosted[i] == r;
      assert fused[i] in fused;
    }
  }

  /** The reranked list holds every candidate once, sorted; every entry is a fused one, possibly boosted. */
  lemma RankedCorrect(lexical: Results, semantic: Results, k: real, query: RetrievalQuery)
    ensures Ids(Ranked(lexical, semantic, k, query)) == Ids(lexical) + Ids(semantic)
    ensures Ranking.DistinctIds(Ranked(lexical, semantic, k, query), ResultKey)
    ensures Ranking.Sorted(Ranked(lexical, semantic, k, query), ResultKey)
    ensures forall r :: r in Ranked(lexical, semantic, k, query) ==>
              exists f :: f in Fused(lexical, semantic, k) && r == Boosted(f, QueryTokens(query))
  {
    FusedCorrect(lexical, semantic, k);
    RerankedCorrect(Fused(lexical, semantic, k), query);
    BoostedIds(Fused(lexical, semantic, k), query);
  }

  // ---------- Selection ----------

  function AcceptedMemories(results: Results): seq<MemoryRecord> {
    if results == [] then []
    else
      var n := |results| - 1;
      AcceptedMemories(results[..n]) + if Accepted(results[n]) then [results[n].memory] else []
  }

  predicate Unselected(results: Results) {
    forall r :: r in results ==> !r.selected
  }

  lemma SelectedTaken(results: Results, topK: int)
    requires Unselected(results) && !NoneAccepted(results)
    ensures TakenFrom(results, topK, Selected(results, topK))
  {
    forall i | 0 <= i < |results|
      ensures Selected(results, topK)[i] == results[i].(selected := Takes(results, i, topK))
    {
      assert results[i] in results;
    }
  }

  lemma LimitedNext<T>(s: seq<T>, x: T, topK: int)
    ensures Limited(s + [x], topK) == if topK <= 0 || |s| < topK then Limited(s, topK) + [x] else Limited(s, topK)
  {
  }

  lemma HandedOnNext(out: Results, n: nat)
    requires n < |out|
    ensures HandedOn(out[..n + 1])
         == HandedOn(out[..n]) + if out[n].selected && out[n].memoryId != "" then [out[n].memory] else []
    ensures AcceptedMemories(out[..n + 1]) == AcceptedMemories(out[..n]) + if Accepted(out[n]) then [out[n].memory] else []
  {
    assert out[..n + 1][..n] == out[..n];
  }

  lemma HandedOnStep(handed: seq<MemoryRecord>, accepted: seq<MemoryRecord>, topK: int, takes: bool, accepts: bool, m: MemoryRecord)
    requires handed == Limited(accepted, topK) && (takes <==> accepts && (topK > 0 ==> |accepted| < topK))
    ensures handed + (if takes then [m] else []) == Limited(accepted + if accepts then [m] else [], topK)
  {
    LimitedNext(accepted, m, topK);
    assert accepted + [] == accepted && handed + [] == handed;
  }

  /** `out` are the results with exactly the taken ones selected. */
  predicate TakenFrom(results: Results, topK: int, out: Results) {
    && |out| == |results|
    && forall i :: 0 <= i < |results| ==> out[i] == results[i].(selected := Takes(results, i, topK))
  }

  /** Entries selected among the first `n`. */
  lemma {:induction false} HandedOnPrefix(results: Results, topK: int, out: Results, n: nat)
    requires n <= |results| && TakenFrom(results, topK, out)
    ensures |AcceptedMemories(results[..n])| == AcceptedBefore(results, n)
    ensures HandedOn(out[..n]) == Limited(AcceptedMemories(results[..n]), topK)
  {
    if n > 0 {
      HandedOnPrefix(results, topK, out, n - 1);
      var r := results[n - 1];
      HandedOnNext(results, n - 1);
      HandedOnNext(out, n - 1);
      assert out[n - 1] == r.(selected := Takes(results, n - 1, topK));
      HandedOnStep(HandedOn(out[..n - 1]), AcceptedMemories(results[..n - 1]), topK,
                   Takes(results, n - 1, topK), Accepted(r), r.memory);
    } else {
      assert results[..0] == [] && out[..0] == [];
    }
  }

  lemma {:induction false} NothingHandedOn(results: Results)
    requires forall r :: r in results ==> !r.selected
    ensures HandedOn(results) == []
  {
    if results != [] {
      var n := |results| - 1;
      assert results[n] in results && forall r :: r in results[..n] ==> r in results;
      NothingHandedOn(results[..n]);
    }
  }

  lemma {:induction false} NothingAccepted(results: Results)
    requires NoneAccepted(results)
    ensures AcceptedMemories(results) == []
  {
    if results != [] {
      var n := |results| - 1;
      assert results[n] in results && forall r :: r in results[..n] ==> r in results;
      NothingAccepted(results[..n]);
    }
  }

  lemma NothingSelected(results: Results, topK: int)
    requires Unselected(results) && NoneAccepted(results) && results != []
    ensures HandedOn(Selected(results, topK)) == []
  {
    NothingHandedOn(Selected(results, topK));
  }

  /** The memories handed on are those of the first accepted entries, in order, up to the limit if there is one. */
  lemma SelectionIsFirstAccepted(results: Results, topK: int)
    requires Unselected(results)
    ensures HandedOn(Selected(results, topK)) == Limited(AcceptedMemories(results), topK)
  {
    if results == [] {
    } else if NoneAccepted(results) {
      NothingAccepted(results);
      NothingSelected(results, topK);
    } else {
      var out := Selected(results, topK);
      SelectedTaken(results, topK);
      HandedOnPrefix(results, topK, out, |results|);
      assert results[..|results|] == results && out[..|results|] == out;
    }
  }

  /** Selection moves nothing and loses nothing; it adds one entry exactly when all of at least one candidates are
      rejected; and it selects only accepted entries. */
  lemma SelectionKeepsCandidates(results: Results, topK: int)
    ensures |results| <= |Selected(results, topK)|
    ensures forall i :: 0 <= i < |results| ==>
              Selected(results, topK)[i] == results[i].(selected := Selected(results, topK)[i].selected)
    ensures Selected(results, topK)[|results|..] == if AllRejected(results) then [Sentinel("fully_rejected")] else []
    ensures Unselected(results) ==>
              forall i :: 0 <= i < |results| && Selected(results, topK)[i].selected ==> Accepted(results[i])
  {
    if AllRejected(results) {
      assert NoneAccepted(results) && results != [];
    }
  }

  /** The policy of a query lets the entry through. */
  predicate Meets(p: RejectionPolicy, query: RetrievalQuery, r: RetrievalResult) {
    var f, score := ResolvePolicy(p, query).freshness, if r.fusedScore == Finite(0.0) then r.score else r.fusedScore;
    && r.memoryId != ""
    && (score.Finite? ==> score.value >= Threshold(p, query))
    && (f.rejectLowConfidence ==> r.memory.confidence >= f.lowConfidenceFloor)
    && (r.memory.kind == EPISODIC && r.memory.updatedAt != 0 && f.episodicMaxAge > 0 ==>
          p.now - r.memory.updatedAt <= f.episodicMaxAge)
  }

  /** With nothing configured an entry is let through exactly when its score is at least 0.015, its confidence at least 0.7
      and, if it is an episodic memory, it is no older than 90 days. */
  lemma UnconfiguredMeets(p: RejectionPolicy, query: RetrievalQuery, r: RetrievalResult)
    requires p.minScore == 0.0 && p.policies == map[] && p.defaultPolicy.name == ""
    requires r.fusedScore.Finite? && r.fusedScore.value != 0.0 && r.memory.updatedAt != 0
    ensures Meets(p, query, r) <==>
              && r.memoryId != "" && r.fusedScore.value >= 0.015 && r.memory.confidence >= 0.7
              && (r.memory.kind == EPISODIC ==> p.now - r.memory.updatedAt <= 90 * DAY)
  {
    assert Fallback(query.freshnessPolicy, "default") != "" by {
      if !Text.Blank(query.freshnessPolicy) { assert query.freshnessPolicy != ""; }
    }
  }

  /** The policy a query is judged by: the one it names if there is one, else the default if there is one. */
  lemma PolicyChosen(p: RejectionPolicy, query: RetrievalQuery)
    ensures query.retrievalPolicy != "" && query.retrievalPolicy in p.policies ==>
              ResolvePolicy(p, query) == p.policies[query.retrievalPolicy]
    ensures (query.retrievalPolicy == "" || query.retrievalPolicy !in p.policies) && p.defaultPolicy.name != "" ==>
              ResolvePolicy(p, query) == p.defaultPolicy.(freshness := ResolvePolicy(p, query).freshness)
              && ResolvePolicy(p, query).freshness == p.defaultPolicy.freshness.(name := ResolvePolicy(p, query).freshness.name)
  {
  }

  /** The memories of the entries the policy lets through, in order. */
  function MeetingMemories(p: RejectionPolicy, query: RetrievalQuery, ranked: Results): seq<MemoryRecord> {
    if ranked == [] then []
    else
      var n := |ranked| - 1;
      MeetingMemories(p, query, ranked[..n]) + if Meets(p, query, ranked[n]) then [ranked[n].memory] else []
  }

  /** There are candidates, and the policy lets none of them through. */
  predicate NoneMeets(p: RejectionPolicy, query: RetrievalQuery, ranked: Results) {
    && (exists r :: r in ranked && r.memoryId != "")
    && (forall r :: r in ranked ==> !Meets(p, query, r))
  }

  /** What retrieval makes of a ranked list: it hands on the first memories the policy lets through, keeps every
      candidate, rejects exactly those the policy does not let through, and says so when nothing is left. */
  ghost predicate Guarantee(p: RejectionPolicy, query: RetrievalQuery, ranked: Results, out: Results) {
    && HandedOn(out) == Limited(MeetingMemories(p, query, ranked), query.topK)
    && |ranked| <= |out|
    && (forall i :: 0 <= i < |ranked| ==> SameCandidate(out[i], ranked[i]))
    && (forall i :: 0 <= i < |ranked| && ranked[i].memoryId != "" ==> (out[i].rejected <==> !Meets(p, query, ranked[i])))
    && (forall i :: 0 <= i < |ranked| && out[i].selected ==> Meets(p, query, ranked[i]))
    && out[|ranked|..] == (if ranked == [] then [Sentinel("empty_hit")]
                           else if NoneMeets(p, query, ranked) then [Sentinel("fully_rejected")] else [])
    && (forall r :: r in out ==> !(r.selected && r.rejected))
  }

  predicate SameCandidate(a: RetrievalResult, b: RetrievalResult) {
    a.memoryId == b.memoryId && a.memory == b.memory && a.score == b.score
  }

  /** Retrieval end to end, for retrievers that hand over undecided results: every memory handed on meets the score,
      confidence and age policy, they are the first such in reranked order, no candidate is lost, at most one sentinel is
      added, and nothing is both selected and rejected. */
  lemma RetrievalGuarantee(lexical: Results, semantic: Results, k: real, query: RetrievalQuery, p: RejectionPolicy)
    requires Undecided(lexical) && Undecided(semantic)
    ensures var ranked := Ranked(lexical, semantic, k, query);
            Guarantee(p, query, ranked, Selected(Rejected(p, query, ranked), query.topK))
  {
    RankedUndecided(lexical, semantic, k, query);
    GuaranteeOfRanked(Ranked(lexical, semantic, k, query), query, p);
  }

  lemma GuaranteeOfRanked(ranked: Results, query: RetrievalQuery, p: RejectionPolicy)
    requires Undecided(ranked)
    ensures Guarantee(p, query, ranked, Selected(Rejected(p, query, ranked), query.topK))
  {
    var judged := Rejected(p, query, ranked);
    var out := Selected(judged, query.topK);
    JudgedIs(ranked, query, p);
    SelectionIsFirstAccepted(judged, query.topK);
    SelectionKeepsCandidates(judged, query.topK);
    NeverBoth(judged, query.topK);
    if ranked == [] { NothingRanked(query, p); }
  }

  lemma NeverBoth(judged: Results, topK: int)
    requires Unselected(judged)
    ensures forall r :: r in Selected(judged, topK) ==> !(r.selected && r.rejected)
  {
    var out := Selected(judged, topK);
    SelectionKeepsCandidates(judged, topK);
    forall r | r in out ensures !(r.selected && r.rejected) {
      var i :| 0 <= i < |out| && out[i] == r;
      if i >= |judged| { assert out[|judged|..][i - |judged|] == r; }
    }
  }

  lemma NothingRanked(query: RetrievalQuery, p: RejectionPolicy)
    ensures Selected(Rejected(p, query, []), query.topK) == [Sentinel("empty_hit")]
    ensures AcceptedMemories(Rejected(p, query, [])) == []
  {
    var judged := Rejected(p, query, []);
    assert judged == [Sentinel("empty_hit")] && !Accepted(judged[0]);
    assert NoneAccepted(judged) && !AllRejected(judged);
    NothingAccepted(judged);
  }

  /** Judging decides each entry by the policy and changes nothing else that counts. */
  lemma JudgedIs(ranked: Results, query: RetrievalQuery, p: RejectionPolicy)
    requires Undecided(ranked)
    ensures var judged := Rejected(p, query, ranked);
            && Unselected(judged)
            && (ranked != [] ==>
                  && |judged| == |ranked|
                  && (forall i :: 0 <= i < |ranked| ==> JudgedAs(p, query, ranked[i], judged[i]))
                  && AcceptedMemories(judged) == MeetingMemories(p, query, ranked)
                  && (AllRejected(judged) <==> NoneMeets(p, query, ranked)))
  {
    var judged := Rejected(p, query, ranked);
    if ranked != [] {
      forall i | 0 <= i < |ranked| ensures JudgedAs(p, query, ranked[i], judged[i]) {
        assert ranked[i] in ranked;
        JudgedEntry(p, query, ranked[i]);
      }
      MeetingAccepted(p, query, ranked, judged);
      RejectedAll(p, query, ranked, judged);
    }
  }

  predicate JudgedAs(p: RejectionPolicy, query: RetrievalQuery, r: RetrievalResult, j: RetrievalResult) {
    && SameCandidate(j, r) && !j.selected && (Accepted(j) <==> Meets(p, query, r))
    && (r.memoryId != "" ==> (j.rejected <==> !Accepted(j)))
  }

  lemma JudgedEntry(p: RejectionPolicy, query: RetrievalQuery, r: RetrievalResult)
    requires !r.rejected && !r.selected
    ensures JudgedAs(p, query, r, Judged(Threshold(p, query), ResolvePolicy(p, query).freshness, p.now, r))
  {
    AcceptedIff(Threshold(p, query), ResolvePolicy(p, query).freshness, p.now, r);
  }

  lemma {:induction false} MeetingAccepted(p: RejectionPolicy, query: RetrievalQuery, ranked: Results, judged: Results)
    requires |judged| == |ranked| && forall i :: 0 <= i < |ranked| ==> JudgedAs(p, query, ranked[i], judged[i])
    ensures AcceptedMemories(judged) == MeetingMemories(p, query, ranked)
  {
    if ranked != [] { MeetingAccepted(p, query, ranked[..|ranked| - 1], judged[..|ranked| - 1]); }
  }

  lemma RejectedAll(p: RejectionPolicy, query: RetrievalQuery, ranked: Results, judged: Results)
    requires |judged| == |ranked| && forall i :: 0 <= i < |ranked| ==> JudgedAs(p, query, ranked[i], judged[i])
    ensures AllRejected(judged) <==> NoneMeets(p, query, ranked)
  {
    forall r | r in ranked ensures exists j :: j in judged && JudgedAs(p, query, r, j) {
      var i :| 0 <= i < |ranked| && ranked[i] == r;
      assert judged[i] in judged;
    }
    forall j | j in judged ensures exists r :: r in ranked && JudgedAs(p, query, r, j) {
      var i :| 0 <= i < |judged| && judged[i] == j;
      assert ranked[i] in ranked;
    }
  }

  lemma RankedUndecided(lexical: Results, semantic: Results, k: real, query: RetrievalQuery)
    requires Undecided(lexical) && Undecided(semantic)
    ensures Undecided(Ranked(lexical, semantic, k, query))
  {
    RankedCorrect(lexical, semantic, k, query);
    FusedFrom(lexical, semantic, k);
    forall r | r in Ranked(lexical, semantic, k, query) ensures !r.selected && !r.rejected {
      var f :| f in Fused(lexical, semantic, k) && r == Boosted(f, QueryTokens(query));
      assert From(f, lexical + semantic);
    }
  }

  /** Without preset flags, an entry is accepted exactly when its judged score, confidence and age satisfy the policy. */
  lemma AcceptedIff(threshold: real, f: FreshnessPolicy, now: int, r: RetrievalResult)
    requires !r.rejected
    ensures Accepted(Judged(threshold, f, now, r)) <==>
            r.memoryId != "" && !Below(JudgedScore(r), threshold) && !TooUncertain(f, r) && !TooOld(f, now, r)
  {
  }

  /** The age noted on an episodic entry is the number of whole days since its update. */
  lemma AgeInDays(threshold: real, f: FreshnessPolicy, now: int, r: RetrievalResult)
    requires !Below(JudgedScore(r), threshold) && !(f.rejectLowConfidence && r.memory.confidence < f.lowConfidenceFloor)
    requires r.memory.kind == EPISODIC && f.episodicMaxAge > 0 && r.memory.updatedAt != 0 && r.memory.updatedAt <= now
    ensures var days := Judged(threshold, f, now, r).freshnessAgeDays;
            days * DAY <= now - r.memory.updatedAt < (days + 1) * DAY
  {
  }

  // ---------- Where the scores of a fused entry come from ----------

  function SourceScore(r: RetrievalResult, source: Source): Score {
    match source
    case Lexical => r.lexicalScore
    case Semantic => r.semanticScore
  }

  lemma AbsorbedSource(c: map<string, RetrievalResult>, r: RetrievalResult, weight: Score, source: Source, other: Source)
    ensures SourceScore(Absorbed(c, r, weight, source), source) == r.score
    ensures other != source && r.memoryId in c ==>
              SourceScore(Absorbed(c, r, weight, source), other) == SourceScore(c[r.memoryId], other)
  {
  }

  predicate LeftBy(c: map<string, RetrievalResult>, r: RetrievalResult, source: Source) {
    r.memoryId in c && SourceScore(c[r.memoryId], source) == r.score
  }

  predicate KeptFrom(start: map<string, RetrievalResult>, c: map<string, RetrievalResult>, id: string, source: Source) {
    id in start ==> id in c && forall other :: other != source ==> SourceScore(c[id], other) == SourceScore(start[id], other)
  }

  lemma SourceNext(start: map<string, RetrievalResult>, before: map<string, RetrievalResult>, r: RetrievalResult, weight: Score,
                   source: Source, id: string, x: RetrievalResult)
    requires KeptFrom(start, before, id, source)
    ensures var c := before[r.memoryId := Absorbed(before, r, weight, source)];
            && KeptFrom(start, c, id, source) && LeftBy(c, r, source)
            && (LeftBy(before, x, source) && x.memoryId != r.memoryId ==> LeftBy(c, x, source))
  {
    forall other: Source { AbsorbedSource(before, r, weight, source, other); }
  }

  /** Every entry of a list without duplicates leaves its score under the name of the list, and nothing else under another. */
  lemma {:induction false} AccumulatedSource(start: map<string, RetrievalResult>, results: Results, source: Source, k: real,
                                            id: string, r: RetrievalResult)
    requires NoDuplicates(results)
    ensures KeptFrom(start, Accumulated(start, results, source, k), id, source)
    ensures r in results ==> LeftBy(Accumulated(start, results, source, k), r, source)
  {
    if results != [] {
      var n := |results| - 1;
      AccumulatedSource(start, results[..n], source, k, id, r);
      assert results == results[..n] + [results[n]];
      SourceNext(start, Accumulated(start, results[..n], source, k), results[n], Weight(k, n), source, id, r);
    }
  }

  /** A fused entry keeps the score each list gave it. */
  lemma FusedSources(lexical: Results, semantic: Results, k: real, f: RetrievalResult)
    requires NoDuplicates(lexical) && NoDuplicates(semantic) && f in Fused(lexical, semantic, k)
    ensures forall r :: r in lexical && r.memoryId == f.memoryId ==> f.lexicalScore == r.score
    ensures forall r :: r in semantic && r.memoryId == f.memoryId ==> f.semanticScore == r.score
  {
    var first, c := Accumulated(map[], lexical, Lexical, Constant(k)), Combined(lexical, semantic, Constant(k));
    CombinedKeyed(lexical, semantic, Constant(k));
    Ranking.SortedSetCorrect(c.Values, ResultKey);
    assert f in c.Values && c[f.memoryId] == f;
    forall r | r in lexical && r.memoryId == f.memoryId ensures f.lexicalScore == r.score {
      AccumulatedSource(map[], lexical, Lexical, Constant(k), r.memoryId, r);
      AccumulatedSource(first, semantic, Semantic, Constant(k), r.memoryId, r);
      assert SourceScore(f, Lexical) == SourceScore(first[r.memoryId], Lexical);
    }
    forall r | r in semantic && r.memoryId == f.memoryId ensures f.semanticScore == r.score {
      AccumulatedSource(first, semantic, Semantic, Constant(k), r.memoryId, r);
      assert SourceScore(f, Semantic) == r.score;
    }
  }

  // ---------- What the constants imply ----------

  predicate NoDuplicates(results: Results) {
    forall i, j :: 0 <= i < j < |results| ==> results[i].memoryId != results[j].memoryId
  }

  /** The weight of the last of `n` ranks at the default constant. */
  function LowestWeight(n: nat): real { 1.0 / (60.0 + n as real) }

  function HighestWeight(): real { 1.0 / 61.0 }

  /** In a list without duplicates an id has the weight of its one rank, or none. */
  lemma {:induction false} ShareOfRank(results: Results, id: string, n: nat)
    requires NoDuplicates(results) && |results| <= n
    ensures id !in Ids(results) ==> Share(results, id, 60.0) == Finite(0.0)
    ensures id in Ids(results) ==> Between(LowestWeight(n), Share(results, id, 60.0), HighestWeight())
  {
    if results != [] {
      var last := |results| - 1;
      IdsNext(results);
      ShareOfRank(results[..last], id, n);
      WeightBounds(last, n);
      if results[last].memoryId == id {
        forall r | r in results[..last] ensures r.memoryId != id {
        }
      }
    }
  }

  lemma WeightBounds(rank: nat, n: nat)
    requires rank < n
    ensures Between(LowestWeight(n), Weight(60.0, rank), HighestWeight())
  {
    ReciprocalMonotone(60.0 + (rank + 1) as real, 60.0 + n as real);
    ReciprocalMonotone(61.0, 60.0 + (rank + 1) as real);
  }

  lemma ReciprocalMonotone(a: real, b: real)
    requires 0.0 < a <= b
    ensures 1.0 / b <= 1.0 / a
  {
    assert 1.0 / a - 1.0 / b == (b - a) / (a * b);
  }

  lemma FusedScore(lexical: Results, semantic: Results, f: RetrievalResult)
    requires f in Fused(lexical, semantic, 0.0)
    ensures f.fusedScore == f.score && (f.memoryId in Ids(lexical) || f.memoryId in Ids(semantic))
    ensures f.score == Plus(Share(lexical, f.memoryId, 60.0), Share(semantic, f.memoryId, 60.0))
  {
    FusedCorrect(lexical, semantic, 0.0);
    assert f.memoryId in Ids(Fused(lexical, semantic, 0.0));
  }

  lemma FusedEntry(lexical: Results, semantic: Results, id: string) returns (f: RetrievalResult)
    requires id in Ids(lexical) + Ids(semantic)
    ensures f in Fused(lexical, semantic, 0.0) && f.memoryId == id
  {
    FusedCorrect(lexical, semantic, 0.0);
    f :| f in Fused(lexical, semantic, 0.0) && f.memoryId == id;
  }

  lemma TwoShares(low: real, inA: bool, a: Score, inB: bool, b: Score)
    requires 0.0 < low && (inA || inB)
    requires if inA then Between(low, a, HighestWeight()) else a == Finite(0.0)
    requires if inB then Between(low, b, HighestWeight()) else b == Finite(0.0)
    ensures Between(low, Plus(a, b), 2.0 / 61.0)
  {
  }

  /** With the default constant and lists of at most `n` different results, a fused score lies between 1/(60+n) and 2/61. */
  lemma FusedBounds(lexical: Results, semantic: Results, n: nat, f: RetrievalResult)
    requires NoDuplicates(lexical) && NoDuplicates(semantic) && |lexical| <= n && |semantic| <= n
    requires f in Fused(lexical, semantic, 0.0)
    ensures f.fusedScore == f.score && 0.0 < LowestWeight(n) && Between(LowestWeight(n), f.fusedScore, 2.0 / 61.0)
  {
    var id, low := f.memoryId, LowestWeight(n);
    FusedScore(lexical, semantic, f);
    ShareBetween(lexical, id, n, low);
    ShareBetween(semantic, id, n, low);
    LowestPositive(n);
    var a, b := Share(lexical, id, 60.0), Share(semantic, id, 60.0);
    TwoShares(low, id in Ids(lexical), a, id in Ids(semantic), b);
    assert f.score == Plus(a, b);
  }

  lemma LowestPositive(n: nat)
    ensures LowestWeight(n) > 0.0
  {
    ReciprocalPositive(60.0 + n as real);
  }

  lemma ShareBetween(results: Results, id: string, n: nat, low: real)
    requires NoDuplicates(results) && |results| <= n && low == LowestWeight(n)
    ensures if id in Ids(results) then Between(low, Share(results, id, 60.0), HighestWeight())
            else Share(results, id, 60.0) == Finite(0.0)
  {
    ShareOfRank(results, id, n);
  }

  lemma ReciprocalPositive(a: real)
    requires a > 0.0
    ensures 1.0 / a > 0.0
  {
  }

  lemma BoostedBefore(lexical: Results, semantic: Results, query: RetrievalQuery, i: nat, j: nat)
    requires NoDuplicates(lexical) && NoDuplicates(semantic)
    requires i < |Ranked(lexical, semantic, 0.0, query)| && j < |Ranked(lexical, semantic, 0.0, query)|
    requires Boosts(Ranked(lexical, semantic, 0.0, query)[i], QueryTokens(query))
    requires !Boosts(Ranked(lexical, semantic, 0.0, query)[j], QueryTokens(query))
    ensures i < j
  {
    var ranked := Ranked(lexical, semantic, 0.0, query);
    RankedCorrect(lexical, semantic, 0.0, query);
    RankedScore(lexical, semantic, query, i);
    RankedScore(lexical, semantic, query, j);
    assert Ranking.Before(ResultKey(ranked[i]), ResultKey(ranked[j]));
  }

  /** A summary that mentions every word of the query outranks every one that does not. */
  lemma BoostedFirst(lexical: Results, semantic: Results, query: RetrievalQuery, i: nat, j: nat)
    requires NoDuplicates(lexical) && NoDuplicates(semantic)
    requires i < |Ranked(lexical, semantic, 0.0, query)| && j < |Ranked(lexical, semantic, 0.0, query)|
    requires MentionsAll(query, Ranked(lexical, semantic, 0.0, query)[i].memory.summary)
    requires !MentionsAll(query, Ranked(lexical, semantic, 0.0, query)[j].memory.summary)
    ensures i < j
  {
    BoostsIff(Ranked(lexical, semantic, 0.0, query)[i], query);
    BoostsIff(Ranked(lexical, semantic, 0.0, query)[j], query);
    BoostedBefore(lexical, semantic, query, i, j);
  }

  lemma RankedScore(lexical: Results, semantic: Results, query: RetrievalQuery, i: nat)
    requires NoDuplicates(lexical) && NoDuplicates(semantic)
    requires i < |Ranked(lexical, semantic, 0.0, query)|
    ensures var r := Ranked(lexical, semantic, 0.0, query)[i];
            r.score.Finite? && if Boosts(r, QueryTokens(query)) then r.score.value > 0.2 else r.score.value < 0.1
  {
    var ranked := Ranked(lexical, semantic, 0.0, query);
    RankedCorrect(lexical, semantic, 0.0, query);
    assert ranked[i] in ranked;
    var f :| f in Fused(lexical, semantic, 0.0) && ranked[i] == Boosted(f, QueryTokens(query));
    var low := FusedBetween(lexical, semantic, f);
    BoostedScore(low, f, QueryTokens(query));
  }

  lemma FusedBetween(lexical: Results, semantic: Results, f: RetrievalResult) returns (low: real)
    requires NoDuplicates(lexical) && NoDuplicates(semantic) && f in Fused(lexical, semantic, 0.0)
    ensures low > 0.0 && Between(low, f.score, 2.0 / 61.0)
  {
    var n := |lexical| + |semantic|;
    FusedBounds(lexical, semantic, n, f);
    low := LowestWeight(n);
  }

  lemma BoostedScore(low: real, f: RetrievalResult, tokens: seq<string>)
    requires low > 0.0 && Between(low, f.score, 2.0 / 61.0)
    ensures var r := Boosted(f, tokens);
            (Boosts(r, tokens) <==> Boosts(f, tokens))
            && r.score.Finite? && if Boosts(f, tokens) then r.score.value > 0.2 else r.score.value < 0.1
  {
    assert 2.0 / 61.0 < 0.1;
  }

  /** The boost moves a result but never saves it: whether and why it is rejected is decided as without the boost. */
  lemma RejectionIgnoresBoost(threshold: real, f: FreshnessPolicy, now: int, r: RetrievalResult, tokens: seq<string>)
    requires r.fusedScore != Finite(0.0)
    ensures Judged(threshold, f, now, Boosted(r, tokens)).rejected == Judged(threshold, f, now, r).rejected
    ensures Judged(threshold, f, now, Boosted(r, tokens)).rejectionRule == Judged(threshold, f, now, r).rejectionRule
    ensures Judged(threshold, f, now, Boosted(r, tokens)).fusedScore == Judged(threshold, f, now, r).fusedScore
  {
  }

  /** How many results each retriever is asked for. */
  function CandidateWindow(topK: int): (n: nat) {
    if topK <= 0 then 8 else if topK < 3 then topK + 5 else MaxInt(topK * 3, topK + 4)
  }

  /** Two lists a retriever may return within the window, and one of their fused entries. */
  ghost predicate WithinWindow(lexical: Results, semantic: Results, topK: int, f: RetrievalResult) {
    && NoDuplicates(lexical) && NoDuplicates(semantic)
    && |lexical| <= CandidateWindow(topK) && |semantic| <= CandidateWindow(topK)
    && f in Fused(lexical, semantic, 0.0)
  }

  ghost predicate NeverTooWeak(topK: int) {
    forall lexical: Results, semantic: Results, f :: WithinWindow(lexical, semantic, topK, f) ==> !TooWeak(0.01, f)
  }

  /** With the service's threshold of 0.01 the weak-score rule can fire exactly when more than 13 results are wanted. */
  lemma NeverTooWeakIff(topK: int)
    ensures NeverTooWeak(topK) <==> topK <= 13
  {
    if topK <= 13 {
      forall lexical: Results, semantic: Results, f | WithinWindow(lexical, semantic, topK, f) ensures !TooWeak(0.01, f) {
        StrongEnough(lexical, semantic, topK, f);
      }
    } else {
      var lexical, f := LastCandidateTooWeak(41);
      TooWeakWithin(lexical, topK, f);
    }
  }

  lemma TooWeakWithin(lexical: Results, topK: int, f: RetrievalResult)
    requires topK > 13 && |lexical| == 42 && NoDuplicates(lexical)
    requires f in Fused(lexical, [], 0.0) && TooWeak(0.01, f)
    ensures !NeverTooWeak(topK)
  {
    assert WithinWindow(lexical, [], topK, f);
  }

  lemma WindowAtMost(topK: int)
    requires topK <= 13
    ensures CandidateWindow(topK) <= 39
  {
  }

  lemma NotWeak(f: RetrievalResult)
    requires Between(LowestWeight(39), f.fusedScore, 2.0 / 61.0)
    ensures !TooWeak(0.01, f)
  {
    assert LowestWeight(39) == 1.0 / 99.0 > 0.01;
  }

  lemma StrongEnough(lexical: Results, semantic: Results, topK: int, f: RetrievalResult)
    requires topK <= 13 && WithinWindow(lexical, semantic, topK, f)
    ensures !TooWeak(0.01, f)
  {
    WindowAtMost(topK);
    FusedBounds(lexical, semantic, 39, f);
    NotWeak(f);
  }

  function Nth(i: nat): string { seq(i, _ => 'a') }

  function Candidate(i: nat): RetrievalResult { Sentinel("").(memoryId := Nth(i), rejected := false) }

  function Candidates(n: nat): (r: Results)
    ensures |r| == n
  {
    if n == 0 then [] else Candidates(n - 1) + [Candidate(n - 1)]
  }

  lemma {:induction false} CandidatesDiffer(n: nat)
    ensures NoDuplicates(Candidates(n)) && forall r :: r in Candidates(n) ==> |r.memoryId| < n
  {
    if n > 0 { CandidatesDiffer(n - 1); }
  }

  lemma LastShare(n: nat)
    ensures Nth(n) in Ids(Candidates(n + 1))
    ensures Share(Candidates(n + 1), Nth(n), 60.0) == Weight(60.0, n)
  {
    var lexical, before, id := Candidates(n + 1), Candidates(n), Nth(n);
    assert lexical[n] == Candidate(n) && lexical[n] in lexical && lexical[..n] == before;
    CandidatesDiffer(n);
    ShareNext(lexical, id, 60.0);
    assert id !in Ids(before) by {
      forall r | r in before ensures r.memoryId != id { assert |id| == n; }
    }
    NoShareOutside(before, id, 60.0);
  }

  lemma WeakWeight(n: nat)
    requires n >= 41
    ensures Weight(60.0, n).Finite? && 0.0 < Weight(60.0, n).value < 0.01
  {
    ReciprocalMonotone(102.0, 60.0 + (n + 1) as real);
    ReciprocalPositive(60.0 + (n + 1) as real);
    assert 1.0 / 102.0 < 0.01;
  }

  lemma Weak(f: RetrievalResult)
    requires f.fusedScore.Finite? && 0.0 < f.fusedScore.value < 0.01
    ensures TooWeak(0.01, f)
  {
  }

  /** The last of more than 41 candidates of a single list scores less than 0.01. */
  lemma LastCandidateTooWeak(n: nat) returns (lexical: Results, f: RetrievalResult)
    requires n >= 41
    ensures NoDuplicates(lexical) && |lexical| == n + 1
    ensures f in Fused(lexical, [], 0.0) && TooWeak(0.01, f)
  {
    lexical := Candidates(n + 1);
    CandidatesDiffer(n + 1);
    LastShare(n);
    f := FusedEntry(lexical, [], Nth(n));
    FusedScore(lexical, [], f);
    assert f.score == Plus(Weight(60.0, n), Share([], Nth(n), 60.0));
    WeakWeight(n);
    Weak(f);
  }
}
