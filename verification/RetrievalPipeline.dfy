/** The rest of hybrid retrieval after fusion: rerank, reject and select in place, and the hand-over to the workflow. */
module RetrievalPipeline {
  import opened MemoryRecords
  import opened Retrieval
  import Text
  import Ranking
  import opened Scores

  // ---------- Rerank ----------

  function QueryTokens(query: RetrievalQuery): seq<string> {
    Deduped(query.lexicalTerms + Deduped(Text.Tokens(query.text)))
  }

  /** The query asks for the word: it is a token of the text, or a lexical term without the spaces around it. */
  ghost predicate AsksFor(query: RetrievalQuery, w: string) {
    w in Text.Tokens(query.text) || (w != "" && exists l :: l in query.lexicalTerms && Text.Trim(l) == w)
  }

  /** The tokens of a query are the words it asks for, each once. */
  lemma QueryTokensIff(query: RetrievalQuery)
    ensures forall w :: w in QueryTokens(query) <==> AsksFor(query, w)
    ensures forall i, j :: 0 <= i < j < |QueryTokens(query)| ==> QueryTokens(query)[i] != QueryTokens(query)[j]
  {
    var words := Text.Tokens(query.text);
    WordsKept(words);
    var parts := query.lexicalTerms + Deduped(words);
    forall w ensures w in Trimmed(parts) <==> (exists l :: l in query.lexicalTerms && Text.Trim(l) == w) || w in words {
      TrimmedIff(parts, w);
      forall v | v in Deduped(words) ensures Text.Trim(v) == v { Text.TrimKeepsWords(v); }
    }
    forall w | w in words ensures w != "" { Text.TrimKeepsWords(w); }
  }

  lemma TrimmedIff(items: seq<string>, w: string)
    ensures w in Trimmed(items) <==> exists l :: l in items && Text.Trim(l) == w
  {
    if l :| l in items && Text.Trim(l) == w {
      var i :| 0 <= i < |items| && items[i] == l;
      assert Trimmed(items)[i] == w;
    }
  }

  lemma WordsKept(words: seq<string>)
    requires forall w :: w in words ==> Text.IsWord(w)
    ensures forall w :: w in Deduped(words) <==> w in words
  {
    forall w ensures w in Trimmed(words) <==> w in words {
      TrimmedIff(words, w);
      forall v | v in words ensures Text.Trim(v) == v { Text.TrimKeepsWords(v); }
    }
    forall w | w in words ensures w != "" { assert Text.IsWord(w); }
  }

  /** The text mentions every word the query asks for, and there is one. */
  ghost predicate MentionsAll(query: RetrievalQuery, text: string) {
    && (exists w :: AsksFor(query, w))
    && (forall w :: AsksFor(query, w) ==> Text.Contains(Text.Lower(text), w))
  }

  /** What the boost is given for. */
  lemma BoostsIff(r: RetrievalResult, query: RetrievalQuery)
    ensures Boosts(r, QueryTokens(query)) <==> MentionsAll(query, r.memory.summary)
  {
    QueryTokensIff(query);
    if QueryTokens(query) != [] { assert AsksFor(query, QueryTokens(query)[0]) by { assert QueryTokens(query)[0] in QueryTokens(query); } }
  }

  predicate ContainsAll(text: string, tokens: seq<string>) {
    tokens != [] && forall t :: t in tokens ==> Text.Contains(text, t)
  }

  predicate Boosts(r: RetrievalResult, tokens: seq<string>) {
    ContainsAll(Text.Lower(r.memory.summary), tokens)
  }

  function Boosted(r: RetrievalResult, tokens: seq<string>): RetrievalResult {
    if Boosts(r, tokens) then r.(score := Plus(r.score, Finite(0.2)), reason := r.reason + "+summary_boost") else r
  }

  function BoostAll(results: Results, tokens: seq<string>): Results {
    seq(|results|, i requires 0 <= i < |results| => Boosted(results[i], tokens))
  }

  function Reranked(results: Results, query: RetrievalQuery): Results {
    Ranking.Sort(BoostAll(results, QueryTokens(query)), ResultKey)
  }

  method SortResults(results: array<RetrievalResult>)
    modifies results
    ensures results[..] == Ranking.Sort(old(results[..]), ResultKey)
  {
    var sorted := Ranking.Sort(results[..], ResultKey);
    for i := 0 to results.Length
      invariant results[..i] == sorted[..i]
    {
      results[i] := sorted[i];
    }
    assert results[..] == results[..results.Length] == sorted[..|sorted|] == sorted;
  }

  method Rerank(results: array<RetrievalResult>, query: RetrievalQuery)
    modifies results
    ensures results[..] == Reranked(old(results[..]), query)
  {
    var tokens := QueryTokens(query);
    ghost var before := results[..];
    for i := 0 to results.Length
      invariant forall k :: 0 <= k < results.Length ==> results[k] == if k < i then Boosted(before[k], tokens) else before[k]
    {
      BoostEntry(results, i, tokens);
    }
    assert results[..] == BoostAll(before, tokens);
    SortResults(results);
  }

  method BoostEntry(results: array<RetrievalResult>, i: nat, tokens: seq<string>)
    requires i < results.Length
    modifies results
    ensures results[i] == Boosted(old(results[i]), tokens)
    ensures forall k :: 0 <= k < results.Length && k != i ==> results[k] == old(results[k])
  {
    if ContainsAll(Text.Lower(results[i].memory.summary), tokens) {
      results[i] := results[i].(score := Plus(results[i].score, Finite(0.2)), reason := results[i].reason + "+summary_boost");
    }
  }

  // ---------- Reject ----------

  const DEFAULT_EPISODIC_AGE := 90 * 24 * 3600 * 1000000000
  const DAY := 24 * 3600 * 1000000000

  function Fallback(value: string, fallback: string): string {
    if Text.Blank(value) then fallback else value
  }

  function ResolvePolicy(p: RejectionPolicy, query: RetrievalQuery): RetrievalPolicy {
    if query.retrievalPolicy != "" && query.retrievalPolicy in p.policies then p.policies[query.retrievalPolicy]
    else
      var chosen :=
        if p.defaultPolicy.name != "" then p.defaultPolicy
        else RetrievalPolicy("default", FreshnessPolicy(Fallback(query.freshnessPolicy, "default"), DEFAULT_EPISODIC_AGE,
                                                        true, 0.7, p.minScore));
      if chosen.freshness.name != "" then chosen
      else chosen.(freshness := chosen.freshness.(name := Fallback(query.freshnessPolicy, "default")))
  }

  function Threshold(p: RejectionPolicy, query: RetrievalQuery): real {
    var accepted := ResolvePolicy(p, query).freshness.minAcceptedFusedScore;
    if accepted > 0.0 then accepted else if p.minScore == 0.0 then 0.015 else p.minScore
  }

  function TruncatedDays(age: int): int {
    if age >= 0 then age / DAY else -(-age / DAY)
  }

  /** The fused score that is judged; an absent one is replaced by the current score. */
  function JudgedScore(r: RetrievalResult): Score {
    if r.fusedScore == Finite(0.0) then r.score else r.fusedScore
  }

  predicate TooWeak(threshold: real, r: RetrievalResult) {
    Below(JudgedScore(r), threshold)
  }

  predicate TooUncertain(f: FreshnessPolicy, r: RetrievalResult) {
    f.rejectLowConfidence && r.memory.confidence < f.lowConfidenceFloor
  }

  predicate HasAge(f: FreshnessPolicy, r: RetrievalResult) {
    f.episodicMaxAge > 0 && r.memory.kind == EPISODIC && r.memory.updatedAt != 0
  }

  predicate TooOld(f: FreshnessPolicy, now: int, r: RetrievalResult) {
    HasAge(f, r) && now - r.memory.updatedAt > f.episodicMaxAge
  }

  function Judged(threshold: real, f: FreshnessPolicy, now: int, r: RetrievalResult): RetrievalResult {
    var scored := r.(fusedScore := JudgedScore(r));
    if TooWeak(threshold, r) then scored.(rejected := true, rejectionRule := "low_fused_score")
    else if TooUncertain(f, r) then scored.(rejected := true, rejectionRule := "low_confidence")
    else
      var aged := if HasAge(f, r) then scored.(freshnessAgeDays := TruncatedDays(now - r.memory.updatedAt)) else scored;
      if TooOld(f, now, r) then aged.(rejected := true, rejectionRule := "stale_episodic") else aged
  }

  function JudgeAll(threshold: real, f: FreshnessPolicy, now: int, results: Results): Results {
    seq(|results|, i requires 0 <= i < |results| => Judged(threshold, f, now, results[i]))
  }

  const NO_MEMORY := MemoryRecord("", "", "", [], [], "", "", 0.0, "", 0, 0, [], [], [])

  /** An entry that stands for no memory but says why there is none. */
  function Sentinel(rule: string): RetrievalResult {
    RetrievalResult("", Finite(0.0), Finite(0.0), Finite(0.0), Finite(0.0), "", true, rule, false, [], 0, NO_MEMORY)
  }

  function Rejected(p: RejectionPolicy, query: RetrievalQuery, results: Results): Results {
    if results == [] then [Sentinel("empty_hit")]
    else JudgeAll(Threshold(p, query), ResolvePolicy(p, query).freshness, p.now, results)
  }

  method Reject(p: RejectionPolicy, query: RetrievalQuery, results: array<RetrievalResult>)
    returns (out: array<RetrievalResult>)
    modifies results
    ensures out[..] == Rejected(p, query, old(results[..]))
    ensures out == results || fresh(out)
  {
    var threshold := if p.minScore == 0.0 then 0.015 else p.minScore;
    var policy := ResolvePolicy(p, query);
    if policy.freshness.minAcceptedFusedScore > 0.0 {
      threshold := policy.freshness.minAcceptedFusedScore;
    }
    var f := policy.freshness;
    ghost var before := results[..];
    for i := 0 to results.Length
      invariant forall k :: 0 <= k < results.Length ==>
                  results[k] == if k < i then Judged(threshold, f, p.now, before[k]) else before[k]
    {
      JudgeEntry(results, i, threshold, f, p.now);
    }
    assert results[..] == JudgeAll(threshold, f, p.now, before);
    if results.Length == 0 {
      out := new RetrievalResult[1](_ => Sentinel("empty_hit"));
      return;
    }
    out := results;
  }

  /** The body of the rejection loop. */
  method JudgeEntry(results: array<RetrievalResult>, i: nat, threshold: real, f: FreshnessPolicy, now: int)
    requires i < results.Length
    modifies results
    ensures results[i] == Judged(threshold, f, now, old(results[i]))
    ensures forall k :: 0 <= k < results.Length && k != i ==> results[k] == old(results[k])
  {
    if results[i].fusedScore == Finite(0.0) {
      results[i] := results[i].(fusedScore := results[i].score);
    }
    if Below(results[i].fusedScore, threshold) {
      results[i] := results[i].(rejected := true, rejectionRule := "low_fused_score");
      return;
    }
    if f.rejectLowConfidence && results[i].memory.confidence < f.lowConfidenceFloor {
      results[i] := results[i].(rejected := true, rejectionRule := "low_confidence");
      return;
    }
    if f.episodicMaxAge > 0 && results[i].memory.kind == EPISODIC && results[i].memory.updatedAt != 0 {
      var age := now - results[i].memory.updatedAt;
      results[i] := results[i].(freshnessAgeDays := TruncatedDays(age));
      if age > f.episodicMaxAge {
        results[i] := results[i].(rejected := true, rejectionRule := "stale_episodic");
      }
    }
  }

  // ---------- Select ----------

  predicate Accepted(r: RetrievalResult) {
    !r.rejected && r.memoryId != ""
  }

  function AcceptedBefore(results: Results, i: nat): nat
    requires i <= |results|
  {
    if i == 0 then 0 else AcceptedBefore(results, i - 1) + if Accepted(results[i - 1]) then 1 else 0
  }

  predicate NoneAccepted(results: Results) {
    forall r :: r in results ==> !Accepted(r)
  }

  /** There are candidates, and every one is rejected. */
  predicate AllRejected(results: Results) {
    && (exists r :: r in results && r.memoryId != "")
    && (forall r :: r in results && r.memoryId != "" ==> r.rejected)
  }

  predicate Takes(results: Results, i: nat, topK: int)
    requires i < |results|
  {
    Accepted(results[i]) && (topK > 0 ==> AcceptedBefore(results, i) < topK)
  }

  function Selected(results: Results, topK: int): Results {
    if results != [] && NoneAccepted(results) then
      seq(|results|, i requires 0 <= i < |results| => results[i].(selected := false))
      + if AllRejected(results) then [Sentinel("fully_rejected")] else []
    else
      seq(|results|, i requires 0 <= i < |results| =>
        if Takes(results, i, topK) then results[i].(selected := true) else results[i])
  }

  method AcceptedIndices(results: array<RetrievalResult>) returns (accepted: seq<nat>)
    ensures |accepted| == AcceptedBefore(results[..], results.Length)
    ensures forall n :: 0 <= n < |accepted| ==>
              accepted[n] < results.Length && Accepted(results[accepted[n]]) && AcceptedBefore(results[..], accepted[n]) == n
    ensures forall i :: 0 <= i < results.Length && Accepted(results[i]) ==> i in accepted
  {
    accepted := [];
    for i := 0 to results.Length
      invariant |accepted| == AcceptedBefore(results[..], i)
      invariant forall n :: 0 <= n < |accepted| ==>
                  accepted[n] < i && Accepted(results[accepted[n]]) && AcceptedBefore(results[..], accepted[n]) == n
      invariant forall k :: 0 <= k < i && Accepted(results[k]) ==> k in accepted
    {
      if !results[i].rejected && results[i].memoryId != "" {
        accepted := accepted + [i];
      }
    }
  }

  method AllCandidatesRejected(results: array<RetrievalResult>) returns (all: bool)
    ensures all <==> AllRejected(results[..])
  {
    var hasCandidate := false;
    for i := 0 to results.Length
      invariant hasCandidate <==> exists k :: 0 <= k < i && results[k].memoryId != ""
      invariant forall k :: 0 <= k < i && results[k].memoryId != "" ==> results[k].rejected
    {
      if results[i].memoryId == "" { continue; }
      hasCandidate := true;
      if !results[i].rejected {
        assert results[i] in results[..];
        return false;
      }
    }
    all := hasCandidate;
    assert forall k :: 0 <= k < results.Length ==> results[k] in results[..];
  }

  lemma NoneAcceptedIff(results: Results)
    ensures AcceptedBefore(results, |results|) == 0 <==> NoneAccepted(results)
  {
    NoneAcceptedUpTo(results, |results|);
  }

  lemma {:induction false} NoneAcceptedUpTo(results: Results, n: nat)
    requires n <= |results|
    ensures AcceptedBefore(results, n) == 0 <==> forall i :: 0 <= i < n ==> !Accepted(results[i])
  {
    if n > 0 { NoneAcceptedUpTo(results, n - 1); }
  }

  method Select(results: array<RetrievalResult>, topK: int) returns (out: Results)
    modifies results
    ensures out == Selected(old(results[..]), topK)
  {
    ghost var before := results[..];
    var accepted := AcceptedIndices(results);
    NoneAcceptedIff(before);
    if accepted == [] && results.Length > 0 {
      var all := AllCandidatesRejected(results);
      Deselect(results);
      return results[..] + if all then [Sentinel("fully_rejected")] else [];
    }
    SelectFirst(results, accepted, topK);
    assert results[..] == Selected(before, topK);
    return results[..];
  }

  method Deselect(results: array<RetrievalResult>)
    modifies results
    ensures results[..] == seq(results.Length, i requires 0 <= i < results.Length => old(results[..])[i].(selected := false))
  {
    for i := 0 to results.Length
      invariant forall k :: 0 <= k < results.Length ==>
                  results[k] == if k < i then old(results[..])[k].(selected := false) else old(results[..])[k]
    {
      results[i] := results[i].(selected := false);
    }
  }

  /** Marks the accepted entries in order until the limit is reached. */
  method SelectFirst(results: array<RetrievalResult>, accepted: seq<nat>, topK: int)
    requires forall n :: 0 <= n < |accepted| ==>
               accepted[n] < results.Length && Accepted(results[accepted[n]]) && AcceptedBefore(results[..], accepted[n]) == n
    requires forall i :: 0 <= i < results.Length && Accepted(results[i]) ==> i in accepted
    modifies results
    ensures forall k :: 0 <= k < results.Length ==>
              results[k] == if Takes(old(results[..]), k, topK) then old(results[k]).(selected := true) else old(results[k])
  {
    ghost var before := results[..];
    var index := 0;
    while index < |accepted| && (topK <= 0 || index < topK)
      invariant index <= |accepted| && (topK > 0 ==> index <= topK)
      invariant forall k :: 0 <= k < results.Length ==>
                  results[k] == if Within(before, k, index) then before[k].(selected := true) else before[k]
    {
      results[accepted[index]] := results[accepted[index]].(selected := true);
      CountsDiffer(before, accepted[index]);
      index := index + 1;
    }
    forall k | 0 <= k < |before| ensures Within(before, k, index) <==> Takes(before, k, topK) {
      if Accepted(before[k]) {
        var n :| 0 <= n < |accepted| && accepted[n] == k;
      }
    }
  }

  predicate Within(results: Results, i: nat, n: nat)
    requires i < |results|
  {
    Accepted(results[i]) && AcceptedBefore(results, i) < n
  }

  /** Different accepted entries have different numbers of accepted entries before them. */
  lemma {:induction false} CountsDiffer(results: Results, i: nat)
    requires i < |results| && Accepted(results[i])
    ensures forall k :: 0 <= k < |results| && k != i && Accepted(results[k]) ==>
              AcceptedBefore(results, k) != AcceptedBefore(results, i)
  {
    forall k | 0 <= k < |results| && k != i && Accepted(results[k])
      ensures AcceptedBefore(results, k) != AcceptedBefore(results, i)
    {
      if k < i { CountsGrow(results, k, i); } else { CountsGrow(results, i, k); }
    }
  }

  lemma {:induction false} CountsGrow(results: Results, i: nat, k: nat)
    requires i < k <= |results| && Accepted(results[i])
    ensures AcceptedBefore(results, i) < AcceptedBefore(results, k)
    decreases k
  {
    if k > i + 1 { CountsGrow(results, i, k - 1); }
  }
}
