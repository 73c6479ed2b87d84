/** Compaction as a whole, and the assembly of an execution context around it. */
module ContextAssembly {
  import opened Wrappers
  import opened Compaction
  import opened BlockSelection

  // ---------- Compaction as a whole ----------

  /** The cuts made before any budget is looked at. */
  function UpFront(s: Slice, strategy: Strategy): Slice {
    if strategy == VerificationLean && |s.memories| > 1 then s.(memories := s.memories[..1])
    else if strategy == EvidenceFocused && |s.states| > 3 then s.(states := s.states[..3])
    else s
  }

  function Chars(bs: seq<Block>): nat {
    if bs == [] then 0 else Chars(bs[..|bs| - 1]) + |bs[|bs| - 1].body|
  }

  /** `kept` is the longest beginning of `bs` within the character budget. */
  predicate LongestWithin(kept: seq<Block>, bs: seq<Block>, budget: int) {
    && kept <= bs && (kept == [] || Chars(kept) <= budget)
    && (|kept| < |bs| ==> Chars(bs[..|kept| + 1]) > budget)
  }

  function CharDecision(b: Block, est: Estimator): BlockDecision {
    BlockDecision(StateSource, b.ref, Tokens(b, est), "trimmed_to_fit_character_budget")
  }

  function CharDecisions(bs: seq<Block>, est: Estimator): seq<BlockDecision> {
    seq(|bs|, i requires 0 <= i < |bs| => CharDecision(bs[i], est))
  }

  lemma {:induction false} CharsGrow(bs: seq<Block>, n: nat)
    requires n <= |bs|
    ensures Chars(bs[..n]) <= Chars(bs)
    decreases |bs|
  {
    if n < |bs| {
      assert bs[..|bs| - 1][..n] == bs[..n];
      CharsGrow(bs[..|bs| - 1], n);
    } else {
      assert bs[..n] == bs;
    }
  }

  lemma CharsOneMore(bs: seq<Block>, i: nat)
    requires i < |bs|
    ensures Chars(bs[..i + 1]) == Chars(bs[..i]) + |bs[i].body|
  {
    assert bs[..i + 1][..i] == bs[..i];
  }

  /** One more block: the kept ones grow by it if it fits, and stop growing for good once one did not. */
  lemma CharStep(kept: seq<Block>, bs: seq<Block>, i: nat, budget: int)
    requires i < |bs| && LongestWithin(kept, bs[..i], budget)
    ensures Chars(bs[..i + 1]) > budget ==> LongestWithin(kept, bs[..i + 1], budget)
    ensures Chars(bs[..i + 1]) <= budget ==> |kept| == i && LongestWithin(kept + [bs[i]], bs[..i + 1], budget)
  {
    var next := bs[..i + 1];
    if |kept| < i {
      CharsGrow(next, |kept| + 1);
      assert next[..|kept| + 1] == bs[..i][..|kept| + 1];
    } else {
      assert kept + [bs[i]] == next == next[..i + 1];
    }
  }

  function CharNote(b: Block): string {
    "trimmed state block " + b.ref + " to fit legacy character budget"
  }

  lemma DecisionsOneMore(bs: seq<Block>, k: nat, i: nat, est: Estimator)
    requires k <= i < |bs|
    ensures CharDecisions(bs[k..i + 1], est) == CharDecisions(bs[k..i], est) + [CharDecision(bs[i], est)]
  {
  }

  ghost predicate CharTrim(bs: seq<Block>, i: nat, budget: int, est: Estimator, kept: seq<Block>, excluded: seq<BlockDecision>) {
    && |kept| <= i <= |bs| && LongestWithin(kept, bs[..i], budget)
    && excluded == CharDecisions(bs[|kept|..i], est)
  }

  lemma CharTrimStep(bs: seq<Block>, i: nat, budget: int, est: Estimator, kept: seq<Block>, excluded: seq<BlockDecision>)
    requires i < |bs| && CharTrim(bs, i, budget, est, kept, excluded)
    ensures Chars(bs[..i + 1]) == Chars(bs[..i]) + |bs[i].body|
    ensures Chars(bs[..i + 1]) > budget ==> CharTrim(bs, i + 1, budget, est, kept, excluded + [CharDecision(bs[i], est)])
    ensures Chars(bs[..i + 1]) <= budget ==> CharTrim(bs, i + 1, budget, est, kept + [bs[i]], excluded)
  {
    CharsOneMore(bs, i);
    CharStep(kept, bs, i, budget);
    DecisionsOneMore(bs, |kept|, i, est);
    assert bs[i..i] == bs[i + 1..i + 1] == [];
  }

  method TrimToCharacters(states: seq<Block>, budget: int, est: Estimator)
    returns (kept: seq<Block>, excluded: seq<BlockDecision>, notes: seq<string>)
    ensures LongestWithin(kept, states, budget)
    ensures excluded == CharDecisions(states[|kept|..], est)
    ensures |notes| == |excluded|
  {
    var totalChars := 0;
    kept, excluded, notes := [], [], [];
    for i := 0 to |states|
      invariant totalChars == Chars(states[..i]) && |notes| == |excluded|
      invariant CharTrim(states, i, budget, est, kept, excluded)
    {
      CharTrimStep(states, i, budget, est, kept, excluded);
      totalChars := totalChars + |states[i].body|;
      if totalChars > budget {
        excluded := excluded + [CharDecision(states[i], est)];
        notes := notes + [CharNote(states[i])];
        continue;
      }
      kept := kept + [states[i]];
    }
    assert states[..|states|] == states && states[|kept|..|states|] == states[|kept|..];
  }

  function IncludeAll(source: Source, bs: seq<Block>, est: Estimator): seq<BlockDecision> {
    seq(|bs|, i requires 0 <= i < |bs| => BlockDecision(source, bs[i].ref, Tokens(bs[i], est), bs[i].reason))
  }

  function Included(s: Slice, est: Estimator): seq<BlockDecision> {
    IncludeAll(StateSource, s.states, est) + IncludeAll(MemorySource, s.memories, est)
    + IncludeAll(EvidenceSource, s.evidence, est) + IncludeAll(SkillSource, s.skills, est)
  }

  method IncludeBlocks(source: Source, bs: seq<Block>, est: Estimator) returns (ds: seq<BlockDecision>)
    ensures ds == IncludeAll(source, bs, est)
  {
    ds := [];
    for i := 0 to |bs|
      invariant ds == IncludeAll(source, bs[..i], est)
    {
      assert IncludeAll(source, bs[..i + 1], est)
          == IncludeAll(source, bs[..i], est) + [BlockDecision(source, bs[i].ref, Tokens(bs[i], est), bs[i].reason)];
      ds := ds + [BlockDecision(source, bs[i].ref, Tokens(bs[i], est), bs[i].reason)];
    }
    assert bs[..|bs|] == bs;
  }

  method BuildBudgetDecision(s: Slice, excluded: seq<BlockDecision>, target: int, est: Estimator) returns (d: BudgetDecision)
    ensures d == BudgetDecision(SliceTokens(s, est), target, Included(s, est), excluded)
  {
    var tokens := EstimateSliceTokens(s, est);
    var a := IncludeBlocks(StateSource, s.states, est);
    var b := IncludeBlocks(MemorySource, s.memories, est);
    var c := IncludeBlocks(EvidenceSource, s.evidence, est);
    var e := IncludeBlocks(SkillSource, s.skills, est);
    d := BudgetDecision(tokens, target, a + b + c + e, excluded);
  }

  /** What compaction makes of a slice. */
  ghost predicate CompactsTo(s: Slice, strategy: Strategy, est: Estimator, c: Compacted) {
    var cut, target := UpFront(s, strategy), Target(s.budget);
    var excluded := c.decision.excluded;
    && c.initialTokens == SliceTokens(cut, est)
    && c.finalTokens == SliceTokens(c.slice, est)
    && c.decision == BudgetDecision(SliceTokens(c.slice, est), target, Included(c.slice, est), excluded)
    && (if target > 0 && SliceTokens(cut, est) > target then
          Trimmed(cut, strategy, target, est, c.slice, excluded) && (c.finalTokens <= target || AtFloor(c.slice))
        else if target == 0 && s.budget.maxCharacters > 0 then
          && c.slice == cut.(states := c.slice.states)
          && LongestWithin(c.slice.states, cut.states, s.budget.maxCharacters)
          && excluded == CharDecisions(cut.states[|c.slice.states|..], est)
        else c.slice == cut && excluded == [])
  }

  method Compact(s: Slice, strategy: Strategy, est: Estimator) returns (r: Option<Compacted>)
    ensures r.None? <==> strategy == OtherStrategy
    ensures strategy == NoCompaction ==> r.Some? && r.value.slice == s
    ensures r.Some? && strategy != NoCompaction ==> CompactsTo(s, strategy, est, r.value)
  {
    if strategy == NoCompaction { return Some(Compacted(s, BudgetDecision(0, 0, [], []), 0, 0, [])); }
    if strategy == OtherStrategy { return None; }
    var compacted := s;
    if strategy == VerificationLean && |compacted.memories| > 1 {
      compacted := compacted.(memories := compacted.memories[..1]);
    }
    if strategy == EvidenceFocused && |compacted.states| > 3 {
      compacted := compacted.(states := compacted.states[..3]);
    }
    var initialTokens := EstimateSliceTokens(compacted, est);
    var target := Target(compacted.budget);
    var excluded: seq<BlockDecision> := [];
    var notes: seq<string> := [];
    if target > 0 && initialTokens > target {
      compacted, excluded, notes := ExcludeBlocksToFitBudget(compacted, strategy, target, est);
    } else if target == 0 && compacted.budget.maxCharacters > 0 {
      var kept;
      kept, excluded, notes := TrimToCharacters(compacted.states, compacted.budget.maxCharacters, est);
      compacted := compacted.(states := kept);
    }
    var decision := BuildBudgetDecision(compacted, excluded, target, est);
    r := Some(Compacted(compacted, decision, initialTokens, decision.estimatedInputTokens, notes));
  }

  // ---------- What compaction guarantees ----------

  /** Compaction never takes the last evidence block or, under a token budget, the last state block. */
  lemma EvidenceSurvives(s: Slice, strategy: Strategy, est: Estimator, c: Compacted)
    requires CompactsTo(s, strategy, est, c)
    ensures c.slice.evidence <= s.evidence && (s.evidence != [] ==> c.slice.evidence != [])
    ensures c.slice.states <= s.states && (Target(s.budget) > 0 && s.states != [] ==> c.slice.states != [])
  {
    var cut := UpFront(s, strategy);
    assert cut.evidence == s.evidence && cut.states <= s.states && (s.states != [] ==> cut.states != []);
  }

  predicate IdsMatch(s: Slice) {
    s.memoryIds == Refs(s.memories) && s.evidenceIds == Refs(s.evidence)
  }

  /** The id lists stay those of the blocks for every strategy but the verification-lean one. */
  lemma IdsStayMatched(s: Slice, strategy: Strategy, est: Estimator, c: Compacted)
    requires CompactsTo(s, strategy, est, c) && IdsMatch(s) && strategy != VerificationLean
    ensures IdsMatch(c.slice)
  {
  }

  predicate NonNegative(est: Estimator, s: Slice) {
    forall b :: b in s.states + s.memories + s.evidence + s.skills ==> Tokens(b, est) >= 0
  }

  /** The verification-lean cut keeps one memory block but all the memory ids. The lists match afterwards exactly when
      there was at most one memory, or when the budget then forces out that memory too: it does when the states, the
      first memory and the evidence exceed the target by themselves. */
  lemma LeanIdsMatchIff(s: Slice, est: Estimator, c: Compacted)
    requires CompactsTo(s, VerificationLean, est, c) && IdsMatch(s) && NonNegative(est, s)
    ensures c.slice.memoryIds == Refs(c.slice.memories) <==>
              || |s.memories| <= 1
              || (Target(s.budget) > 0
                  && Total(s.states, est) + Tokens(s.memories[0], est) + Total(s.evidence, est) > Target(s.budget))
    ensures Refs(c.slice.memories) <= s.memoryIds
    ensures c.slice.evidenceIds == Refs(c.slice.evidence)
  {
    if |s.memories| > 1 {
      var cut, target := UpFront(s, VerificationLean), Target(s.budget);
      assert cut.memories == [s.memories[0]] && cut.memories[..0] == [];
      assert Total(cut.memories, est) == Tokens(s.memories[0], est);
      if target > 0 && SliceTokens(cut, est) > target {
        LeanTrims(cut, target, est, c.slice, c.decision.excluded);
      } else if target > 0 {
        TotalNonNegative(s.skills, est);
      }
      assert |Refs(c.slice.memories)| <= 1 && |s.memoryIds| > 1;
    }
  }

  /** A concrete case: two memories and no budget. */
  lemma LeanExample(est: Estimator) returns (c: Compacted)
    ensures var a, b := Block("a", "", "", ""), Block("b", "", "", "");
            var s := Slice(Budget(0, 0, 0, 0), [], [a, b], [], [], ["a", "b"], []);
            && IdsMatch(s) && CompactsTo(s, VerificationLean, est, c)
            && c.slice.memories == [a] && c.slice.memoryIds == ["a", "b"]
  {
    var a, b := Block("a", "", "", ""), Block("b", "", "", "");
    var s := Slice(Budget(0, 0, 0, 0), [], [a, b], [], [], ["a", "b"], []);
    var cut := UpFront(s, VerificationLean);
    assert cut.memories == [a];
    var tokens := SliceTokens(cut, est);
    c := Compacted(cut, BudgetDecision(tokens, 0, Included(cut, est), []), tokens, tokens, []);
  }

  lemma {:induction false} TotalNonNegative(bs: seq<Block>, est: Estimator)
    requires forall b :: b in bs ==> Tokens(b, est) >= 0
    ensures Total(bs, est) >= 0
  {
    if bs != [] { TotalNonNegative(bs[..|bs| - 1], est); }
  }

  lemma {:induction false} ExcludedCons(d: BlockDecision, ds: seq<BlockDecision>)
    ensures Excluded([d] + ds) == d.tokens + Excluded(ds)
  {
    if ds == [] {
      assert [d] + ds == [d] && [d][..0] == [];
    } else {
      assert ([d] + ds)[..|ds|] == [d] + ds[..|ds| - 1];
      ExcludedCons(d, ds[..|ds| - 1]);
    }
  }

  lemma {:induction false} BackwardsShape(source: Source, bs: seq<Block>)
    ensures |Backwards(source, bs)| == |bs|
    ensures forall v :: v in Backwards(source, bs) ==> v.source == source
  {
    if bs != [] { BackwardsShape(source, bs[..|bs| - 1]); }
  }

  lemma DecideCons(v: Victim, vs: seq<Victim>, n: nat, est: Estimator)
    requires n <= |vs|
    ensures DecideAll(([v] + vs)[..n + 1], est) == [Decide(v, est)] + DecideAll(vs[..n], est)
  {
    assert ([v] + vs)[..n + 1] == [v] + vs[..n];
  }

  /** The tokens of the last blocks of a list, all of them for the whole list. */
  lemma {:induction false} BackwardsTokens(source: Source, bs: seq<Block>, n: nat, est: Estimator)
    requires n <= |bs| == |Backwards(source, bs)| && forall b :: b in bs ==> Tokens(b, est) >= 0
    ensures Excluded(DecideAll(Backwards(source, bs)[..n], est)) <= Total(bs, est)
    ensures n == |bs| ==> Excluded(DecideAll(Backwards(source, bs)[..n], est)) == Total(bs, est)
  {
    if n == 0 {
      TotalNonNegative(bs, est);
    } else {
      var rest, v := bs[..|bs| - 1], Victim(source, bs[|bs| - 1]);
      BackwardsShape(source, rest);
      BackwardsTokens(source, rest, n - 1, est);
      DecideCons(v, Backwards(source, rest), n - 1, est);
      ExcludedCons(Decide(v, est), DecideAll(Backwards(source, rest)[..n - 1], est));
    }
  }

  predicate HasMemory(vs: seq<Victim>) {
    exists v :: v in vs && v.source == MemorySource
  }

  lemma OrderHasMemory(s: Slice)
    ensures HasMemory(TrimOrder(s, VerificationLean)) <==> s.memories != []
    ensures |TrimOrder(s, VerificationLean)| >= |s.skills| + |s.memories|
    ensures |s.memories| == 1 ==> TrimOrder(s, VerificationLean)[|s.skills|].source == MemorySource
    ensures |s.memories| == 1 ==> forall i :: |s.skills| < i < |TrimOrder(s, VerificationLean)| ==>
              TrimOrder(s, VerificationLean)[i].source != MemorySource
    ensures TrimOrder(s, VerificationLean)[..|s.skills|] == Backwards(SkillSource, s.skills)
  {
    var order := TrimOrder(s, VerificationLean);
    var skills, memories, facts := Backwards(SkillSource, s.skills), Backwards(MemorySource, s.memories), Facts(s);
    BackwardsShape(SkillSource, s.skills);
    BackwardsShape(MemorySource, s.memories);
    BackwardsShape(StateSource, ButFirst(s.states));
    BackwardsShape(EvidenceSource, ButFirst(s.evidence));
    assert forall v :: v in facts ==> v.source != MemorySource;
    assert order == skills + (memories + facts);
    if s.memories != [] {
      assert memories[0] in order;
    }
    forall i | |s.skills| < i < |order| && |s.memories| == 1 ensures order[i].source != MemorySource {
      assert order[i] == facts[i - |s.skills| - 1];
      assert order[i] in facts;
    }
  }

  lemma OnlyAt(order: seq<Victim>, e: nat, n: nat)
    requires e <= |order| && n < |order| && order[n].source == MemorySource
    requires forall i :: n < i < |order| ==> order[i].source != MemorySource
    ensures HasMemory(order[e..]) <==> e <= n
  {
    if e <= n {
      assert order[e..][n - e] == order[n];
      assert order[n] in order[e..];
    }
  }

  /** The one memory of a lean slice is trimmed right after the last skill. */
  lemma MemoryPosition(cut: Slice, est: Estimator, out: Slice, excluded: seq<BlockDecision>)
    requires |cut.memories| == 1 && FollowsOrder(cut, VerificationLean, est, out, excluded)
    ensures out.memories == [] <==> |excluded| > |cut.skills|
  {
    OrderHasMemory(cut);
    OrderHasMemory(out);
    OnlyAt(TrimOrder(cut, VerificationLean), |excluded|, |cut.skills|);
  }

  lemma DecidePrefix(order: seq<Victim>, e: nat, n: nat, est: Estimator)
    requires n <= e <= |order|
    ensures DecideAll(order[..e], est)[..n] == DecideAll(order[..n], est)
  {
  }

  lemma FirstSkills(order: seq<Victim>, bs: seq<Block>, n: nat, est: Estimator)
    requires n <= |bs| <= |order| && order[..|bs|] == Backwards(SkillSource, bs)
    requires forall b :: b in bs ==> Tokens(b, est) >= 0
    ensures Excluded(DecideAll(order[..n], est)) <= Total(bs, est)
    ensures n == |bs| ==> Excluded(DecideAll(order[..n], est)) == Total(bs, est)
  {
    BackwardsShape(SkillSource, bs);
    BackwardsTokens(SkillSource, bs, n, est);
    assert Backwards(SkillSource, bs)[..n] == order[..n];
  }

  lemma FirstDecisions(order: seq<Victim>, bs: seq<Block>, e: nat, est: Estimator)
    requires |bs| <= |order| && e <= |order| && order[..|bs|] == Backwards(SkillSource, bs)
    requires forall b :: b in bs ==> Tokens(b, est) >= 0
    ensures e <= |bs| ==> Excluded(DecideAll(order[..e], est)) <= Total(bs, est)
    ensures e > |bs| ==> Excluded(DecideAll(order[..e], est)[..|bs|]) == Total(bs, est)
  {
    if e <= |bs| {
      FirstSkills(order, bs, e, est);
    } else {
      FirstSkills(order, bs, |bs|, est);
      DecidePrefix(order, e, |bs|, est);
    }
  }

  /** The first decisions of a trimming are about skills, and take all of them before anything else. */
  lemma SkillsGoFirst(cut: Slice, est: Estimator, out: Slice, excluded: seq<BlockDecision>)
    requires FollowsOrder(cut, VerificationLean, est, out, excluded) && NonNegative(est, cut)
    ensures |excluded| <= |cut.skills| ==> Excluded(excluded) <= Total(cut.skills, est)
    ensures |excluded| > |cut.skills| ==> Excluded(excluded[..|cut.skills|]) == Total(cut.skills, est)
  {
    OrderHasMemory(cut);
    FirstDecisions(TrimOrder(cut, VerificationLean), cut.skills, |excluded|, est);
  }

  /** Under the lean order the one memory goes exactly when everything but the skills exceeds the target. */
  lemma LeanTrims(cut: Slice, target: int, est: Estimator, out: Slice, excluded: seq<BlockDecision>)
    requires |cut.memories| == 1 && NonNegative(est, cut)
    requires FollowsOrder(cut, VerificationLean, est, out, excluded) && TrimsOnlyWhileOver(cut, target, est, out, excluded)
    requires SliceTokens(out, est) <= target || AtFloor(out)
    ensures out.memories == [] <==>
            Total(cut.states, est) + Total(cut.memories, est) + Total(cut.evidence, est) > target
  {
    MemoryPosition(cut, est, out, excluded);
    SkillsGoFirst(cut, est, out, excluded);
  }

  // ---------- Assembling an execution context ----------

  /** What a block asks of its context. */
  datatype Spec = Spec(
    blockKind: string, view: Option<View>, stateBlocks: seq<string>, memoryKinds: seq<string>, evidenceTypes: seq<string>)

  /** Execution, unless the block asks for another view. */
  function ViewOf(spec: Spec): View {
    if spec.view.None? then Execution else spec.view.value
  }

  datatype Assembled = NoState | NoEvidence | Context(compacted: Compacted)

  /** The state of the view cannot be given. */
  predicate StateFails(world: WorldState, view: View, bound: int) {
    view == OtherView || !Encodable(world, Candidates(view), Kept(|Candidates(view)|, bound))
  }

  function EvidenceFor(evidence: seq<EvidenceRecord>, spec: Spec, b: ContextBudget): seq<Block> {
    Filtered(SelectedEvidence(evidence, ViewOf(spec), b.maxEvidenceItems), OfType(spec.evidenceTypes))
  }

  function MemoriesFor(memories: seq<MemoryItem>, spec: Spec, b: ContextBudget): seq<Block> {
    Filtered(SelectedMemories(memories, ViewOf(spec), b.maxMemoryBlocks), ForSpec(spec.memoryKinds, spec.blockKind))
  }

  /** Every block shows what it was made from: a part of the state its encoding, a memory its summary, evidence its summary as
      far as it goes; and each satisfies what the block asked for. */
  ghost predicate Faithful(s: Slice, world: WorldState, memories: seq<MemoryItem>, evidence: seq<EvidenceRecord>, spec: Spec) {
    && (forall b :: b in s.states ==> world(b.ref) == Some(b.body) && (spec.stateBlocks == [] || b.ref in spec.stateBlocks))
    && (forall b :: b in s.memories ==>
          && (exists m :: m in memories && m.id == b.ref && m.summary == b.body && m.kind == b.kind)
          && (spec.memoryKinds == [] || b.kind in spec.memoryKinds))
    && (forall b :: b in s.evidence ==>
          && (exists e :: e in evidence && e.id == b.ref && e.kind == b.kind && Shortens(b.body, e.summary))
          && (spec.evidenceTypes == [] || b.kind in spec.evidenceTypes))
  }

  /** Assembly fails exactly when the state of the view cannot be given or no evidence within the bound has a required
      type: trimming never causes it. The selected ids are those of the blocks that stayed, each list is a beginning of what
      the filters let through, and at most three state blocks go in. */
  method Assemble(world: WorldState, memories: seq<MemoryItem>, evidence: seq<EvidenceRecord>, spec: Spec,
                  explicit: ContextBudget, est: Estimator) returns (r: Assembled)
    ensures var b := ResolveBudget(explicit, ViewOf(spec));
            && (r.NoState? <==> StateFails(world, ViewOf(spec), b.maxStateBlocks))
            && (r.NoEvidence? <==> !r.NoState? && EvidenceFor(evidence, spec, b) == [])
            && (r.Context? ==>
                  && IdsMatch(r.compacted.slice) && r.compacted.slice.evidenceIds != []
                  && r.compacted.slice.evidence <= EvidenceFor(evidence, spec, b)
                  && r.compacted.slice.memories <= MemoriesFor(memories, spec, b)
                  && |r.compacted.slice.states| <= 3
                  && Faithful(r.compacted.slice, world, memories, evidence, spec))
  {
    var view := if spec.view.None? then Execution else spec.view.value;
    var budget := ResolveBudget(explicit, view);
    var states := SelectStateBlocks(world, view, budget.maxStateBlocks);
    if states.None? { return NoState; }
    var stateBlocks := FilterByNames(states.value, spec.stateBlocks);
    var memoryBlocks := SelectMemoryBlocks(memories, view, budget.maxMemoryBlocks);
    memoryBlocks := FilterForSpec(memoryBlocks, spec.memoryKinds, spec.blockKind);
    var evidenceBlocks := SelectEvidence(evidence, view, budget.maxEvidenceItems);
    evidenceBlocks := FilterByType(evidenceBlocks, spec.evidenceTypes);
    var memoryIds := CollectIds(memoryBlocks);
    var evidenceIds := CollectIds(evidenceBlocks);
    var slice := Slice(budget.budget, stateBlocks, memoryBlocks, evidenceBlocks, [], memoryIds, evidenceIds);
    var compacted := Compact(slice, EvidenceFocused, est);
    AssembledFrom(slice, compacted.value, est);
    AssembledFaithful(world, memories, evidence, spec, budget, states.value, compacted.value.slice);
    if |compacted.value.slice.evidenceIds| == 0 { return NoEvidence; }
    r := Context(compacted.value);
  }

  lemma AssembledFaithful(world: WorldState, memories: seq<MemoryItem>, evidence: seq<EvidenceRecord>, spec: Spec,
                          b: ContextBudget, states: seq<Block>, out: Slice)
    requires forall s :: s in states ==> world(s.ref) == Some(s.body)
    requires out.states <= Filtered(states, Named(spec.stateBlocks))
    requires out.memories <= MemoriesFor(memories, spec, b) && out.evidence <= EvidenceFor(evidence, spec, b)
    ensures Faithful(out, world, memories, evidence, spec)
  {
    FilteredIff(states, Named(spec.stateBlocks));
    MemoriesFaithful(memories, spec, b);
    EvidenceFaithful(evidence, spec, b);
  }

  lemma MemoriesFaithful(memories: seq<MemoryItem>, spec: Spec, b: ContextBudget)
    ensures forall m :: m in MemoriesFor(memories, spec, b) ==>
              && (exists x :: x in memories && x.id == m.ref && x.summary == m.body && x.kind == m.kind)
              && (spec.memoryKinds == [] || m.kind in spec.memoryKinds)
  {
    var selected := SelectedMemories(memories, ViewOf(spec), b.maxMemoryBlocks);
    FilteredIff(selected, ForSpec(spec.memoryKinds, spec.blockKind));
    forall m | m in selected ensures exists x :: x in memories && x.id == m.ref && x.summary == m.body && x.kind == m.kind {
      var i :| 0 <= i < |selected| && selected[i] == m;
      assert memories[i] in memories;
    }
  }

  lemma EvidenceFaithful(evidence: seq<EvidenceRecord>, spec: Spec, b: ContextBudget)
    ensures forall e :: e in EvidenceFor(evidence, spec, b) ==>
              && (exists x :: x in evidence && x.id == e.ref && x.kind == e.kind && Shortens(e.body, x.summary))
              && (spec.evidenceTypes == [] || e.kind in spec.evidenceTypes)
  {
    var selected := SelectedEvidence(evidence, ViewOf(spec), b.maxEvidenceItems);
    FilteredIff(selected, OfType(spec.evidenceTypes));
    forall e | e in selected ensures exists x :: x in evidence && x.id == e.ref && x.kind == e.kind && Shortens(e.body, x.summary) {
      var i :| 0 <= i < |selected| && selected[i] == e;
      assert evidence[i] in evidence;
      SummaryShortens(evidence[i].summary);
    }
  }

  /** What compaction leaves of a slice whose ids match. */
  lemma AssembledFrom(slice: Slice, c: Compacted, est: Estimator)
    requires IdsMatch(slice) && CompactsTo(slice, EvidenceFocused, est, c)
    ensures IdsMatch(c.slice) && (c.slice.evidenceIds == [] <==> slice.evidence == [])
    ensures c.slice.evidence <= slice.evidence && c.slice.memories <= slice.memories && c.slice.states <= slice.states
    ensures |c.slice.states| <= 3
  {
    EvidenceSurvives(slice, EvidenceFocused, est, c);
    IdsStayMatched(slice, EvidenceFocused, est, c);
  }
}
