/** Fitting a context slice into its token budget: blocks are trimmed one at a time, least important first, until the
    estimate fits or only the floor is left. */
module Compaction {
  import opened Wrappers

  datatype Source = StateSource | MemorySource | EvidenceSource | SkillSource

  datatype Strategy = NoCompaction | StateAware | EvidenceFocused | VerificationLean | OtherStrategy

  /** A block of any of the four lists: its name or id, its text and why it was selected. */
  datatype Block = Block(ref: string, body: string, kind: string, reason: string)

  datatype Budget = Budget(maxCharacters: int, maxInputTokens: int, reservedOutputTokens: int, hardTokenLimit: int)

  datatype BlockDecision = BlockDecision(source: Source, ref: string, tokens: int, reason: string)

  datatype BudgetDecision = BudgetDecision(
    estimatedInputTokens: int, targetInputTokens: int, included: seq<BlockDecision>, excluded: seq<BlockDecision>)

  datatype Slice = Slice(
    budget: Budget,
    states: seq<Block>,
    memories: seq<Block>,
    evidence: seq<Block>,
    skills: seq<Block>,
    memoryIds: seq<string>,
    evidenceIds: seq<string>)

  datatype Compacted = Compacted(slice: Slice, decision: BudgetDecision, initialTokens: int, finalTokens: int, notes: seq<string>)

  /** Any token estimator. */
  type Estimator = string -> int

  function Tokens(b: Block, est: Estimator): int {
    est(b.ref + "\n" + b.body)
  }

  function Total(bs: seq<Block>, est: Estimator): int {
    if bs == [] then 0 else Total(bs[..|bs| - 1], est) + Tokens(bs[|bs| - 1], est)
  }

  function SliceTokens(s: Slice, est: Estimator): int {
    Total(s.states, est) + Total(s.memories, est) + Total(s.evidence, est) + Total(s.skills, est)
  }

  method EstimateSliceTokens(s: Slice, est: Estimator) returns (total: int)
    ensures total == SliceTokens(s, est)
  {
    total := 0;
    for i := 0 to |s.states|
      invariant total == Total(s.states[..i], est)
    {
      assert s.states[..i + 1][..i] == s.states[..i];
      total := total + Tokens(s.states[i], est);
    }
    assert s.states[..|s.states|] == s.states;
    for i := 0 to |s.memories|
      invariant total == Total(s.states, est) + Total(s.memories[..i], est)
    {
      assert s.memories[..i + 1][..i] == s.memories[..i];
      total := total + Tokens(s.memories[i], est);
    }
    assert s.memories[..|s.memories|] == s.memories;
    for i := 0 to |s.evidence|
      invariant total == Total(s.states, est) + Total(s.memories, est) + Total(s.evidence[..i], est)
    {
      assert s.evidence[..i + 1][..i] == s.evidence[..i];
      total := total + Tokens(s.evidence[i], est);
    }
    assert s.evidence[..|s.evidence|] == s.evidence;
    for i := 0 to |s.skills|
      invariant total == Total(s.states, est) + Total(s.memories, est) + Total(s.evidence, est) + Total(s.skills[..i], est)
    {
      assert s.skills[..i + 1][..i] == s.skills[..i];
      total := total + Tokens(s.skills[i], est);
    }
    assert s.skills[..|s.skills|] == s.skills;
  }

  function Length(text: string): int { |text| }

  /** Every block counts with its name, a line break and its text: estimated by length, they add up. */
  lemma TotalByLength(bs: seq<Block>, b: Block)
    ensures Total([], Length) == 0
    ensures Total(bs + [b], Length) == Total(bs, Length) + |b.ref| + 1 + |b.body|
  {
    assert (bs + [b])[..|bs|] == bs;
  }

  function Refs(bs: seq<Block>): seq<string> {
    seq(|bs|, i requires 0 <= i < |bs| => bs[i].ref)
  }

  method CollectIds(bs: seq<Block>) returns (ids: seq<string>)
    ensures ids == Refs(bs)
  {
    ids := [];
    for i := 0 to |bs|
      invariant ids == Refs(bs[..i])
    {
      assert Refs(bs[..i + 1]) == Refs(bs[..i]) + [bs[i].ref];
      ids := ids + [bs[i].ref];
    }
    assert bs[..|bs|] == bs;
  }

  /** The token target of a budget; 0 means there is none. */
  function Target(b: Budget): (t: nat) {
    if b.maxInputTokens <= 0 then 0
    else
      var reserved := if b.reservedOutputTokens > 0 then b.maxInputTokens - b.reservedOutputTokens else b.maxInputTokens;
      var limited := if b.hardTokenLimit > 0 && reserved > b.hardTokenLimit then b.hardTokenLimit else reserved;
      if limited < 0 then 0 else limited
  }

  /** It is the largest input that leaves room for the reserved output and keeps within the hard limit; there is none when
      nothing fits or no maximum is set. */
  lemma TargetIsLargest(b: Budget, tokens: nat)
    requires tokens > 0
    ensures tokens <= Target(b) <==>
              && tokens + (if b.reservedOutputTokens > 0 then b.reservedOutputTokens else 0) <= b.maxInputTokens
              && (b.hardTokenLimit > 0 ==> tokens <= b.hardTokenLimit)
  {
  }

  // ---------- The order of trimming ----------

  datatype Victim = Victim(source: Source, block: Block)

  function Backwards(source: Source, bs: seq<Block>): seq<Victim> {
    if bs == [] then [] else [Victim(source, bs[|bs| - 1])] + Backwards(source, bs[..|bs| - 1])
  }

  function ButFirst(bs: seq<Block>): seq<Block> {
    if bs == [] then [] else bs[1..]
  }

  /** States, then evidence, each from its end; the first of either always stays. */
  function Facts(s: Slice): seq<Victim> {
    Backwards(StateSource, ButFirst(s.states)) + Backwards(EvidenceSource, ButFirst(s.evidence))
  }

  /** Memories go before the facts, except that evidence-focused slices give them up last. */
  function AfterSkills(s: Slice, strategy: Strategy): seq<Victim> {
    if strategy == EvidenceFocused then Facts(s) + Backwards(MemorySource, s.memories)
    else Backwards(MemorySource, s.memories) + Facts(s)
  }

  /** Everything that may be trimmed, in trimming order. */
  function TrimOrder(s: Slice, strategy: Strategy): seq<Victim> {
    Backwards(SkillSource, s.skills) + AfterSkills(s, strategy)
  }

  function Decide(v: Victim, est: Estimator): BlockDecision {
    BlockDecision(v.source, v.block.ref, Tokens(v.block, est), "trimmed_to_fit_token_budget")
  }

  function DecideAll(vs: seq<Victim>, est: Estimator): seq<BlockDecision> {
    seq(|vs|, i requires 0 <= i < |vs| => Decide(vs[i], est))
  }

  function Excluded(ds: seq<BlockDecision>): int {
    if ds == [] then 0 else Excluded(ds[..|ds| - 1]) + ds[|ds| - 1].tokens
  }

  predicate AtFloor(s: Slice) {
    s.skills == [] && s.memories == [] && |s.states| <= 1 && |s.evidence| <= 1
  }

  lemma FloorIff(s: Slice, strategy: Strategy)
    ensures TrimOrder(s, strategy) == [] <==> AtFloor(s)
  {
  }

  lemma TrimLast(bs: seq<Block>)
    requires |bs| > 1
    ensures ButFirst(bs)[..|ButFirst(bs)| - 1] == ButFirst(bs[..|bs| - 1])
    ensures ButFirst(bs)[|ButFirst(bs)| - 1] == bs[|bs| - 1]
  {
  }

  /** Every list keeps a beginning; the first state and the first evidence block stay. */
  ghost predicate KeepsPrefixes(s: Slice, out: Slice) {
    && out.budget == s.budget
    && out.states <= s.states && out.memories <= s.memories && out.evidence <= s.evidence && out.skills <= s.skills
    && (s.states != [] ==> out.states != []) && (s.evidence != [] ==> out.evidence != [])
  }

  /** The excluded blocks are the first of the trimming order, and the rest of the order is still there. */
  ghost predicate FollowsOrder(s: Slice, strategy: Strategy, est: Estimator, out: Slice, excluded: seq<BlockDecision>) {
    && |excluded| <= |TrimOrder(s, strategy)|
    && excluded == DecideAll(TrimOrder(s, strategy)[..|excluded|], est)
    && TrimOrder(s, strategy)[|excluded|..] == TrimOrder(out, strategy)
  }

  /** Every excluded block is one of the slice, listed under its name and with its tokens. */
  lemma ExcludedNamed(s: Slice, strategy: Strategy, est: Estimator, out: Slice, excluded: seq<BlockDecision>)
    requires FollowsOrder(s, strategy, est, out, excluded)
    ensures forall d :: d in excluded ==>
              exists b :: b in ListOf(s, d.source) && b.ref == d.ref && d.tokens == est(b.ref + "\n" + b.body)
  {
    var order := TrimOrder(s, strategy);
    OrderFromSlice(s, strategy);
    forall d | d in excluded ensures exists b :: b in ListOf(s, d.source) && b.ref == d.ref && d.tokens == est(b.ref + "\n" + b.body) {
      var i :| 0 <= i < |excluded| && excluded[i] == d;
      assert order[i] in order && d == Decide(order[i], est);
    }
  }

  lemma OrderFromSlice(s: Slice, strategy: Strategy)
    ensures forall v :: v in TrimOrder(s, strategy) ==> v.block in ListOf(s, v.source)
  {
    BackwardsFrom(SkillSource, s.skills);
    BackwardsFrom(MemorySource, s.memories);
    BackwardsFrom(StateSource, ButFirst(s.states));
    BackwardsFrom(EvidenceSource, ButFirst(s.evidence));
  }

  lemma {:induction false} BackwardsFrom(source: Source, bs: seq<Block>)
    ensures forall v :: v in Backwards(source, bs) ==> v.source == source && v.block in bs
  {
    if bs != [] { BackwardsFrom(source, bs[..|bs| - 1]); }
  }

  /** No token is lost, and every block that went did so while the estimate was still too high. */
  ghost predicate TrimsOnlyWhileOver(s: Slice, target: int, est: Estimator, out: Slice, excluded: seq<BlockDecision>) {
    && SliceTokens(s, est) == SliceTokens(out, est) + Excluded(excluded)
    && (forall n :: 0 <= n < |excluded| ==> SliceTokens(s, est) - Excluded(excluded[..n]) > target)
  }

  /** The id lists are refreshed when, and only when, their blocks are trimmed. */
  ghost predicate IdsRefreshed(s: Slice, out: Slice) {
    && out.memoryIds == (if out.memories == s.memories then s.memoryIds else Refs(out.memories))
    && out.evidenceIds == (if out.evidence == s.evidence then s.evidenceIds else Refs(out.evidence))
  }

  ghost predicate Trimmed(s: Slice, strategy: Strategy, target: int, est: Estimator, out: Slice, excluded: seq<BlockDecision>) {
    && KeepsPrefixes(s, out) && FollowsOrder(s, strategy, est, out, excluded)
    && TrimsOnlyWhileOver(s, target, est, out, excluded) && IdsRefreshed(s, out)
  }

  /** The list a pass of the loop trims. */
  function Next(s: Slice, strategy: Strategy): Option<Source> {
    if |s.skills| > 0 then Some(SkillSource)
    else if |s.memories| > 0 && strategy != EvidenceFocused then Some(MemorySource)
    else if |s.states| > 1 then Some(StateSource)
    else if |s.evidence| > 1 then Some(EvidenceSource)
    else if |s.memories| > 0 then Some(MemorySource)
    else None
  }

  function ListOf(s: Slice, source: Source): seq<Block> {
    match source
    case StateSource => s.states
    case MemorySource => s.memories
    case EvidenceSource => s.evidence
    case SkillSource => s.skills
  }

  function LastOf(s: Slice, source: Source): Block
    requires ListOf(s, source) != []
  {
    ListOf(s, source)[|ListOf(s, source)| - 1]
  }

  function Without(s: Slice, source: Source): Slice
    requires ListOf(s, source) != []
  {
    match source
    case StateSource => s.(states := s.states[..|s.states| - 1])
    case MemorySource => s.(memories := s.memories[..|s.memories| - 1], memoryIds := Refs(s.memories[..|s.memories| - 1]))
    case EvidenceSource => s.(evidence := s.evidence[..|s.evidence| - 1], evidenceIds := Refs(s.evidence[..|s.evidence| - 1]))
    case SkillSource => s.(skills := s.skills[..|s.skills| - 1])
  }

  lemma ConsAssociative(x: Victim, a: seq<Victim>, b: seq<Victim>)
    ensures ([x] + a) + b == [x] + (a + b)
  {
  }

  lemma FactsHead(s: Slice)
    ensures |s.states| > 1 ==> Facts(s) == [Victim(StateSource, LastOf(s, StateSource))] + Facts(Without(s, StateSource))
    ensures |s.states| <= 1 && |s.evidence| > 1 ==>
              Facts(s) == [Victim(EvidenceSource, LastOf(s, EvidenceSource))] + Facts(Without(s, EvidenceSource))
    ensures |s.states| <= 1 && |s.evidence| <= 1 ==> Facts(s) == []
  {
    if |s.states| > 1 {
      TrimLast(s.states);
      ConsAssociative(Victim(StateSource, LastOf(s, StateSource)), Backwards(StateSource, ButFirst(s.states[..|s.states| - 1])),
                      Backwards(EvidenceSource, ButFirst(s.evidence)));
    } else if |s.evidence| > 1 {
      TrimLast(s.evidence);
    }
  }

  lemma MemoriesHead(s: Slice)
    requires s.memories != []
    ensures Facts(Without(s, MemorySource)) == Facts(s)
    ensures Backwards(MemorySource, s.memories)
         == [Victim(MemorySource, LastOf(s, MemorySource))] + Backwards(MemorySource, Without(s, MemorySource).memories)
  {
  }

  lemma NoMoreAfter(s: Slice, strategy: Strategy)
    requires s.skills == []
    ensures Next(s, strategy) == None <==> AfterSkills(s, strategy) == []
  {
    FactsHead(s);
  }

  lemma FactIsNext(s: Slice, strategy: Strategy, source: Source)
    requires s.skills == [] && Next(s, strategy) == Some(source) && source != MemorySource
    ensures source != SkillSource && ListOf(s, source) != []
    ensures AfterSkills(s, strategy) == [Victim(source, LastOf(s, source))] + AfterSkills(Without(s, source), strategy)
  {
    FactsHead(s);
    var after, v, memories := Without(s, source), Victim(source, LastOf(s, source)), Backwards(MemorySource, s.memories);
    assert after.memories == s.memories;
    if strategy == EvidenceFocused {
      ConsAssociative(v, Facts(after), memories);
    } else {
      assert memories == [] && [] + Facts(s) == Facts(s) && [] + Facts(after) == Facts(after);
    }
  }

  lemma MemoryIsNext(s: Slice, strategy: Strategy)
    requires s.skills == [] && Next(s, strategy) == Some(MemorySource)
    ensures s.memories != []
    ensures AfterSkills(s, strategy)
         == [Victim(MemorySource, LastOf(s, MemorySource))] + AfterSkills(Without(s, MemorySource), strategy)
  {
    var after, v := Without(s, MemorySource), Victim(MemorySource, LastOf(s, MemorySource));
    MemoriesHead(s);
    if strategy == EvidenceFocused {
      FactsHead(s);
      assert Facts(s) == [] && Facts(after) == [];
    } else {
      ConsAssociative(v, Backwards(MemorySource, after.memories), Facts(s));
    }
  }

  lemma SkillIsNext(s: Slice, strategy: Strategy)
    requires s.skills != []
    ensures TrimOrder(s, strategy)
         == [Victim(SkillSource, LastOf(s, SkillSource))] + TrimOrder(Without(s, SkillSource), strategy)
  {
    var after := Without(s, SkillSource);
    assert AfterSkills(after, strategy) == AfterSkills(s, strategy) by { assert Facts(after) == Facts(s); }
    ConsAssociative(Victim(SkillSource, LastOf(s, SkillSource)), Backwards(SkillSource, after.skills), AfterSkills(s, strategy));
  }

  lemma NoSkills(s: Slice, strategy: Strategy)
    requires s.skills == []
    ensures TrimOrder(s, strategy) == AfterSkills(s, strategy)
  {
    assert Backwards(SkillSource, s.skills) == [];
  }

  /** A pass trims the head of the trimming order. */
  lemma NextIsHead(s: Slice, strategy: Strategy)
    ensures Next(s, strategy) == None <==> TrimOrder(s, strategy) == []
    ensures Next(s, strategy).Some? ==>
              var source := Next(s, strategy).value;
              && ListOf(s, source) != []
              && TrimOrder(s, strategy) == [Victim(source, LastOf(s, source))] + TrimOrder(Without(s, source), strategy)
  {
    var next := Next(s, strategy);
    if |s.skills| > 0 {
      SkillIsNext(s, strategy);
    } else {
      NoSkills(s, strategy);
      NoMoreAfter(s, strategy);
      if next.Some? {
        if next.value == MemorySource { MemoryIsNext(s, strategy); } else { FactIsNext(s, strategy, next.value); }
        NoSkills(Without(s, next.value), strategy);
      }
    }
  }

  lemma TokensWithout(s: Slice, source: Source, est: Estimator)
    requires ListOf(s, source) != []
    ensures SliceTokens(s, est) == SliceTokens(Without(s, source), est) + Tokens(LastOf(s, source), est)
  {
  }

  lemma OrderOneMore(s: Slice, strategy: Strategy, est: Estimator, cur: Slice, excluded: seq<BlockDecision>)
    requires FollowsOrder(s, strategy, est, cur, excluded) && Next(cur, strategy).Some?
    ensures ListOf(cur, Next(cur, strategy).value) != []
    ensures var source := Next(cur, strategy).value;
            FollowsOrder(s, strategy, est, Without(cur, source),
                         excluded + [Decide(Victim(source, LastOf(cur, source)), est)])
  {
    var source := Next(cur, strategy).value;
    NextIsHead(cur, strategy);
    var v := Victim(source, LastOf(cur, source));
    Advance(TrimOrder(s, strategy), |excluded|, v, TrimOrder(Without(cur, source), strategy), est);
  }

  lemma Advance(order: seq<Victim>, n: nat, v: Victim, rest: seq<Victim>, est: Estimator)
    requires n <= |order| && order[n..] == [v] + rest
    ensures n < |order| && order[n + 1..] == rest
    ensures DecideAll(order[..n + 1], est) == DecideAll(order[..n], est) + [Decide(v, est)]
  {
    assert order[n] == order[n..][0] == v;
    assert order[n + 1..] == order[n..][1..];
  }

  lemma TokensOneMore(s: Slice, target: int, est: Estimator, cur: Slice, source: Source, excluded: seq<BlockDecision>)
    requires TrimsOnlyWhileOver(s, target, est, cur, excluded) && SliceTokens(cur, est) > target && ListOf(cur, source) != []
    ensures TrimsOnlyWhileOver(s, target, est, Without(cur, source),
                               excluded + [Decide(Victim(source, LastOf(cur, source)), est)])
  {
    var d := Decide(Victim(source, LastOf(cur, source)), est);
    var next := excluded + [d];
    TokensWithout(cur, source, est);
    assert next[..|excluded|] == excluded;
    forall n | 0 <= n < |next| ensures SliceTokens(s, est) - Excluded(next[..n]) > target {
      assert next[..n] == excluded[..n];
      assert n == |excluded| ==> excluded[..n] == excluded;
    }
  }

  lemma ListsOneMore(s: Slice, strategy: Strategy, cur: Slice)
    requires KeepsPrefixes(s, cur) && IdsRefreshed(s, cur) && Next(cur, strategy).Some?
    ensures ListOf(cur, Next(cur, strategy).value) != []
    ensures KeepsPrefixes(s, Without(cur, Next(cur, strategy).value))
    ensures IdsRefreshed(s, Without(cur, Next(cur, strategy).value))
  {
  }

  /** One pass of the loop. */
  method TrimBlock(s: Slice, strategy: Strategy, est: Estimator)
    returns (out: Slice, decision: BlockDecision, note: string)
    requires Next(s, strategy).Some?
    ensures ListOf(s, Next(s, strategy).value) != []
    ensures out == Without(s, Next(s, strategy).value)
    ensures decision == Decide(Victim(Next(s, strategy).value, LastOf(s, Next(s, strategy).value)), est)
  {
    out := s;
    var block, source;
    if |s.skills| > 0 {
      source, block := SkillSource, s.skills[|s.skills| - 1];
      out := out.(skills := s.skills[..|s.skills| - 1]);
      note := "trimmed skill block " + block.ref + " to fit token budget";
    } else if |s.memories| > 0 && strategy != EvidenceFocused {
      source, block := MemorySource, s.memories[|s.memories| - 1];
      out := out.(memories := s.memories[..|s.memories| - 1]);
      var ids := CollectIds(out.memories);
      out := out.(memoryIds := ids);
      note := "trimmed memory block " + block.ref + " to fit token budget";
    } else if |s.states| > 1 {
      source, block := StateSource, s.states[|s.states| - 1];
      out := out.(states := s.states[..|s.states| - 1]);
      note := "trimmed state block " + block.ref + " to fit token budget";
    } else if |s.evidence| > 1 {
      source, block := EvidenceSource, s.evidence[|s.evidence| - 1];
      out := out.(evidence := s.evidence[..|s.evidence| - 1]);
      var ids := CollectIds(out.evidence);
      out := out.(evidenceIds := ids);
      note := "trimmed evidence block " + block.ref + " to fit token budget";
    } else {
      source, block := MemorySource, s.memories[|s.memories| - 1];
      out := out.(memories := s.memories[..|s.memories| - 1]);
      var ids := CollectIds(out.memories);
      out := out.(memoryIds := ids);
      note := "trimmed memory block " + block.ref + " to fit token budget";
    }
    decision := BlockDecision(source, block.ref, Tokens(block, est), "trimmed_to_fit_token_budget");
  }

  method ExcludeBlocksToFitBudget(s: Slice, strategy: Strategy, target: int, est: Estimator)
    returns (out: Slice, excluded: seq<BlockDecision>, notes: seq<string>)
    ensures Trimmed(s, strategy, target, est, out, excluded)
    ensures SliceTokens(out, est) <= target || AtFloor(out)
    ensures |notes| == |excluded| + if SliceTokens(out, est) > target then 1 else 0
  {
    out, excluded, notes := s, [], [];
    var tokens := EstimateSliceTokens(out, est);
    while tokens > target
      invariant tokens == SliceTokens(out, est)
      invariant Trimmed(s, strategy, target, est, out, excluded) && |notes| == |excluded|
      decreases |TrimOrder(out, strategy)|
    {
      NextIsHead(out, strategy);
      if Next(out, strategy) == None {
        FloorIff(out, strategy);
        notes := notes + ["token budget exhausted; no additional block can be safely trimmed"];
        return;
      }
      OrderOneMore(s, strategy, est, out, excluded);
      TokensOneMore(s, target, est, out, Next(out, strategy).value, excluded);
      ListsOneMore(s, strategy, out);
      var decision, note;
      out, decision, note := TrimBlock(out, strategy, est);
      excluded, notes := excluded + [decision], notes + [note];
      tokens := EstimateSliceTokens(out, est);
    }
  }
}
