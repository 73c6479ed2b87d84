/** Which state, memory and evidence blocks go into a context before it is compacted. */
module BlockSelection {
  import opened Wrappers
  import opened Compaction
  import Text

  datatype View = Planning | Execution | Verification | OtherView

  datatype ContextBudget = ContextBudget(maxStateBlocks: int, maxMemoryBlocks: int, maxEvidenceItems: int, budget: Budget)

  datatype MemoryItem = MemoryItem(id: string, kind: string, summary: string)

  datatype EvidenceRecord = EvidenceRecord(id: string, kind: string, summary: string)

  /** The parts of the financial state as text; None when a part cannot be encoded. */
  type WorldState = string -> Option<string>

  // ---------- Budgets ----------

  function DefaultBudget(view: View): ContextBudget {
    match view
    case Execution => ContextBudget(6, 4, 6, Budget(3200, 2200, 800, 2800))
    case Verification => ContextBudget(4, 2, 6, Budget(2400, 1600, 400, 2000))
    case _ => ContextBudget(4, 3, 4, Budget(2200, 1800, 700, 2200))
  }

  /** An explicit budget counts when it bounds blocks or characters. */
  function ResolveBudget(explicit: ContextBudget, view: View): ContextBudget {
    if explicit.maxStateBlocks != 0 || explicit.maxMemoryBlocks != 0 || explicit.maxEvidenceItems != 0
       || explicit.budget.maxCharacters != 0 then explicit
    else DefaultBudget(view)
  }

  // ---------- Selection ----------

  /** How many of `n` blocks are taken; a bound of 0 or less is none. */
  function Kept(n: nat, bound: int): nat {
    if 0 < bound < n then bound else n
  }

  const EVIDENCE := "required_evidence"
  const RISK := "risk_signal"
  const RECENT := "recent_state"
  const RELEVANCE := "memory_relevance"
  const GAP := "verification_gap"

  /** The parts of the state a view looks at, and why. */
  function Candidates(view: View): seq<(string, string)> {
    match view
    case Planning => [("cashflow_state", EVIDENCE), ("liability_state", RISK), ("risk_state", RISK), ("workflow_state", RECENT)]
    case Execution => [("cashflow_state", EVIDENCE), ("liability_state", EVIDENCE), ("portfolio_state", EVIDENCE),
                       ("tax_state", EVIDENCE), ("behavior_state", RISK), ("risk_state", RISK)]
    case Verification => [("workflow_state", GAP), ("risk_state", RISK), ("cashflow_state", GAP), ("tax_state", GAP)]
    case OtherView => []
  }

  predicate LooksAt(view: View, part: string) {
    exists c :: c in Candidates(view) && c.0 == part
  }

  lemma PartsOfSomeViews(view: View)
    requires view != OtherView
    ensures LooksAt(view, "tax_state") <==> view != Planning
    ensures LooksAt(view, "portfolio_state") <==> view == Execution
    ensures LooksAt(view, "behavior_state") <==> view == Execution
  {
    var cs := Candidates(view);
    DifferentParts();
    if view == Execution {
      assert cs[2] in cs && cs[3] in cs && cs[4] in cs;
    } else {
      assert cs[3] in cs;
    }
  }

  /** Which views look at a part: all at cash flow and risk, planning and execution at liabilities, planning and
      verification at the workflow, execution and verification at taxes, only execution at portfolio and behaviour. */
  lemma PartsByView(view: View)
    requires view != OtherView
    ensures LooksAt(view, "cashflow_state") && LooksAt(view, "risk_state")
    ensures LooksAt(view, "liability_state") <==> view != Verification
    ensures LooksAt(view, "workflow_state") <==> view != Execution
    ensures LooksAt(view, "tax_state") <==> view != Planning
    ensures LooksAt(view, "portfolio_state") <==> view == Execution
    ensures LooksAt(view, "behavior_state") <==> view == Execution
    ensures |Candidates(view)| == if view == Execution then 6 else 4
  {
    PartsOfSomeViews(view);
    PartsOfMostViews(view);
  }

  lemma PartsOfMostViews(view: View)
    requires view != OtherView
    ensures LooksAt(view, "cashflow_state") && LooksAt(view, "risk_state")
    ensures LooksAt(view, "liability_state") <==> view != Verification
    ensures LooksAt(view, "workflow_state") <==> view != Execution
  {
    var cs := Candidates(view);
    DifferentParts();
    assert cs[0] in cs && cs[1] in cs && cs[2] in cs && cs[3] in cs;
    if view == Execution { assert cs[5] in cs; }
  }

  lemma DifferentParts()
    ensures "liability_state"[0] == 'l' && "workflow_state"[0] == 'w' && "tax_state"[0] == 't' && "portfolio_state"[0] == 'p'
    ensures "behavior_state"[0] == 'b' && "cashflow_state"[0] == 'c' && "risk_state"[0] == 'r'
  {
  }

  predicate Encodable(world: WorldState, candidates: seq<(string, string)>, n: nat) {
    forall i :: 0 <= i < n && i < |candidates| ==> world(candidates[i].0).Some?
  }

  function StateBlock(world: WorldState, candidate: (string, string)): Block
    requires world(candidate.0).Some?
  {
    Block(candidate.0, world(candidate.0).value, "", candidate.1)
  }

  /** Fails exactly for an unknown view or when a part within the bound cannot be encoded. */
  method SelectStateBlocks(world: WorldState, view: View, bound: int) returns (r: Option<seq<Block>>)
    ensures r.None? <==> view == OtherView || !Encodable(world, Candidates(view), Kept(|Candidates(view)|, bound))
    ensures r.Some? ==> |r.value| == Kept(|Candidates(view)|, bound)
    ensures r.Some? ==> forall i :: 0 <= i < |r.value| ==>
              world(Candidates(view)[i].0).Some? && r.value[i] == StateBlock(world, Candidates(view)[i])
  {
    if view == OtherView { return None; }
    var candidates := Candidates(view);
    var blocks: seq<Block> := [];
    for i := 0 to |candidates|
      invariant |blocks| == i && (bound > 0 ==> i < bound || i == 0)
      invariant forall k :: 0 <= k < i ==> world(candidates[k].0).Some? && blocks[k] == StateBlock(world, candidates[k])
    {
      var payload := world(candidates[i].0);
      if payload.None? { return None; }
      blocks := blocks + [Block(candidates[i].0, payload.value, "", candidates[i].1)];
      if bound > 0 && |blocks| >= bound { break; }
    }
    r := Some(blocks);
  }

  function MemoryBlock(m: MemoryItem, view: View): Block {
    Block(m.id, m.summary, m.kind, if view == Verification && m.kind == "policy" then GAP else RELEVANCE)
  }

  function SelectedMemories(memories: seq<MemoryItem>, view: View, bound: int): seq<Block> {
    seq(Kept(|memories|, bound), i requires 0 <= i < Kept(|memories|, bound) => MemoryBlock(memories[i], view))
  }

  method SelectMemoryBlocks(memories: seq<MemoryItem>, view: View, bound: int) returns (bs: seq<Block>)
    ensures bs == SelectedMemories(memories, view, bound)
  {
    bs := [];
    for i := 0 to |memories|
      invariant |bs| == i && (bound > 0 ==> i < bound || i == 0)
      invariant forall k :: 0 <= k < i ==> bs[k] == MemoryBlock(memories[k], view)
    {
      bs := bs + [MemoryBlock(memories[i], view)];
      if bound > 0 && |bs| >= bound { break; }
    }
    assert |bs| == Kept(|memories|, bound);
  }

  const SUMMARY_LENGTH: nat := 180

  function CompactSummary(summary: string): (r: string)
    ensures |r| <= SUMMARY_LENGTH + 3
  {
    var trimmed := Text.Trim(summary);
    if |trimmed| <= SUMMARY_LENGTH then trimmed else trimmed[..SUMMARY_LENGTH] + "..."
  }

  /** All of the summary up to the spaces around it, or its first 180 characters and an ellipsis. */
  predicate Shortens(body: string, summary: string) {
    var trimmed := Text.Trim(summary);
    || (body == trimmed && |body| <= SUMMARY_LENGTH)
    || (|trimmed| > SUMMARY_LENGTH && |body| == SUMMARY_LENGTH + 3 && body[..SUMMARY_LENGTH] <= trimmed
        && body[SUMMARY_LENGTH..] == "...")
  }

  lemma SummaryShortens(summary: string)
    ensures Shortens(CompactSummary(summary), summary)
  {
  }

  function EvidenceBlock(e: EvidenceRecord, view: View): Block {
    Block(e.id, CompactSummary(e.summary), e.kind, if view == Verification then GAP else EVIDENCE)
  }

  /** The evidence blocks within the bound. */
  function SelectedEvidence(evidence: seq<EvidenceRecord>, view: View, bound: int): seq<Block> {
    seq(Kept(|evidence|, bound), i requires 0 <= i < Kept(|evidence|, bound) => EvidenceBlock(evidence[i], view))
  }

  method SelectEvidence(evidence: seq<EvidenceRecord>, view: View, bound: int) returns (bs: seq<Block>)
    ensures bs == SelectedEvidence(evidence, view, bound)
  {
    bs := [];
    for i := 0 to |evidence|
      invariant |bs| == i && (bound > 0 ==> i < bound || i == 0)
      invariant forall k :: 0 <= k < i ==> bs[k] == EvidenceBlock(evidence[k], view)
    {
      bs := bs + [EvidenceBlock(evidence[i], view)];
      if bound > 0 && |bs| >= bound { break; }
    }
    assert |bs| == Kept(|evidence|, bound);
  }

  // ---------- Filters ----------

  function Filtered(bs: seq<Block>, keep: Block -> bool): seq<Block> {
    if bs == [] then []
    else Filtered(bs[..|bs| - 1], keep) + if keep(bs[|bs| - 1]) then [bs[|bs| - 1]] else []
  }

  lemma {:induction false} FilteredIff(bs: seq<Block>, keep: Block -> bool)
    ensures forall b :: b in Filtered(bs, keep) <==> b in bs && keep(b)
  {
    if bs != [] {
      FilteredIff(bs[..|bs| - 1], keep);
      assert bs == bs[..|bs| - 1] + [bs[|bs| - 1]];
    }
  }

  lemma {:induction false} AllKept(bs: seq<Block>, keep: Block -> bool)
    requires forall b :: b in bs ==> keep(b)
    ensures Filtered(bs, keep) == bs
  {
    if bs != [] {
      assert bs[|bs| - 1] in bs;
      AllKept(bs[..|bs| - 1], keep);
    }
  }

  lemma FilteredNext(bs: seq<Block>, i: nat, keep: Block -> bool)
    requires i < |bs|
    ensures Filtered(bs[..i + 1], keep) == Filtered(bs[..i], keep) + if keep(bs[i]) then [bs[i]] else []
  {
    assert bs[..i + 1][..i] == bs[..i];
  }

  /** No list asks for every block. */
  function Named(names: seq<string>): Block -> bool { (b: Block) => names == [] || b.ref in names }

  function OfType(types: seq<string>): Block -> bool { (b: Block) => types == [] || b.kind in types }

  method FilterByNames(bs: seq<Block>, names: seq<string>) returns (filtered: seq<Block>)
    ensures filtered == Filtered(bs, Named(names))
  {
    if names == [] {
      AllKept(bs, Named(names));
      return bs;
    }
    filtered := [];
    for i := 0 to |bs|
      invariant filtered == Filtered(bs[..i], Named(names))
    {
      FilteredNext(bs, i, Named(names));
      if bs[i].ref in names { filtered := filtered + [bs[i]]; }
    }
    assert bs[..|bs|] == bs;
  }

  method FilterByType(bs: seq<Block>, types: seq<string>) returns (filtered: seq<Block>)
    ensures filtered == Filtered(bs, OfType(types))
  {
    if types == [] {
      AllKept(bs, OfType(types));
      return bs;
    }
    filtered := [];
    for i := 0 to |bs|
      invariant filtered == Filtered(bs[..i], OfType(types))
    {
      FilteredNext(bs, i, OfType(types));
      if bs[i].kind in types { filtered := filtered + [bs[i]]; }
    }
    assert bs[..|bs|] == bs;
  }

  predicate Mentions(summary: string, phrases: seq<string>) {
    exists p :: p in phrases && Text.Contains(summary, p)
  }

  predicate About(blockKind: string, domain: string) {
    Text.OccursAt(blockKind, domain + "_", 0) || Text.Contains(blockKind, domain)
  }

  /** The phrases a memory must mention to be relevant to a kind of block; None when every memory is. */
  function Phrases(blockKind: string): Option<seq<string>> {
    if About(blockKind, "cashflow") then Some(["subscription", "late-night", "monthly review", "decision", "life event"])
    else if About(blockKind, "debt") then
      Some(["debt pressure", "debt-versus-invest", "debt burden", "decision", "monthly review", "housing"])
    else if About(blockKind, "tax") then Some(["tax signal", "withholding", "family-related tax", "deadline", "life event"])
    else if About(blockKind, "portfolio") then Some(["decision", "liquidity", "life event", "debt pressure"])
    else None
  }

  predicate RelevantTo(b: Block, phrases: Option<seq<string>>) {
    phrases.Some? ==> Mentions(Text.Lower(b.body), phrases.value)
  }

  function ForSpec(kinds: seq<string>, blockKind: string): Block -> bool {
    (b: Block) => (kinds == [] || b.kind in kinds) && RelevantTo(b, Phrases(blockKind))
  }

  method MatchesSpec(b: Block, kinds: seq<string>, blockKind: string) returns (matches: bool)
    ensures matches == ForSpec(kinds, blockKind)(b)
  {
    matches := (kinds == [] || b.kind in kinds) && RelevantTo(b, Phrases(blockKind));
  }

  method FilterForSpec(bs: seq<Block>, kinds: seq<string>, blockKind: string) returns (filtered: seq<Block>)
    ensures filtered == Filtered(bs, ForSpec(kinds, blockKind))
  {
    filtered := [];
    ghost var keep := ForSpec(kinds, blockKind);
    for i := 0 to |bs|
      invariant filtered == Filtered(bs[..i], keep)
    {
      FilteredNext(bs, i, keep);
      var matches := MatchesSpec(bs[i], kinds, blockKind);
      if matches { filtered := filtered + [bs[i]]; }
    }
    assert bs[..|bs|] == bs;
  }
}
