/** `ExecutionPlan.Validate`: the field checks of every block, unique ids, known dependencies, and the depth-first walk
    that refuses cyclic plans. */
module PlanValidation {
  import opened Wrappers
  import opened PlanGraph
  import opened Walks

  datatype Requirement = Requirement(requirementId: string, kind: string, mandatory: bool)
  datatype Criterion = Criterion(id: string, description: string)
  datatype Hint = Hint(rule: string, description: string)

  datatype ExecutionBlock = ExecutionBlock(
    id: string,
    kind: string,
    recipient: string,
    goal: string,
    requirements: seq<Requirement>,
    contextView: string,
    successCriteria: seq<Criterion>,
    verificationHints: seq<Hint>,
    allowedSkillFamilies: seq<string>,
    dependsOn: seq<string>)

  /** The creation time is absent when the source's time is zero. */
  datatype ExecutionPlan = ExecutionPlan(workflowId: string, taskId: string, createdAt: Option<int>, blocks: seq<ExecutionBlock>)

  datatype BlockError =
    | MissingId | MissingKind | MissingRecipient | WrongRecipient | UnsupportedKind | MissingGoal
    | NoRequirements | IncompleteRequirement | NoMandatoryRequirement | MissingView
    | NoSuccessCriteria | NoSkillFamilies | IncompleteCriterion | NoHints | IncompleteHint

  datatype PlanError =
    | MissingWorkflow | MissingTask | MissingCreation | NoBlocks
    | InvalidBlock(block: string, cause: BlockError)
    | DuplicateBlock(block: string)
    | UnknownDependency(block: string, dep: string)
    | SelfDependency(block: string)
    | CyclicDependency(block: string)

  // ---------- One block ----------

  const BEHAVIOR_INTERVENTION := "behavior_intervention_block"

  function RecipientOf(kind: string): Option<string> {
    if kind in {"cashflow_review_block", "cashflow_liquidity_block", "cashflow_event_impact_block"} then Some("cashflow_agent")
    else if kind in {"debt_review_block", "debt_tradeoff_block", "debt_housing_impact_block"} then Some("debt_agent")
    else if kind in {"tax_event_impact_block", "tax_optimization_block"} then Some("tax_agent")
    else if kind in {"portfolio_event_impact_block", "portfolio_rebalance_block"} then Some("portfolio_agent")
    else if kind == BEHAVIOR_INTERVENTION then Some("behavior_agent")
    else None
  }

  predicate Complete(r: Requirement) { r.requirementId != "" && r.kind != "" }
  predicate CompleteCriterion(c: Criterion) { c.id != "" && c.description != "" }
  predicate CompleteHint(h: Hint) { h.rule != "" && h.description != "" }

  /** What a block must look like to be dispatched. */
  predicate WellFormedBlock(b: ExecutionBlock) {
    && b.id != "" && b.recipient != "" && b.goal != "" && b.contextView != ""
    && RecipientOf(b.kind) == Some(b.recipient)
    && AllComplete(b) && SomeMandatory(b)
    && b.successCriteria != [] && CriteriaComplete(b)
    && b.verificationHints != [] && HintsComplete(b)
    && (b.kind == BEHAVIOR_INTERVENTION ==> b.allowedSkillFamilies != [])
  }

  predicate AllComplete(b: ExecutionBlock) { forall r :: r in b.requirements ==> Complete(r) }
  predicate SomeMandatory(b: ExecutionBlock) { exists r :: r in b.requirements && r.mandatory }
  predicate CriteriaComplete(b: ExecutionBlock) { forall c :: c in b.successCriteria ==> CompleteCriterion(c) }
  predicate HintsComplete(b: ExecutionBlock) { forall h :: h in b.verificationHints ==> CompleteHint(h) }

  /** The first requirement a block fails, in the order in which they are reported. */
  function BlockDefect(b: ExecutionBlock): (defect: Option<BlockError>)
    ensures defect == None <==> WellFormedBlock(b)
  {
    if b.id == "" then Some(MissingId)
    else if b.kind == "" then Some(MissingKind)
    else if b.recipient == "" then Some(MissingRecipient)
    else if RecipientOf(b.kind) == None then Some(UnsupportedKind)
    else if RecipientOf(b.kind) != Some(b.recipient) then Some(WrongRecipient)
    else if b.goal == "" then Some(MissingGoal)
    else if b.requirements == [] then Some(NoRequirements)
    else if !AllComplete(b) then Some(IncompleteRequirement)
    else if !SomeMandatory(b) then Some(NoMandatoryRequirement)
    else if b.contextView == "" then Some(MissingView)
    else if b.successCriteria == [] then Some(NoSuccessCriteria)
    else if b.kind == BEHAVIOR_INTERVENTION && b.allowedSkillFamilies == [] then Some(NoSkillFamilies)
    else if !CriteriaComplete(b) then Some(IncompleteCriterion)
    else if b.verificationHints == [] then Some(NoHints)
    else if !HintsComplete(b) then Some(IncompleteHint)
    else None
  }

  method ValidateBlock(b: ExecutionBlock) returns (err: Option<BlockError>)
    ensures err == BlockDefect(b)
  {
    if b.id == "" { return Some(MissingId); }
    if b.kind == "" { return Some(MissingKind); }
    if b.recipient == "" { return Some(MissingRecipient); }
    var expected := RecipientOf(b.kind);
    if expected == None { return Some(UnsupportedKind); }
    if expected != Some(b.recipient) { return Some(WrongRecipient); }
    if b.goal == "" { return Some(MissingGoal); }
    if b.requirements == [] { return Some(NoRequirements); }
    var mandatoryCount := 0;
    for i := 0 to |b.requirements|
      invariant forall k :: 0 <= k < i ==> Complete(b.requirements[k])
      invariant mandatoryCount >= 0
      invariant mandatoryCount > 0 <==> exists k :: 0 <= k < i && b.requirements[k].mandatory
    {
      if !Complete(b.requirements[i]) {
        assert b.requirements[i] in b.requirements;
        return Some(IncompleteRequirement);
      }
      if b.requirements[i].mandatory { mandatoryCount := mandatoryCount + 1; }
    }
    if mandatoryCount == 0 { return Some(NoMandatoryRequirement); }
    if b.contextView == "" { return Some(MissingView); }
    if b.successCriteria == [] { return Some(NoSuccessCriteria); }
    if b.kind == BEHAVIOR_INTERVENTION && b.allowedSkillFamilies == [] { return Some(NoSkillFamilies); }
    for i := 0 to |b.successCriteria|
      invariant forall k :: 0 <= k < i ==> CompleteCriterion(b.successCriteria[k])
    {
      if !CompleteCriterion(b.successCriteria[i]) {
        assert b.successCriteria[i] in b.successCriteria;
        return Some(IncompleteCriterion);
      }
    }
    if b.verificationHints == [] { return Some(NoHints); }
    for i := 0 to |b.verificationHints|
      invariant forall k :: 0 <= k < i ==> CompleteHint(b.verificationHints[k])
    {
      if !CompleteHint(b.verificationHints[i]) {
        assert b.verificationHints[i] in b.verificationHints;
        return Some(IncompleteHint);
      }
    }
    return None;
  }

  // ---------- The depth-first walk ----------

  function Flag(m: map<string, bool>, id: string): bool {
    id in m && m[id]
  }

  class DependencyWalk {
    const graph: Graph
    var visiting: map<string, bool>
    var visited: map<string, bool>
    /** The finished blocks in the order in which they finished. */
    ghost var order: seq<string>
    /** The blocks whose visit is under way, outermost first. */
    ghost var stack: seq<string>

    ghost predicate Valid()
      reads this
    {
      Closed(graph) && Marks(visiting, stack) && Marks(visited, order) && Progress(graph, order, stack)
    }

    constructor (graph: Graph)
      requires Closed(graph)
      ensures Valid() && this.graph == graph && order == [] && stack == []
    {
      this.graph := graph;
      visiting, visited := map[], map[];
      order, stack := [], [];
    }

    method Visit(id: string) returns (err: Option<string>)
      requires Valid() && id in graph
      requires stack != [] ==> DependsOn(graph, stack[|stack| - 1], id)
      modifies this
      ensures err.None? ==> Valid() && stack == old(stack) && id in order && old(order) <= order
      ensures err.Some? ==> OnCycle(Dependencies(graph), err.value)
      decreases Unseen(graph, order, stack), 0
    {
      if Flag(visited, id) {
        return None;
      }
      if Flag(visiting, id) {
        PathClosesCycle(Dependencies(graph), stack, id);
        return Some(id);
      }
      Enter(graph, order, stack, id);
      visiting := visiting[id := true];
      stack := stack + [id];
      err := VisitDependencies(id);
      if err.Some? { return; }
      Leave(graph, order, old(stack), id);
      visiting := visiting[id := false];
      visited := visited[id := true];
      stack := old(stack);
      order := order + [id];
      assert forall x :: x in old(stack) + [id] <==> x in old(stack) || x == id;
    }

    /** The loop of `Visit` over the dependencies of the block on top of the stack. */
    method VisitDependencies(id: string) returns (err: Option<string>)
      requires Valid() && id in graph && stack != [] && stack[|stack| - 1] == id
      modifies this
      ensures err.None? ==> Valid() && stack == old(stack) && old(order) <= order
      ensures err.None? ==> forall dep :: dep in graph[id] ==> dep in order
      ensures err.Some? ==> OnCycle(Dependencies(graph), err.value)
      decreases Unseen(graph, order, stack), 1
    {
      err := None;
      for i := 0 to |graph[id]|
        invariant err.None? && Valid() && stack == old(stack) && old(order) <= order
        invariant forall k :: 0 <= k < i ==> graph[id][k] in order
      {
        assert DependsOn(graph, id, graph[id][i]);
        assert Unseen(graph, order, stack) <= old(Unseen(graph, order, stack));
        err := Visit(graph[id][i]);
        if err.Some? { return; }
      }
    }
  }

  /** The flags that are set are those of the listed blocks. */
  ghost predicate Marks(flags: map<string, bool>, listed: seq<string>) {
    forall id :: Flag(flags, id) <==> id in listed
  }

  /** The finished blocks stand after their dependencies; the open ones form a path of the graph. */
  ghost predicate Progress(g: Graph, order: seq<string>, stack: seq<string>) {
    && NoRepeats(order) && DependenciesFirst(g, order)
    && NoRepeats(stack) && Path(Dependencies(g), stack)
    && (forall id :: id in stack ==> id in g && id !in order)
  }

  ghost function Unseen(g: Graph, order: seq<string>, stack: seq<string>): set<string> {
    set id | id in g && id !in order && id !in stack
  }

  lemma Enter(g: Graph, order: seq<string>, stack: seq<string>, id: string)
    requires Progress(g, order, stack) && id in g && id !in order && id !in stack
    requires stack != [] ==> DependsOn(g, stack[|stack| - 1], id)
    ensures Progress(g, order, stack + [id])
    ensures Unseen(g, order, stack + [id]) < Unseen(g, order, stack)
  {
    if stack != [] { PathExtends(Dependencies(g), stack, id); }
    assert id in Unseen(g, order, stack);
  }

  lemma Leave(g: Graph, order: seq<string>, stack: seq<string>, id: string)
    requires Progress(g, order, stack + [id]) && forall dep :: dep in g[id] ==> dep in order
    ensures Progress(g, order + [id], stack) && id !in stack
  {
    var open, next := stack + [id], order + [id];
    assert id in open && open[..|stack|] == stack;
    forall i | 0 <= i < |stack| - 1 ensures DependsOn(g, stack[i], stack[i + 1]) {
      assert DependsOn(g, open[i], open[i + 1]);
    }
    forall i | 0 <= i < |stack| ensures stack[i] != id {
      assert open[i] != open[|stack|];
    }
    forall i | 0 <= i < |next| ensures next[i] in g && forall dep :: dep in g[next[i]] ==> dep in next[..i] {
      assert i < |order| ==> next[..i] == order[..i] && next[i] == order[i];
      assert i == |order| ==> next[..i] == order;
    }
  }

  // ---------- The whole plan ----------

  predicate UniqueIds(blocks: seq<ExecutionBlock>) {
    forall i, j :: 0 <= i < j < |blocks| ==> blocks[i].id != blocks[j].id
  }

  predicate KnownDependencies(blocks: seq<ExecutionBlock>) {
    forall i, dep :: 0 <= i < |blocks| && dep in blocks[i].dependsOn ==> HasBlock(blocks, dep) && dep != blocks[i].id
  }

  predicate HasBlock(blocks: seq<ExecutionBlock>, id: string) {
    exists b :: b in blocks && b.id == id
  }

  function BlockIds(blocks: seq<ExecutionBlock>): set<string> {
    set b | b in blocks :: b.id
  }

  ghost function DependenciesOf(blocks: seq<ExecutionBlock>, id: string): seq<string>
    requires HasBlock(blocks, id)
  {
    var b :| b in blocks && b.id == id;
    b.dependsOn
  }

  ghost function GraphOf(blocks: seq<ExecutionBlock>): Graph {
    map id | id in BlockIds(blocks) :: DependenciesOf(blocks, id)
  }

  /** Everything `Validate` checks before it looks for cycles. */
  predicate WellShaped(p: ExecutionPlan) {
    && p.workflowId != "" && p.taskId != "" && p.createdAt.Some? && p.blocks != []
    && AllWellFormed(p.blocks)
    && UniqueIds(p.blocks) && KnownDependencies(p.blocks)
  }

  /** Accepts exactly the well-shaped plans whose dependencies have no cycle, and then `order` runs them; a cycle error
      names a block that really depends on itself. */
  method Validate(p: ExecutionPlan) returns (err: Option<PlanError>, ghost order: seq<string>)
    ensures err == None <==> WellShaped(p) && Acyclic(GraphOf(p.blocks))
    ensures err == None ==> TopologicalOrder(GraphOf(p.blocks), order)
    ensures err.Some? && err.value.CyclicDependency? <==> WellShaped(p) && !Acyclic(GraphOf(p.blocks))
    ensures err.Some? && err.value.CyclicDependency? ==> OnCycle(Dependencies(GraphOf(p.blocks)), err.value.block)
    ensures err.Some? && (err.value.InvalidBlock? || err.value.DuplicateBlock?) ==>
              exists i :: 0 <= i < |p.blocks| && BlockRefusedAt(p.blocks, i, err.value)
    ensures err.Some? && (err.value.UnknownDependency? || err.value.SelfDependency?) ==>
              exists i, d :: 0 <= i < |p.blocks| && DependencyRefusedAt(p.blocks, i, d, GraphOf(p.blocks), err.value)
  {
    order := [];
    if p.workflowId == "" { return Some(MissingWorkflow), []; }
    if p.taskId == "" { return Some(MissingTask), []; }
    if p.createdAt.None? { return Some(MissingCreation), []; }
    if p.blocks == [] { return Some(NoBlocks), []; }
    var seen, shape := FillSeen(p.blocks);
    if shape.Some? { return shape, []; }
    KnownIsClosed(p.blocks, seen);
    GraphIsSeen(p.blocks, seen);
    var unknown := CheckDependencies(p.blocks, seen);
    if unknown.Some? { return unknown, []; }
    assert WellShaped(p);
    var cycle;
    cycle, order := WalkAll(p.blocks, seen);
    CyclicIff(Dependencies(seen));
    err := if cycle.Some? then Some(CyclicDependency(cycle.value)) else None;
  }

  /** The third loop: visit every block. */
  method WalkAll(blocks: seq<ExecutionBlock>, seen: Graph) returns (cycle: Option<string>, ghost order: seq<string>)
    requires Closed(seen) && SeenFrom(blocks, seen)
    ensures cycle == None ==> TopologicalOrder(seen, order) && Acyclic(seen)
    ensures cycle.Some? ==> OnCycle(Dependencies(seen), cycle.value)
  {
    var walk := new DependencyWalk(seen);
    for i := 0 to |blocks|
      invariant walk.Valid() && walk.stack == []
      invariant forall k :: 0 <= k < i ==> blocks[k].id in walk.order
    {
      assert blocks[i] in blocks;
      cycle := walk.Visit(blocks[i].id);
      if cycle.Some? { return cycle, []; }
    }
    order := walk.order;
    assert forall id :: id in order ==> id in seen;
    OrderedIsAcyclic(seen, order);
    return None, order;
  }

  ghost predicate SeenFrom(blocks: seq<ExecutionBlock>, seen: Graph) {
    && (forall id :: id in seen <==> HasBlock(blocks, id))
    && (forall b :: b in blocks ==> b.id in seen && seen[b.id] == b.dependsOn)
  }

  lemma GraphIsSeen(blocks: seq<ExecutionBlock>, seen: Graph)
    requires SeenFrom(blocks, seen)
    ensures GraphOf(blocks) == seen
  {
  }

  predicate AllWellFormed(blocks: seq<ExecutionBlock>) {
    forall b :: b in blocks ==> WellFormedBlock(b)
  }

  /** `err` is about block `i`, and the blocks before it were accepted. */
  predicate BlockRefusedAt(blocks: seq<ExecutionBlock>, i: nat, err: PlanError)
    requires i < |blocks|
  {
    && AllWellFormed(blocks[..i]) && UniqueIds(blocks[..i])
    && match err
       case InvalidBlock(id, cause) => id == blocks[i].id && BlockDefect(blocks[i]) == Some(cause)
       case DuplicateBlock(id) => id == blocks[i].id && WellFormedBlock(blocks[i]) && HasBlock(blocks[..i], id)
       case _ => false
  }

  /** The first loop: fill `seen`, refusing malformed and repeated blocks. */
  method FillSeen(blocks: seq<ExecutionBlock>) returns (seen: Graph, err: Option<PlanError>)
    ensures err == None <==> AllWellFormed(blocks) && UniqueIds(blocks)
    ensures err == None ==> SeenFrom(blocks, seen)
    ensures err.Some? ==> exists i :: 0 <= i < |blocks| && BlockRefusedAt(blocks, i, err.value)
  {
    seen := map[];
    for i := 0 to |blocks|
      invariant SeenFrom(blocks[..i], seen) && UniqueIds(blocks[..i]) && AllWellFormed(blocks[..i])
    {
      var b := blocks[i];
      assert b in blocks;
      var invalid := ValidateBlock(b);
      if invalid.Some? {
        assert BlockRefusedAt(blocks, i, InvalidBlock(b.id, invalid.value));
        return seen, Some(InvalidBlock(b.id, invalid.value));
      }
      assert blocks[..i + 1] == blocks[..i] + [b];
      if b.id in seen {
        assert BlockRefusedAt(blocks, i, DuplicateBlock(b.id));
        return seen, Some(DuplicateBlock(b.id));
      }
      seen := seen[b.id := b.dependsOn];
    }
    assert blocks[..|blocks|] == blocks;
    return seen, None;
  }

  predicate DependenciesKnownTo(b: ExecutionBlock, seen: Graph) {
    forall dep :: dep in b.dependsOn ==> dep in seen && dep != b.id
  }

  /** `err` is about dependency `d` of block `i`, and every dependency before it was accepted. */
  predicate DependencyRefusedAt(blocks: seq<ExecutionBlock>, i: nat, d: int, seen: Graph, err: PlanError)
    requires i < |blocks|
  {
    var b := blocks[i];
    && 0 <= d < |b.dependsOn|
    && (forall k :: 0 <= k < i ==> DependenciesKnownTo(blocks[k], seen))
    && (forall k :: 0 <= k < d ==> b.dependsOn[k] in seen && b.dependsOn[k] != b.id)
    && (b.dependsOn[d] !in seen || b.dependsOn[d] == b.id)
    && err == (if b.dependsOn[d] !in seen then UnknownDependency(b.id, b.dependsOn[d]) else SelfDependency(b.id))
  }

  /** The second loop: look every dependency up in `seen`. */
  method CheckDependencies(blocks: seq<ExecutionBlock>, seen: Graph) returns (err: Option<PlanError>)
    ensures err == None <==> forall b :: b in blocks ==> DependenciesKnownTo(b, seen)
    ensures err.Some? ==> exists i, d :: 0 <= i < |blocks| && DependencyRefusedAt(blocks, i, d, seen, err.value)
  {
    for i := 0 to |blocks|
      invariant forall k :: 0 <= k < i ==> DependenciesKnownTo(blocks[k], seen)
    {
      var b := blocks[i];
      assert b in blocks;
      for d := 0 to |b.dependsOn|
        invariant forall k :: 0 <= k < d ==> b.dependsOn[k] in seen && b.dependsOn[k] != b.id
      {
        if b.dependsOn[d] !in seen {
          assert DependencyRefusedAt(blocks, i, d, seen, UnknownDependency(b.id, b.dependsOn[d]));
          return Some(UnknownDependency(b.id, b.dependsOn[d]));
        }
        if b.dependsOn[d] == b.id {
          assert DependencyRefusedAt(blocks, i, d, seen, SelfDependency(b.id));
          return Some(SelfDependency(b.id));
        }
      }
    }
    return None;
  }

  lemma KnownIsClosed(blocks: seq<ExecutionBlock>, seen: Graph)
    requires SeenFrom(blocks, seen)
    ensures KnownDependencies(blocks) <==> forall b :: b in blocks ==> DependenciesKnownTo(b, seen)
    ensures KnownDependencies(blocks) ==> Closed(seen)
  {
    if forall b :: b in blocks ==> DependenciesKnownTo(b, seen) {
      forall i, dep | 0 <= i < |blocks| && dep in blocks[i].dependsOn
        ensures HasBlock(blocks, dep) && dep != blocks[i].id
      {
        assert DependenciesKnownTo(blocks[i], seen);
      }
    }
    if KnownDependencies(blocks) {
      forall b | b in blocks ensures DependenciesKnownTo(b, seen) {
        var i :| 0 <= i < |blocks| && blocks[i] == b;
      }
      forall id, dep | id in seen && dep in seen[id] ensures dep in seen {
        assert HasBlock(blocks, id);
        var b :| b in blocks && b.id == id;
        assert DependenciesKnownTo(b, seen);
      }
    }
  }
}
