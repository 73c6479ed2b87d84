/** Follow-up tasks after a life event: which are generated, how they depend on each other, and the evidence behind
    them. */
module FollowUps {
  import opened Wrappers
  import opened Text
  import MemoryRecords

  datatype Intent = MonthlyReview | DebtVsInvest | TaxOptimization | PortfolioRebalance

  datatype LifeEvent = SalaryChange | NewChild | JobChange | HousingChange | OtherEvent

  datatype Priority = Medium | High

  datatype Domain = Cashflow | Debt | Tax | Portfolio | Behavior

  /** The result of a block: the domains it is filled in for, each with the memories it used. */
  datatype BlockResult = BlockResult(used: map<Domain, seq<string>>)

  datatype Approval = NoApproval | Notify | Recommended | Mandatory | OtherApproval

  datatype Parent = Parent(id: string, approval: Approval)

  datatype GeneratedTask = GeneratedTask(
    id: string, intent: Intent, approval: Approval, priority: Priority, requiresApproval: bool,
    parentTaskId: string, workflowId: string, generatedAt: int, memoryIds: seq<string>, deadlines: seq<string>,
    notAfter: Option<int>)

  datatype Dependency = Dependency(upstream: string, downstream: string)

  datatype TaskGraph = TaskGraph(
    parentWorkflowId: string, parentTaskId: string, generatedAt: int, tasks: seq<GeneratedTask>, dependencies: seq<Dependency>)

  datatype EvidenceRecord = EvidenceRecord(id: string, isDeadline: bool, end: Option<int>)

  /** What a pass is about, beside the parent task; times are instants, 0 the zero time, and `stamp` formats one. */
  datatype Trigger = Trigger(
    workflowId: string, event: LifeEvent, memories: seq<MemoryRecords.MemoryRecord>, blocks: seq<BlockResult>,
    evidence: seq<EvidenceRecord>, now: int, stamp: int -> string)

  // ---------- Reasons ----------

  /** Every id once, at its first occurrence. */
  function Distinct(ids: seq<string>): seq<string> {
    if ids == [] then []
    else
      var before := Distinct(ids[..|ids| - 1]);
      if ids[|ids| - 1] in before then before else before + [ids[|ids| - 1]]
  }

  lemma {:induction false} DistinctIs(ids: seq<string>)
    ensures forall i, j :: 0 <= i < j < |Distinct(ids)| ==> Distinct(ids)[i] != Distinct(ids)[j]
    ensures forall x :: x in Distinct(ids) <==> x in ids
  {
    if ids != [] {
      DistinctIs(ids[..|ids| - 1]);
      assert ids == ids[..|ids| - 1] + [ids[|ids| - 1]];
    }
  }

  lemma {:induction false} DistinctGrows(a: seq<string>, b: seq<string>)
    ensures Distinct(a) <= Distinct(a + b)
  {
    if b == [] {
      assert a + b == a;
    } else {
      assert (a + b)[..|a + b| - 1] == a + b[..|b| - 1];
      DistinctGrows(a, b[..|b| - 1]);
    }
  }

  function UsedIds(blocks: seq<BlockResult>): seq<string> {
    if blocks == [] then [] else UsedIds(blocks[..|blocks| - 1]) + MemoryIdsUsed(blocks[|blocks| - 1])
  }

  function MemoryIdsUsed(b: BlockResult): seq<string> {
    if Cashflow in b.used then b.used[Cashflow]
    else if Debt in b.used then b.used[Debt]
    else if Tax in b.used then b.used[Tax]
    else if Portfolio in b.used then b.used[Portfolio]
    else if Behavior in b.used then b.used[Behavior]
    else []
  }

  function IdsOf(memories: seq<MemoryRecords.MemoryRecord>): seq<string> {
    seq(|memories|, i requires 0 <= i < |memories| => memories[i].id)
  }

  /** Every id a block used, then ids of other memories up to four in all, or one more when the blocks used four. */
  function ReasonIds(used: seq<string>, others: seq<string>): seq<string> {
    var all, d := Distinct(used + others), |Distinct(used)|;
    var limit := if d < 4 then 4 else d + 1;
    if |all| <= limit then all else all[..limit]
  }

  lemma ReasonIdsKeepUsed(used: seq<string>, others: seq<string>)
    ensures var r := ReasonIds(used, others);
            && (forall x :: x in used ==> x in r)
            && (forall x :: x in r ==> x in used || x in others)
            && (forall i, j :: 0 <= i < j < |r| ==> r[i] != r[j])
            && r <= Distinct(used + others)
            && (var limit := if |Distinct(used)| < 4 then 4 else |Distinct(used)| + 1;
                |r| == if |Distinct(used + others)| < limit then |Distinct(used + others)| else limit)
  {
    var first, all, r := Distinct(used), Distinct(used + others), ReasonIds(used, others);
    DistinctGrows(used, others);
    DistinctIs(used);
    DistinctIs(used + others);
    assert first <= r <= all;
    forall x | x in used ensures x in r { assert x in first; }
    forall x | x in r ensures x in used || x in others { assert x in all; }
  }

  lemma DistinctNext(ids: seq<string>, x: string)
    ensures Distinct(ids + [x]) == if x in Distinct(ids) then Distinct(ids) else Distinct(ids) + [x]
  {
    assert (ids + [x])[..|ids|] == ids;
  }

  lemma UnseenNext(all: seq<string>, ids: seq<string>, i: nat)
    requires i < |ids|
    ensures Distinct(all + ids[..i + 1])
         == if ids[i] in Distinct(all + ids[..i]) then Distinct(all + ids[..i]) else Distinct(all + ids[..i]) + [ids[i]]
  {
    DistinctNext(all + ids[..i], ids[i]);
    assert all + ids[..i] + [ids[i]] == all + ids[..i + 1];
  }

  method AddUnseen(ids: seq<string>, result: seq<string>, ghost all: seq<string>) returns (next: seq<string>)
    requires result == Distinct(all)
    ensures next == Distinct(all + ids)
  {
    next := result;
    assert all + ids[..0] == all;
    for i := 0 to |ids|
      invariant next == Distinct(all + ids[..i])
    {
      UnseenNext(all, ids, i);
      if ids[i] in next { continue; }
      next := next + [ids[i]];
    }
    assert ids[..|ids|] == ids;
  }

  /** The distinct ids after `n` of the others, while the first addition that reaches four has not been made. */
  ghost predicate Filling(used: seq<string>, others: seq<string>, n: nat, result: seq<string>) {
    && n <= |others| && result == Distinct(used + others[..n])
    && |Distinct(used)| <= |result| && (|result| == |Distinct(used)| || |result| < 4)
  }

  lemma FillStep(used: seq<string>, others: seq<string>, n: nat, result: seq<string>)
    requires n < |others| && Filling(used, others, n, result)
    ensures others[n] in result ==> Filling(used, others, n + 1, result)
    ensures others[n] !in result && |result| + 1 < 4 ==> Filling(used, others, n + 1, result + [others[n]])
    ensures others[n] !in result && |result| + 1 >= 4 ==> result + [others[n]] == ReasonIds(used, others)
  {
    DistinctNext(used + others[..n], others[n]);
    assert used + others[..n] + [others[n]] == used + others[..n + 1];
    DistinctGrows(used + others[..n + 1], others[n + 1..]);
    assert used + others[..n + 1] + others[n + 1..] == used + others;
  }

  lemma FillEnd(used: seq<string>, others: seq<string>, result: seq<string>)
    requires Filling(used, others, |others|, result)
    ensures result == ReasonIds(used, others)
  {
    assert others[..|others|] == others;
  }

  /** Ids of other memories until there are four in all; the count is looked at after each addition only. */
  method FillUp(memories: seq<MemoryRecords.MemoryRecord>, start: seq<string>, ghost used: seq<string>)
    returns (result: seq<string>)
    requires start == Distinct(used)
    ensures result == ReasonIds(used, IdsOf(memories))
  {
    result := start;
    ghost var others := IdsOf(memories);
    assert used + others[..0] == used;
    for i := 0 to |memories|
      invariant Filling(used, others, i, result)
    {
      FillStep(used, others, i, result);
      if memories[i].id in result { continue; }
      result := result + [memories[i].id];
      if |result| >= 4 { return; }
    }
    FillEnd(used, others, result);
  }

  method CollectReasonMemoryIds(memories: seq<MemoryRecords.MemoryRecord>, blocks: seq<BlockResult>)
    returns (result: seq<string>)
    ensures result == ReasonIds(UsedIds(blocks), IdsOf(memories))
  {
    result := [];
    for i := 0 to |blocks|
      invariant result == Distinct(UsedIds(blocks[..i]))
    {
      assert blocks[..i + 1][..i] == blocks[..i];
      result := AddUnseen(MemoryIdsUsed(blocks[i]), result, UsedIds(blocks[..i]));
    }
    assert blocks[..|blocks|] == blocks;
    result := FillUp(memories, result, UsedIds(blocks));
  }

  // ---------- The due window ----------

  function DeadlineIds(records: seq<EvidenceRecord>): seq<string> {
    if records == [] then []
    else DeadlineIds(records[..|records| - 1]) + if records[|records| - 1].isDeadline then [records[|records| - 1].id] else []
  }

  predicate Due(r: EvidenceRecord) { r.isDeadline && r.end.Some? }

  /** The earliest end of a deadline. */
  ghost predicate Earliest(records: seq<EvidenceRecord>, e: Option<int>) {
    && (e.None? <==> forall r :: r in records ==> !Due(r))
    && (e.Some? ==> (exists r :: r in records && Due(r) && r.end == e)
                    && forall r :: r in records && Due(r) ==> e.value <= r.end.value)
  }

  method DeriveDueWindow(records: seq<EvidenceRecord>) returns (ids: seq<string>, notAfter: Option<int>)
    ensures ids == DeadlineIds(records) && Earliest(records, notAfter)
  {
    ids, notAfter := [], None;
    for i := 0 to |records|
      invariant ids == DeadlineIds(records[..i]) && Earliest(records[..i], notAfter)
    {
      assert records[..i + 1] == records[..i] + [records[i]];
      var record := records[i];
      if !record.isDeadline { continue; }
      ids := ids + [record.id];
      if record.end.None? { continue; }
      if notAfter.None? || record.end.value < notAfter.value {
        notAfter := record.end;
        assert record in records[..i + 1] && Due(record);
      }
    }
    assert records[..|records|] == records;
  }

  // ---------- Proposals ----------

  datatype Proposal = Proposal(intent: Intent, priority: Priority, requiresApproval: bool)

  predicate HasBlock(blocks: seq<BlockResult>, d: Domain) {
    exists b :: b in blocks && d in b.used
  }

  method HasBlockResult(blocks: seq<BlockResult>, d: Domain) returns (found: bool)
    ensures found <==> HasBlock(blocks, d)
  {
    for i := 0 to |blocks|
      invariant forall b :: b in blocks[..i] ==> d !in b.used
    {
      if d in blocks[i].used { return true; }
    }
    return false;
  }

  function Needle(intent: Intent): Option<string> {
    match intent
    case DebtVsInvest => Some("latest decision")
    case MonthlyReview => Some("monthly review")
    case _ => None
  }

  predicate Mentions(text: string, needle: string) { Contains(Lower(text), needle) }

  predicate RecordMentions(m: MemoryRecords.MemoryRecord, needle: string) {
    Mentions(m.summary, needle) || exists f :: f in m.facts && (Mentions(f.key, needle) || Mentions(f.value, needle))
  }

  /** The memories already tell of such a decision; never for tax and portfolio tasks. */
  predicate Suppressed(intent: Intent, memories: seq<MemoryRecords.MemoryRecord>) {
    || (intent == DebtVsInvest && exists m :: m in memories && RecordMentions(m, "latest decision"))
    || (intent == MonthlyReview && exists m :: m in memories && RecordMentions(m, "monthly review"))
  }

  method ShouldSuppress(intent: Intent, memories: seq<MemoryRecords.MemoryRecord>) returns (suppress: bool)
    ensures suppress <==> Suppressed(intent, memories)
  {
    if Needle(intent).None? { return false; }
    var needle := Needle(intent).value;
    for i := 0 to |memories|
      invariant forall m :: m in memories[..i] ==> !RecordMentions(m, needle)
    {
      var mentions := RecordMentions(memories[i], needle);
      if mentions { return true; }
    }
    return false;
  }

  /** The tasks each kind of event asks for, given the analysed domains. */
  predicate Wanted(event: LifeEvent, blocks: seq<BlockResult>, i: Intent) {
    match i
    case TaxOptimization => event in {SalaryChange, NewChild, JobChange} && HasBlock(blocks, Tax)
    case PortfolioRebalance => event in {SalaryChange, JobChange, HousingChange} && HasBlock(blocks, Portfolio)
    case MonthlyReview => event == NewChild && HasBlock(blocks, Cashflow)
    case DebtVsInvest => event == HousingChange && HasBlock(blocks, Debt)
  }

  function ProposalFor(i: Intent): Proposal {
    Proposal(i, if i in {TaxOptimization, DebtVsInvest} then High else Medium, i == DebtVsInvest)
  }

  predicate Generated(t: Trigger, i: Intent) {
    Wanted(t.event, t.blocks, i) && !Suppressed(i, t.memories)
  }

  ghost function WantedIntents(event: LifeEvent, blocks: seq<BlockResult>): set<Intent> {
    set i: Intent | Wanted(event, blocks, i)
  }

  lemma WantedByEvent(blocks: seq<BlockResult>, cashflow: bool, debt: bool, tax: bool, portfolio: bool)
    requires cashflow == HasBlock(blocks, Cashflow) && debt == HasBlock(blocks, Debt)
    requires tax == HasBlock(blocks, Tax) && portfolio == HasBlock(blocks, Portfolio)
    ensures WantedIntents(SalaryChange, blocks) == OnlyIf(tax, TaxOptimization) + OnlyIf(portfolio, PortfolioRebalance)
    ensures WantedIntents(JobChange, blocks) == OnlyIf(tax, TaxOptimization) + OnlyIf(portfolio, PortfolioRebalance)
    ensures WantedIntents(NewChild, blocks) == OnlyIf(tax, TaxOptimization) + OnlyIf(cashflow, MonthlyReview)
    ensures WantedIntents(HousingChange, blocks) == OnlyIf(debt, DebtVsInvest) + OnlyIf(portfolio, PortfolioRebalance)
    ensures WantedIntents(OtherEvent, blocks) == {}
  {
  }

  ghost function OnlyIf(c: bool, i: Intent): set<Intent> { if c then {i} else {} }

  lemma AtMostTwoWanted(event: LifeEvent, blocks: seq<BlockResult>)
    ensures |WantedIntents(event, blocks)| <= 2
  {
    WantedByEvent(blocks, HasBlock(blocks, Cashflow), HasBlock(blocks, Debt), HasBlock(blocks, Tax), HasBlock(blocks, Portfolio));
  }

  /** Every intent asked for was either generated or suppressed, by the memories alone. */
  ghost predicate Accounts(asked: set<Intent>, memories: seq<MemoryRecords.MemoryRecord>,
                           generated: set<Intent>, suppressed: seq<Intent>)
  {
    && |generated| + |suppressed| == |asked|
    && (forall i :: i in suppressed <==> i in asked && Suppressed(i, memories))
    && (forall i :: i in generated <==> i in asked && !Suppressed(i, memories))
  }

  lemma AccountsNext(asked: set<Intent>, memories: seq<MemoryRecords.MemoryRecord>, generated: set<Intent>,
                     suppressed: seq<Intent>, i: Intent)
    requires Accounts(asked, memories, generated, suppressed) && i !in asked
    ensures i !in generated
    ensures Suppressed(i, memories) ==> Accounts(asked + {i}, memories, generated, suppressed + [i])
    ensures !Suppressed(i, memories) ==> Accounts(asked + {i}, memories, generated + {i}, suppressed)
  {
  }

  function IntentName(i: Intent): string {
    match i
    case MonthlyReview => "monthly_review"
    case DebtVsInvest => "debt_vs_invest"
    case TaxOptimization => "tax_optimization"
    case PortfolioRebalance => "portfolio_rebalance"
  }

  function TaskId(i: Intent, stamp: string): string {
    "task-follow-up-" + IntentName(i) + "-" + stamp
  }

  lemma TaskIdsDistinct(i: Intent, j: Intent, stamp: string)
    requires i != j
    ensures TaskId(i, stamp) != TaskId(j, stamp)
  {
    if |IntentName(i)| == |IntentName(j)| {
      assert TaskId(i, stamp)[15] == IntentName(i)[0] && TaskId(j, stamp)[15] == IntentName(j)[0];
    }
  }

  // ---------- Generation ----------

  class GenerationPass {
    const parent: Parent
    const trigger: Trigger
    const memoryIds: seq<string>
    const deadlines: seq<string>
    const notAfter: Option<int>
    var unique: map<Intent, GeneratedTask>
    var suppressed: seq<Intent>

    constructor (parent: Parent, trigger: Trigger)
      ensures this.parent == parent && this.trigger == trigger && unique == map[] && suppressed == []
      ensures memoryIds == ReasonIds(UsedIds(trigger.blocks), IdsOf(trigger.memories))
      ensures deadlines == DeadlineIds(trigger.evidence) && Earliest(trigger.evidence, notAfter)
    {
      var ids := CollectReasonMemoryIds(trigger.memories, trigger.blocks);
      var ds, due := DeriveDueWindow(trigger.evidence);
      this.parent, this.trigger := parent, trigger;
      memoryIds, deadlines, notAfter := ids, ds, due;
      unique, suppressed := map[], [];
    }

    function Task(p: Proposal): GeneratedTask {
      GeneratedTask(TaskId(p.intent, trigger.stamp(trigger.now)), p.intent, parent.approval, p.priority, p.requiresApproval,
                    parent.id, trigger.workflowId, trigger.now, memoryIds, deadlines, notAfter)
    }

    method Add(p: Proposal)
      modifies this`unique, this`suppressed
      ensures Suppressed(p.intent, trigger.memories) || p.intent in old(unique) ==>
                unique == old(unique) && suppressed == old(suppressed) + [p.intent]
      ensures !Suppressed(p.intent, trigger.memories) && p.intent !in old(unique) ==>
                unique == old(unique)[p.intent := Task(p)] && suppressed == old(suppressed)
    {
      var suppress := ShouldSuppress(p.intent, trigger.memories);
      if suppress || p.intent in unique {
        suppressed := suppressed + [p.intent];
        return;
      }
      unique := unique[p.intent := Task(p)];
    }

    /** What a pass made of the intents `asked` for. */
    ghost predicate Made(unique: map<Intent, GeneratedTask>, suppressed: seq<Intent>, asked: set<Intent>) {
      && Accounts(asked, trigger.memories, unique.Keys, suppressed)
      && (forall i :: i in unique ==> unique[i] == Task(ProposalFor(i)))
    }

    ghost predicate Holds(asked: set<Intent>)
      reads this
    {
      Made(unique, suppressed, asked)
    }

    lemma MadeNext(unique: map<Intent, GeneratedTask>, suppressed: seq<Intent>, asked: set<Intent>, p: Proposal)
      requires p == ProposalFor(p.intent) && Made(unique, suppressed, asked) && p.intent !in asked
      ensures p.intent !in unique
      ensures if Suppressed(p.intent, trigger.memories) then Made(unique, suppressed + [p.intent], asked + {p.intent})
              else Made(unique[p.intent := Task(p)], suppressed, asked + {p.intent})
    {
      AccountsNext(asked, trigger.memories, unique.Keys, suppressed, p.intent);
      assert unique[p.intent := Task(p)].Keys == unique.Keys + {p.intent};
    }

    /** A proposal for an intent not asked for yet. */
    method AddNew(p: Proposal, ghost asked: set<Intent>)
      requires p == ProposalFor(p.intent) && Holds(asked) && p.intent !in asked
      modifies this`unique, this`suppressed
      ensures Holds(asked + {p.intent})
    {
      MadeNext(unique, suppressed, asked, p);
      Add(p);
    }

    /** A proposal made when its domain was analysed. */
    method AddWhen(analysed: bool, p: Proposal, ghost asked: set<Intent>)
      requires p == ProposalFor(p.intent) && Holds(asked) && p.intent !in asked
      modifies this`unique, this`suppressed
      ensures Holds(asked + OnlyIf(analysed, p.intent))
    {
      if analysed { AddNew(p, asked); } else { assert asked + {} == asked; }
    }

    /** The proposals of one event, each made when its domain was analysed. */
    method AddBoth(first: bool, p: Proposal, second: bool, q: Proposal)
      requires unique == map[] && suppressed == []
      requires p == ProposalFor(p.intent) && q == ProposalFor(q.intent) && p.intent != q.intent
      modifies this`unique, this`suppressed
      ensures Holds(OnlyIf(first, p.intent) + OnlyIf(second, q.intent))
    {
      AddWhen(first, p, {});
      assert {} + OnlyIf(first, p.intent) == OnlyIf(first, p.intent);
      AddWhen(second, q, OnlyIf(first, p.intent));
    }

    /** Every wanted intent is either generated or noted as suppressed, and no other; none is asked for twice. */
    method Propose()
      requires unique == map[] && suppressed == []
      modifies this`unique, this`suppressed
      ensures Holds(WantedIntents(trigger.event, trigger.blocks))
    {
      var hasCashflow := HasBlockResult(trigger.blocks, Cashflow);
      var hasDebt := HasBlockResult(trigger.blocks, Debt);
      var hasTax := HasBlockResult(trigger.blocks, Tax);
      var hasPortfolio := HasBlockResult(trigger.blocks, Portfolio);
      WantedByEvent(trigger.blocks, hasCashflow, hasDebt, hasTax, hasPortfolio);
      var tax, portfolio := Proposal(TaxOptimization, High, false), Proposal(PortfolioRebalance, Medium, false);
      match trigger.event {
        case SalaryChange | JobChange =>
          AddBoth(hasTax, tax, hasPortfolio, portfolio);
        case NewChild =>
          AddBoth(hasTax, tax, hasCashflow, Proposal(MonthlyReview, Medium, false));
        case HousingChange =>
          AddBoth(hasDebt, Proposal(DebtVsInvest, High, true), hasPortfolio, portfolio);
        case OtherEvent =>
      }
    }
  }

  function Order(): seq<Intent> { [MonthlyReview, DebtVsInvest, TaxOptimization, PortfolioRebalance] }

  function Rank(i: Intent): nat {
    match i
    case MonthlyReview => 0
    case DebtVsInvest => 1
    case TaxOptimization => 2
    case PortfolioRebalance => 3
  }

  /** The generated tasks: one per generated intent, in the fixed order, each grounded in the same reasons. */
  ghost predicate TasksFor(parent: Parent, t: Trigger, tasks: seq<GeneratedTask>) {
    && (forall i :: Generated(t, i) <==> exists x :: x in tasks && x.intent == i)
    && (forall i, j :: 0 <= i < j < |tasks| ==> Rank(tasks[i].intent) < Rank(tasks[j].intent))
    && (forall x :: x in tasks ==> TaskOf(parent, t, x))
  }

  ghost predicate TaskOf(parent: Parent, t: Trigger, x: GeneratedTask) {
    && x.id == TaskId(x.intent, t.stamp(t.now)) && x.approval == parent.approval
    && x.priority == (if x.intent in {TaxOptimization, DebtVsInvest} then High else Medium) && x.requiresApproval == (x.intent == DebtVsInvest)
    && x.parentTaskId == parent.id && x.workflowId == t.workflowId && x.generatedAt == t.now
    && x.memoryIds == ReasonIds(UsedIds(t.blocks), IdsOf(t.memories))
    && x.deadlines == DeadlineIds(t.evidence) && Earliest(t.evidence, x.notAfter)
  }

  /** Portfolio work waits for tax work when both are generated, and there is no other dependency. */
  ghost predicate DependenciesFor(t: Trigger, dependencies: seq<Dependency>) {
    dependencies == if Generated(t, TaxOptimization) && Generated(t, PortfolioRebalance)
                    then [Dependency(TaskId(TaxOptimization, t.stamp(t.now)), TaskId(PortfolioRebalance, t.stamp(t.now)))]
                    else []
  }

  ghost function UpTo(keys: set<Intent>, k: nat): set<Intent> {
    set i | i in keys && Rank(i) < k
  }

  lemma UpToNext(keys: set<Intent>, k: nat)
    requires k < 4
    ensures Order()[k] !in UpTo(keys, k)
    ensures UpTo(keys, k + 1) == UpTo(keys, k) + OnlyIf(Order()[k] in keys, Order()[k])
    ensures UpTo(keys, 4) == keys && UpTo(keys, 0) == {}
  {
    assert forall i :: Rank(i) == k <==> i == Order()[k];
  }

  /** `tasks` are those of `unique` for the intents `done`, by rank. */
  ghost predicate Lists(tasks: seq<GeneratedTask>, unique: map<Intent, GeneratedTask>, done: set<Intent>) {
    && |tasks| == |done| && done <= unique.Keys
    && (forall x :: x in tasks ==> x.intent in done && x == unique[x.intent])
    && (forall i :: i in done ==> unique[i] in tasks)
    && (forall i, j :: 0 <= i < j < |tasks| ==> Rank(tasks[i].intent) < Rank(tasks[j].intent))
  }

  lemma ListsNext(tasks: seq<GeneratedTask>, unique: map<Intent, GeneratedTask>, k: nat, i: Intent)
    requires k == Rank(i) && i in unique && unique[i].intent == i && Lists(tasks, unique, UpTo(unique.Keys, k))
    ensures Lists(tasks + [unique[i]], unique, UpTo(unique.Keys, k) + {i})
  {
    forall x | 0 <= x < |tasks| ensures Rank(tasks[x].intent) < k {
      assert tasks[x] in tasks;
    }
  }

  method InOrder(unique: map<Intent, GeneratedTask>) returns (tasks: seq<GeneratedTask>)
    requires forall i :: i in unique ==> unique[i].intent == i
    ensures Lists(tasks, unique, unique.Keys)
  {
    var order := Order();
    tasks := [];
    UpToNext(unique.Keys, 0);
    for k := 0 to |order|
      invariant Lists(tasks, unique, UpTo(unique.Keys, k))
    {
      UpToNext(unique.Keys, k);
      if order[k] in unique {
        ListsNext(tasks, unique, k, order[k]);
        tasks := tasks + [unique[order[k]]];
      }
    }
  }

  /** The tasks the finished pass holds are the ones to generate. */
  lemma PassTasks(parent: Parent, t: Trigger, unique: map<Intent, GeneratedTask>, suppressed: seq<Intent>,
                  tasks: seq<GeneratedTask>)
    requires Accounts(WantedIntents(t.event, t.blocks), t.memories, unique.Keys, suppressed)
    requires forall i :: i in unique ==> unique[i].intent == i && TaskOf(parent, t, unique[i])
    requires Lists(tasks, unique, unique.Keys)
    ensures TasksFor(parent, t, tasks)
    ensures |tasks| + |suppressed| == |WantedIntents(t.event, t.blocks)| <= 2
    ensures forall i :: i in unique <==> Generated(t, i)
  {
    AtMostTwoWanted(t.event, t.blocks);
    forall i ensures i in unique <==> Generated(t, i) {}
    forall i | Generated(t, i) ensures exists x :: x in tasks && x.intent == i { assert unique[i] in tasks; }
  }

  method GenerateFollowUpTasks(parent: Parent, t: Trigger)
    returns (tasks: seq<GeneratedTask>, dependencies: seq<Dependency>, suppressed: seq<Intent>)
    ensures TasksFor(parent, t, tasks) && DependenciesFor(t, dependencies)
    ensures forall i :: i in suppressed <==> Wanted(t.event, t.blocks, i) && Suppressed(i, t.memories)
    ensures |tasks| + |suppressed| == |WantedIntents(t.event, t.blocks)| <= 2
  {
    var unique;
    unique, suppressed := Generate(parent, t);
    tasks := InOrder(unique);
    PassTasks(parent, t, unique, suppressed, tasks);
    dependencies := [];
    if TaxOptimization in unique && PortfolioRebalance in unique {
      dependencies := dependencies + [Dependency(unique[TaxOptimization].id, unique[PortfolioRebalance].id)];
    }
  }

  method Generate(parent: Parent, t: Trigger) returns (unique: map<Intent, GeneratedTask>, suppressed: seq<Intent>)
    ensures Accounts(WantedIntents(t.event, t.blocks), t.memories, unique.Keys, suppressed)
    ensures forall i :: i in unique ==> unique[i].intent == i && TaskOf(parent, t, unique[i])
  {
    var pass := new GenerationPass(parent, t);
    pass.Propose();
    return pass.unique, pass.suppressed;
  }

  // ---------- The task graph ----------

  predicate ValidTask(x: GeneratedTask) {
    && !Blank(x.id) && x.approval != OtherApproval
    && x.generatedAt != 0 && x.workflowId != "" && x.parentTaskId != ""
  }

  predicate TaskFits(g: TaskGraph, x: GeneratedTask) {
    ValidTask(x) && x.workflowId == g.parentWorkflowId && x.parentTaskId == g.parentTaskId
  }

  predicate ValidDependency(g: TaskGraph, d: Dependency) {
    && !Blank(d.upstream) && !Blank(d.downstream) && d.upstream != d.downstream
    && (exists x :: x in g.tasks && x.id == d.upstream) && (exists x :: x in g.tasks && x.id == d.downstream)
  }

  /** What the graph's own checks ask for. */
  ghost predicate ValidGraph(g: TaskGraph) {
    && !Blank(g.parentWorkflowId) && !Blank(g.parentTaskId) && g.generatedAt != 0 && g.tasks != []
    && (forall x :: x in g.tasks ==> TaskFits(g, x))
    && DistinctIds(g.tasks)
    && (forall d :: d in g.dependencies ==> ValidDependency(g, d))
  }

  predicate DistinctIds(tasks: seq<GeneratedTask>) {
    forall i, j :: 0 <= i < j < |tasks| ==> tasks[i].id != tasks[j].id
  }

  lemma GeneratedIdsDistinct(parent: Parent, t: Trigger, tasks: seq<GeneratedTask>)
    requires TasksFor(parent, t, tasks)
    ensures DistinctIds(tasks)
  {
    forall i, j | 0 <= i < j < |tasks| ensures tasks[i].id != tasks[j].id {
      assert tasks[i] in tasks && tasks[j] in tasks;
      TaskIdsDistinct(tasks[i].intent, tasks[j].intent, t.stamp(t.now));
    }
  }

  lemma TaskIdNotBlank(i: Intent, stamp: string)
    ensures !Blank(TaskId(i, stamp))
  {
    assert TaskId(i, stamp)[0] == 't';
  }

  lemma GeneratedTaskValidIff(parent: Parent, t: Trigger, x: GeneratedTask)
    requires TaskOf(parent, t, x)
    ensures ValidTask(x) <==> t.workflowId != "" && parent.id != "" && t.now != 0 && parent.approval != OtherApproval
    ensures x.workflowId == t.workflowId && x.parentTaskId == parent.id
  {
    TaskIdNotBlank(x.intent, t.stamp(t.now));
  }

  lemma GeneratedDependenciesValid(parent: Parent, t: Trigger, g: TaskGraph)
    requires TasksFor(parent, t, g.tasks) && DependenciesFor(t, g.dependencies)
    ensures forall d :: d in g.dependencies ==> ValidDependency(g, d)
  {
    if g.dependencies != [] {
      var stamp := t.stamp(t.now);
      var x :| x in g.tasks && x.intent == TaxOptimization;
      var y :| y in g.tasks && y.intent == PortfolioRebalance;
      assert TaskOf(parent, t, x) && TaskOf(parent, t, y);
      TaskIdNotBlank(TaxOptimization, stamp);
      TaskIdNotBlank(PortfolioRebalance, stamp);
      TaskIdsDistinct(TaxOptimization, PortfolioRebalance, stamp);
    }
  }

  lemma SomeTaskIff(parent: Parent, t: Trigger, tasks: seq<GeneratedTask>)
    requires TasksFor(parent, t, tasks)
    ensures tasks != [] <==> exists i :: Generated(t, i)
  {
    if tasks != [] {
      assert tasks[0] in tasks;
      assert Generated(t, tasks[0].intent);
    }
  }

  predicate Usable(parent: Parent, t: Trigger) {
    !Blank(t.workflowId) && !Blank(parent.id) && t.now != 0 && parent.approval != OtherApproval
  }

  lemma GeneratedTasksFitIff(parent: Parent, t: Trigger, g: TaskGraph)
    requires TasksFor(parent, t, g.tasks) && g.tasks != []
    requires g.parentWorkflowId == t.workflowId && g.parentTaskId == parent.id && g.generatedAt == t.now
    ensures (&& !Blank(g.parentWorkflowId) && !Blank(g.parentTaskId) && g.generatedAt != 0
             && forall x :: x in g.tasks ==> TaskFits(g, x)) <==> Usable(parent, t)
  {
    forall x | x in g.tasks
      ensures TaskFits(g, x) <==> t.workflowId != "" && parent.id != "" && t.now != 0 && parent.approval != OtherApproval
    {
      GeneratedTaskValidIff(parent, t, x);
    }
    assert g.tasks[0] in g.tasks;
  }

  /** The generated graph passes its checks exactly when some follow-up was generated and the parent's own fields are
      usable: ids never clash and dependencies never dangle. */
  lemma GraphValidIff(parent: Parent, t: Trigger, g: TaskGraph)
    requires TasksFor(parent, t, g.tasks) && DependenciesFor(t, g.dependencies)
    requires g.parentWorkflowId == t.workflowId && g.parentTaskId == parent.id && g.generatedAt == t.now
    ensures ValidGraph(g) <==> Usable(parent, t) && exists i :: Generated(t, i)
  {
    SomeTaskIff(parent, t, g.tasks);
    if g.tasks != [] {
      GeneratedIdsDistinct(parent, t, g.tasks);
      GeneratedDependenciesValid(parent, t, g);
      GeneratedTasksFitIff(parent, t, g);
    }
  }

  lemma PlaceOf(parent: Parent, t: Trigger, tasks: seq<GeneratedTask>, i: Intent) returns (k: nat)
    requires TasksFor(parent, t, tasks) && Generated(t, i)
    ensures k < |tasks| && tasks[k].intent == i && tasks[k].id == TaskId(i, t.stamp(t.now))
  {
    var x :| x in tasks && x.intent == i;
    k :| 0 <= k < |tasks| && tasks[k] == x;
    assert TaskOf(parent, t, x);
  }

  lemma InRankOrder(parent: Parent, t: Trigger, tasks: seq<GeneratedTask>, i: nat, j: nat)
    requires TasksFor(parent, t, tasks) && i < |tasks| && j < |tasks| && Rank(tasks[i].intent) < Rank(tasks[j].intent)
    ensures i < j
  {
  }

  /** A dependency goes from a task to a later one of the list, so the order of the list is an order to work in. */
  lemma DependenciesPointForward(parent: Parent, t: Trigger, tasks: seq<GeneratedTask>, dependencies: seq<Dependency>)
    requires TasksFor(parent, t, tasks) && DependenciesFor(t, dependencies)
    ensures forall d :: d in dependencies ==>
              exists i, j :: 0 <= i < j < |tasks| && tasks[i].id == d.upstream && tasks[j].id == d.downstream
  {
    if dependencies != [] {
      var i := PlaceOf(parent, t, tasks, TaxOptimization);
      var j := PlaceOf(parent, t, tasks, PortfolioRebalance);
      InRankOrder(parent, t, tasks, i, j);
    }
  }
}
