/** Approval governance: the risk classifier, the scan of the recommendations, the policy engine and the forced review,
    and the single decision they amount to. */
module Governance {
  import opened Wrappers
  import Text

  /** A level outside the four known ones ranks below all of them. */
  datatype Risk = Unrecognised | Low | Medium | High | Critical

  datatype RecommendationType =
    | CashflowAdjustment | ExpenseReduction | DebtPaydown | DebtRestructure | InvestMore | PortfolioRebalance | TaxAction
    | SubscriptionCleanup | SpendNudge | BehaviorGuardrail | OtherType

  datatype Recommendation = Recommendation(
    id: string, kind: RecommendationType, risk: Risk, caveats: seq<string>, approvalRequired: bool, approvalReason: string,
    policyRuleRefs: seq<string>)

  datatype RiskAssessment = RiskAssessment(level: Risk, reasons: seq<string>)

  /** The fields of the financial state that decisions look at. */
  datatype State = State(debtBurden: real, paymentPressure: real, overallRisk: string, lateNightSpending: real)

  datatype Outcome = Allow | RequireApproval | Deny

  datatype ApprovalPolicy = ApprovalPolicy(name: string, minRisk: Risk, autoApprove: bool)

  datatype ToolPolicy = ToolPolicy(toolName: string, allowedRoles: seq<string>, maxCalls: int, approvalAbove: Risk)

  datatype Input = Input(
    state: State,
    workflowId: string,
    action: string,
    resource: string,
    actor: string,
    actorRoles: seq<string>,
    forceApproval: bool,
    recommendations: seq<Recommendation>,
    approvalRequired: bool,
    approvalReason: string,
    policyRuleRefs: seq<string>,
    disclosureReady: bool)

  datatype Decision = Decision(outcome: Outcome, reason: string, appliedPolicy: string, ruleRefs: seq<string>)
  datatype AuditEvent = AuditEvent(id: string, actor: string, action: string, resource: string,
                                   outcome: Outcome, reason: string, ruleRefs: seq<string>)

  // ---------- Risk ----------

  function Rank(r: Risk): nat {
    match r
    case Unrecognised => 0
    case Low => 1
    case Medium => 2
    case High => 3
    case Critical => 4
  }

  function CompareRisk(a: Risk, b: Risk): int { Rank(a) - Rank(b) }

  predicate Recognised(r: Risk) { r != Unrecognised }

  predicate Invests(action: string) {
    Text.Contains(Text.Lower(action), "invest") || Text.Contains(Text.Lower(action), "stock")
  }

  method Classify(s: State, action: string) returns (r: RiskAssessment)
    ensures Rank(r.level) == ClassifiedRank(s, action) && Recognised(r.level)
    ensures r.reasons == if Grounds(s, action) == [] then [BASELINE] else Grounds(s, action)
    ensures r.level == High <==>
              || s.debtBurden >= 0.35 || s.paymentPressure >= 0.2 || s.overallRisk == "high"
              || (Invests(action) && (s.debtBurden >= 0.2 || s.overallRisk == "medium"))
    ensures r.level == Low <==>
              && s.debtBurden < 0.2 && s.paymentPressure < 0.2 && s.overallRisk != "high" && s.overallRisk != "medium"
              && !Invests(action) && s.lateNightSpending < 0.3
  {
    var level, reasons: seq<string> := Low, [];
    if s.debtBurden >= 0.35 || s.paymentPressure >= 0.2 {
      level, reasons := High, reasons + [DEBT_HIGH];
    } else if s.debtBurden >= 0.2 {
      level, reasons := Medium, reasons + [DEBT_ELEVATED];
    }
    if s.overallRisk == "high" {
      level, reasons := High, reasons + [OVERALL_HIGH];
    } else if s.overallRisk == "medium" && level == Low {
      level, reasons := Medium, reasons + [OVERALL_MEDIUM];
    }
    var invests := Invests(action);
    if invests {
      if level == Medium {
        level := High;
      } else if level == Low {
        level := Medium;
      }
      reasons := reasons + [INVESTING];
    }
    if s.lateNightSpending >= 0.3 && level == Low {
      level, reasons := Medium, reasons + [VOLATILE];
    }
    if |reasons| == 0 { reasons := reasons + [BASELINE]; }
    r := RiskAssessment(level, reasons);
  }

  const DEBT_HIGH := "debt pressure is high"
  const DEBT_ELEVATED := "debt burden is elevated"
  const OVERALL_HIGH := "overall financial risk is high"
  const OVERALL_MEDIUM := "overall financial risk is medium"
  const INVESTING := "investment actions carry higher execution risk"
  const VOLATILE := "behavior signal indicates spending volatility"
  const BASELINE := "risk baseline is low"
  const CONTRACT := "recommendation contract supplied explicit risk semantics"

  /** The signals that count. A medium overall risk counts only beside low debt, late-night spending only alone. */
  function Grounds(s: State, action: string): seq<string> {
    If(DebtRank(s) == 3, DEBT_HIGH) + If(DebtRank(s) == 2, DEBT_ELEVATED)
    + If(OverallRank(s) == 3, OVERALL_HIGH) + If(OverallRank(s) == 2 && DebtRank(s) == 1, OVERALL_MEDIUM)
    + If(Invests(action), INVESTING)
    + If(s.lateNightSpending >= 0.3 && DebtRank(s) == 1 && OverallRank(s) == 1 && !Invests(action), VOLATILE)
  }

  function Largest(a: nat, b: nat): nat { if a >= b then a else b }

  function DebtRank(s: State): nat {
    if s.debtBurden >= 0.35 || s.paymentPressure >= 0.2 then 3 else if s.debtBurden >= 0.2 then 2 else 1
  }

  function OverallRank(s: State): nat {
    if s.overallRisk == "high" then 3 else if s.overallRisk == "medium" then 2 else 1
  }

  /** The largest of the independent signals, one step higher (but at most high) for investment actions. */
  function ClassifiedRank(s: State, action: string): nat {
    var calm := Largest(DebtRank(s), OverallRank(s));
    Largest(if Invests(action) && calm < 3 then calm + 1 else calm, if s.lateNightSpending >= 0.3 then 2 else 1)
  }

  function MappedRisk(r: Risk): Risk { if r == Unrecognised then Low else r }

  function MergedRank(base: nat, recs: seq<Recommendation>): nat {
    if recs == [] then base
    else Largest(MergedRank(base, recs[..|recs| - 1]), Rank(MappedRisk(recs[|recs| - 1].risk)))
  }

  method MergeRecommendationRisk(base: RiskAssessment, recs: seq<Recommendation>) returns (r: RiskAssessment)
    requires Recognised(base.level)
    ensures Rank(r.level) == MergedRank(Rank(base.level), recs) && Recognised(r.level)
    ensures r.reasons == Unique(base.reasons + If(recs != [], CONTRACT))
  {
    var level := base.level;
    for i := 0 to |recs|
      invariant Rank(level) == MergedRank(Rank(base.level), recs[..i]) && Recognised(level)
    {
      assert recs[..i + 1][..i] == recs[..i];
      var mapped := MappedRisk(recs[i].risk);
      if CompareRisk(mapped, level) > 0 {
        level := mapped;
      }
    }
    assert recs[..|recs|] == recs;
    var reasons := base.reasons;
    if |recs| > 0 { reasons := reasons + [CONTRACT]; }
    assert reasons == base.reasons + If(recs != [], CONTRACT);
    var unique := UniqueStrings(reasons);
    r := RiskAssessment(level, unique);
  }

  // ---------- Rules ----------

  predicate Sensitive(kind: RecommendationType) {
    kind in {InvestMore, PortfolioRebalance, DebtRestructure, TaxAction, BehaviorGuardrail}
  }

  /** The recommendation by itself calls for a human. */
  predicate Triggers(r: Recommendation) {
    match r.kind
    case InvestMore => r.approvalRequired
    case BehaviorGuardrail => r.approvalRequired
    case PortfolioRebalance => Rank(MappedRisk(r.risk)) >= 3
    case DebtRestructure => Rank(MappedRisk(r.risk)) >= 3
    case TaxAction => Rank(MappedRisk(r.risk)) >= 3
    case _ => false
  }

  predicate Undisclosed(r: Recommendation) {
    Sensitive(r.kind) && r.caveats == []
  }

  predicate RolesMissing(tool: Option<ToolPolicy>, roles: seq<string>) {
    tool.Some? && tool.value.allowedRoles != [] && forall role :: role in roles ==> role !in tool.value.allowedRoles
  }

  method HasIntersection(a: seq<string>, b: seq<string>) returns (r: bool)
    ensures r <==> exists x :: x in a && x in b
  {
    var seen: set<string> := {};
    for i := 0 to |a|
      invariant forall x :: x in seen <==> x in a[..i]
    {
      seen := seen + {a[i]};
      assert a[..i + 1] == a[..i] + [a[i]];
    }
    assert a[..|a|] == a;
    for i := 0 to |b|
      invariant forall k :: 0 <= k < i ==> b[k] !in a
    {
      if b[i] in seen {
        assert b[i] in a && b[i] in b;
        return true;
      }
    }
    return false;
  }

  function FirstNonEmpty(a: string, b: string): string {
    if !Text.Blank(a) then a else if !Text.Blank(b) then b else ""
  }

  datatype Request = Request(
    actor: string, actorRoles: seq<string>, action: string, resource: string, risk: Risk,
    recommendations: seq<Recommendation>, approvalRequired: bool, approvalReason: string, policyRuleRefs: seq<string>,
    disclosureReady: bool, correlationId: string)

  predicate DeniedByRules(q: Request, tool: Option<ToolPolicy>) {
    || RolesMissing(tool, q.actorRoles)
    || (!q.disclosureReady && SomeUndisclosed(q.recommendations))
  }

  predicate ReviewedByRules(q: Request, tool: Option<ToolPolicy>) {
    || (tool.Some? && CompareRisk(q.risk, tool.value.approvalAbove) >= 0)
    || (exists r :: r in q.recommendations && Triggers(r))
    || q.approvalRequired
    || (SingleStock(q.action) && Rank(q.risk) >= 3)
  }

  /** The switch of the scan: why, and under which rule, a recommendation calls for review. */
  method RuleFor(r: Recommendation) returns (rule: Option<(string, string)>)
    ensures rule.Some? <==> Triggers(r)
    ensures rule.Some? ==> rule.value == (TriggerReason(r), TriggerRef(r)) && rule.value.1 != ""
  {
    match r.kind {
      case InvestMore =>
        if r.approvalRequired {
          return Some((FirstNonEmpty(r.approvalReason, "aggressive investment recommendation requires approval"),
                       "approval.low_liquidity_aggressive_invest"));
        }
      case BehaviorGuardrail =>
        if r.approvalRequired {
          return Some((FirstNonEmpty(r.approvalReason, "high-intensity behavior guardrail requires approval"),
                       "behavior.guardrail.hard_cap.approval_required"));
        }
      case _ =>
        if r.kind in {PortfolioRebalance, DebtRestructure, TaxAction} {
          if Sensitive(r.kind) && CompareRisk(MappedRisk(r.risk), High) >= 0 {
            return Some((FirstNonEmpty(r.approvalReason, "sensitive recommendation requires approval"),
                         SENSITIVE));
          }
        }
    }
    return None;
  }

  /** The rule a triggering recommendation falls under. */
  function TriggerRef(r: Recommendation): string {
    if r.kind == InvestMore then "approval.low_liquidity_aggressive_invest"
    else if r.kind == BehaviorGuardrail then "behavior.guardrail.hard_cap.approval_required"
    else SENSITIVE
  }

  /** Its own reason if it gives one. */
  function TriggerReason(r: Recommendation): string {
    FirstNonEmpty(r.approvalReason, StockReason(r.kind))
  }

  function StockReason(kind: RecommendationType): string {
    if kind == InvestMore then "aggressive investment recommendation requires approval"
    else if kind == BehaviorGuardrail then "high-intensity behavior guardrail requires approval"
    else "sensitive recommendation requires approval"
  }

  function TriggeredRefs(recs: seq<Recommendation>): seq<string> {
    if recs == [] then []
    else TriggeredRefs(recs[..|recs| - 1]) + If(Triggers(recs[|recs| - 1]), TriggerRef(recs[|recs| - 1]))
  }

  /** The reason of the last triggering recommendation. */
  function LastReason(recs: seq<Recommendation>, otherwise: string): string {
    if recs == [] then otherwise
    else if Triggers(recs[|recs| - 1]) then TriggerReason(recs[|recs| - 1])
    else LastReason(recs[..|recs| - 1], otherwise)
  }

  lemma {:induction false} TriggeredIff(recs: seq<Recommendation>)
    ensures TriggeredRefs(recs) != [] <==> exists r :: r in recs && Triggers(r)
    ensures AllNonEmpty(TriggeredRefs(recs))
    ensures forall otherwise :: TriggeredRefs(recs) == [] ==> LastReason(recs, otherwise) == otherwise
    ensures forall a, b :: TriggeredRefs(recs) != [] ==> LastReason(recs, a) == LastReason(recs, b)
  {
    if recs != [] {
      var rest, last := recs[..|recs| - 1], recs[|recs| - 1];
      assert recs == rest + [last];
      TriggeredIff(rest);
    }
  }

  lemma TriggeredNext(recs: seq<Recommendation>, i: nat, otherwise: string)
    requires i < |recs|
    ensures TriggeredRefs(recs[..i + 1]) == TriggeredRefs(recs[..i]) + If(Triggers(recs[i]), TriggerRef(recs[i]))
    ensures LastReason(recs[..i + 1], otherwise) ==
              if Triggers(recs[i]) then TriggerReason(recs[i]) else LastReason(recs[..i], otherwise)
  {
    assert recs[..i + 1][..i] == recs[..i];
  }

  predicate AllNonEmpty(refs: seq<string>) { forall ref :: ref in refs ==> ref != "" }

  /** One pass of the recommendation loop. */
  method ScanOne(r: Recommendation, ready: bool, reason0: string, refs0: seq<string>)
    returns (denied: bool, reason: string, refs: seq<string>)
    ensures denied <==> !ready && Undisclosed(r)
    ensures refs == refs0 + If(Triggers(r), TriggerRef(r))
    ensures reason == if Triggers(r) then TriggerReason(r) else reason0
  {
    reason, refs := reason0, refs0;
    var rule := RuleFor(r);
    if rule.Some? {
      reason := rule.value.0;
      refs := refs + [rule.value.1];
    }
    denied := Sensitive(r.kind) && |r.caveats| == 0 && !ready;
  }

  predicate SomeUndisclosed(recs: seq<Recommendation>) {
    exists r :: r in recs && Undisclosed(r)
  }

  lemma UndisclosedNext(recs: seq<Recommendation>, i: nat)
    requires i < |recs|
    ensures SomeUndisclosed(recs[..i + 1]) <==> SomeUndisclosed(recs[..i]) || Undisclosed(recs[i])
    ensures SomeUndisclosed(recs[..i + 1]) ==> SomeUndisclosed(recs)
  {
    assert recs[..i + 1] == recs[..i] + [recs[i]];
  }

  /** The recommendation loop. It stops at the first undisclosed sensitive recommendation. */
  method ScanRecommendations(recs: seq<Recommendation>, ready: bool, reason0: string)
    returns (denied: bool, reason: string, refs: seq<string>)
    ensures denied <==> !ready && SomeUndisclosed(recs)
    ensures !denied ==> refs == TriggeredRefs(recs) && reason == LastReason(recs, reason0)
  {
    denied, reason, refs := false, reason0, [];
    for i := 0 to |recs|
      invariant refs == TriggeredRefs(recs[..i]) && reason == LastReason(recs[..i], reason0)
      invariant !denied && (ready || !SomeUndisclosed(recs[..i]))
    {
      UndisclosedNext(recs, i);
      TriggeredNext(recs, i, reason0);
      denied, reason, refs := ScanOne(recs[i], ready, reason, refs);
      if denied { return; }
    }
    assert recs[..|recs|] == recs;
  }

  const HIGH_RISK := "approval.high_risk"
  const SENSITIVE := "approval.sensitive_recommendation"
  const TOOL_REASON := "tool execution policy requires approval"
  const REPORT_REASON := "report marked recommendation as approval required"
  const STOCK_REASON := "single-stock high-risk actions cannot auto-execute"
  const ROLE_DENIAL := "deny.insufficient_actor_role"
  const DISCLOSURE_DENIAL := "deny.missing_disclosure"
  const DEFAULT_REASON := "action allowed by default"

  function ToolRefs(q: Request, tool: Option<ToolPolicy>): seq<string> {
    If(tool.Some? && CompareRisk(q.risk, tool.value.approvalAbove) >= 0, HIGH_RISK)
  }

  /** The rules behind a review: those of the tool policy and of the triggering recommendations; only without any of these
      the flags of the request count. */
  function ReviewRefs(q: Request, tool: Option<ToolPolicy>): seq<string> {
    var refs := ToolRefs(q, tool) + TriggeredRefs(q.recommendations);
    if refs != [] then refs else [SENSITIVE]
  }

  function ReviewReason(q: Request, tool: Option<ToolPolicy>): string {
    if ToolRefs(q, tool) + TriggeredRefs(q.recommendations) != [] then
      LastReason(q.recommendations, TOOL_REASON)
    else if q.approvalRequired then FirstNonEmpty(q.approvalReason, REPORT_REASON)
    else STOCK_REASON
  }

  /** The rules of the tool policy. */
  method ToolRules(q: Request, tool: Option<ToolPolicy>) returns (unfit: bool, reason: string, refs: seq<string>)
    ensures unfit <==> RolesMissing(tool, q.actorRoles)
    ensures !unfit ==> refs == ToolRefs(q, tool) && reason == if refs == [] then DEFAULT_REASON else TOOL_REASON
  {
    reason, refs := DEFAULT_REASON, [];
    if tool.Some? {
      var intersects := HasIntersection(tool.value.allowedRoles, q.actorRoles);
      if |tool.value.allowedRoles| > 0 && !intersects { return true, reason, refs; }
      if CompareRisk(q.risk, tool.value.approvalAbove) >= 0 {
        reason := TOOL_REASON;
        refs := refs + [HIGH_RISK];
      }
    }
    unfit := false;
  }

  method ApprovalRules(q: Request, tool: Option<ToolPolicy>) returns (outcome: Outcome, reason: string, ruleRefs: seq<string>)
    ensures outcome == if DeniedByRules(q, tool) then Deny else if ReviewedByRules(q, tool) then RequireApproval else Allow
    ensures outcome == Allow <==> ruleRefs == []
    ensures outcome == Allow ==> reason == DEFAULT_REASON
    ensures outcome == Deny ==> ruleRefs == [if RolesMissing(tool, q.actorRoles) then ROLE_DENIAL else DISCLOSURE_DENIAL]
    ensures outcome == RequireApproval ==> reason == ReviewReason(q, tool) && ruleRefs == Unique(ReviewRefs(q, tool))
    ensures AllNonEmpty(ruleRefs)
  {
    var refs, unfit;
    unfit, reason, refs := ToolRules(q, tool);
    if unfit { return Deny, "actor roles do not satisfy tool execution policy", [ROLE_DENIAL]; }
    var denied, scanReason, scanRefs := ScanRecommendations(q.recommendations, q.disclosureReady, reason);
    if denied {
      return Deny, "sensitive recommendation is missing disclosure-ready caveats", [DISCLOSURE_DENIAL];
    }
    TriggeredIff(q.recommendations);
    reason, refs := scanReason, refs + scanRefs;
    assert refs == ToolRefs(q, tool) + TriggeredRefs(q.recommendations);
    outcome, reason, refs := FlagRules(q, reason, refs);
    ruleRefs := UniqueStrings(refs);
    UniqueEmpty(refs);
  }

  predicate SingleStock(action: string) {
    Text.Contains(Text.Lower(action), "single_stock")
  }

  /** The two rules after the scan, which apply only while nothing has called for review. */
  method FlagRules(q: Request, reason0: string, refs0: seq<string>) returns (outcome: Outcome, reason: string, refs: seq<string>)
    requires AllNonEmpty(refs0)
    ensures AllNonEmpty(refs)
    ensures refs != [] <==> refs0 != [] || q.approvalRequired || (SingleStock(q.action) && Rank(q.risk) >= 3)
    ensures outcome == if refs == [] then Allow else RequireApproval
    ensures refs == [] || refs0 != [] ==> reason == reason0 && refs == refs0
    ensures refs0 == [] && refs != [] ==>
              && refs == [SENSITIVE]
              && reason == if q.approvalRequired then FirstNonEmpty(q.approvalReason, REPORT_REASON)
                           else STOCK_REASON
  {
    outcome, reason, refs := if refs0 == [] then Allow else RequireApproval, reason0, refs0;
    if q.approvalRequired && outcome == Allow {
      outcome := RequireApproval;
      reason := FirstNonEmpty(q.approvalReason, REPORT_REASON);
      refs := refs + [SENSITIVE];
    }
    if SingleStock(q.action) && CompareRisk(q.risk, High) >= 0 && outcome == Allow {
      outcome, reason := RequireApproval, STOCK_REASON;
      refs := refs + [SENSITIVE];
    }
  }

  /** First occurrences, without empty strings. */
  function Unique(items: seq<string>): (r: seq<string>)
    ensures forall x :: x in r <==> x in items && x != ""
    ensures forall i, j :: 0 <= i < j < |r| ==> r[i] != r[j]
  {
    if items == [] then []
    else
      var before, item := Unique(items[..|items| - 1]), items[|items| - 1];
      assert items == items[..|items| - 1] + [item];
      if item == "" || item in before then before else before + [item]
  }

  method UniqueStrings(items: seq<string>) returns (result: seq<string>)
    ensures result == Unique(items)
  {
    var seen: set<string> := {};
    result := [];
    for i := 0 to |items|
      invariant result == Unique(items[..i]) && forall x :: x in seen <==> x in result
    {
      assert items[..i + 1][..i] == items[..i];
      if items[i] == "" || items[i] in seen { continue; }
      seen := seen + {items[i]};
      result := result + [items[i]];
    }
    assert items[..|items|] == items;
  }

  lemma UniqueEmpty(refs: seq<string>)
    requires AllNonEmpty(refs)
    ensures Unique(refs) == [] <==> refs == []
  {
    if refs != [] { assert refs[0] in Unique(refs); }
  }

  // ---------- Policy engine ----------

  predicate ValidRequest(q: Request) {
    q.actor != "" && q.action != "" && q.resource != "" && Recognised(q.risk) && q.correlationId != ""
  }

  predicate ValidPolicy(p: ApprovalPolicy) { p.name != "" && Recognised(p.minRisk) }

  predicate ValidTool(tool: Option<ToolPolicy>) {
    tool.Some? ==> tool.value.toolName != "" && Recognised(tool.value.approvalAbove) && tool.value.maxCalls >= 0
  }

  function EngineOutcome(q: Request, p: ApprovalPolicy, tool: Option<ToolPolicy>): Outcome {
    if DeniedByRules(q, tool) then Deny
    else if ReviewedByRules(q, tool) || (CompareRisk(q.risk, p.minRisk) >= 0 && !p.autoApprove) then RequireApproval
    else Allow
  }

  method EvaluateRequest(q: Request, p: ApprovalPolicy, tool: Option<ToolPolicy>)
    returns (r: Option<(Decision, AuditEvent)>)
    ensures r.Some? <==> ValidRequest(q) && ValidPolicy(p) && ValidTool(tool)
    ensures r.Some? ==> r.value.0.outcome == r.value.1.outcome == EngineOutcome(q, p, tool)
    ensures r.Some? ==> r.value.0.reason == r.value.1.reason && r.value.0.ruleRefs == r.value.1.ruleRefs
    ensures r.Some? ==> r.value.0.appliedPolicy == p.name
    ensures r.Some? ==> r.value.1.actor == q.actor && r.value.1.action == q.action && r.value.1.resource == q.resource
    ensures r.Some? && r.value.0.outcome != Allow ==> r.value.0.ruleRefs != []
  {
    if !ValidRequest(q) || !ValidPolicy(p) || !ValidTool(tool) { return None; }
    var outcome, reason, ruleRefs := ApprovalRules(q, tool);
    if CompareRisk(q.risk, p.minRisk) >= 0 && !p.autoApprove && outcome == Allow {
      outcome, reason := RequireApproval, "approval policy requires human review";
      ruleRefs := ruleRefs + [HIGH_RISK];
    }
    var refs := UniqueStrings(q.policyRuleRefs + ruleRefs);
    if outcome != Allow {
      assert ruleRefs[0] in ruleRefs && AllNonEmpty(ruleRefs);
      assert ruleRefs[0] in q.policyRuleRefs + ruleRefs;
    }
    r := Some((Decision(outcome, reason, p.name, refs),
               AuditEvent(q.correlationId + "-action", q.actor, q.action, q.resource, outcome, reason, refs)));
  }

  // ---------- The service ----------

  function PolicyInForce(p: ApprovalPolicy): ApprovalPolicy {
    if p.name != "" then p else ApprovalPolicy("default-approval-policy", High, false)
  }

  predicate ValidInput(i: Input, p: ApprovalPolicy, tool: Option<ToolPolicy>) {
    i.actor != "" && i.action != "" && i.resource != "" && i.workflowId != ""
    && Recognised(PolicyInForce(p).minRisk) && ValidTool(tool)
  }

  /** The rank of the risk the request is decided on. */
  function RequestRank(i: Input): nat {
    MergedRank(ClassifiedRank(i.state, i.action), i.recommendations)
  }

  predicate Denied(i: Input, tool: Option<ToolPolicy>) {
    || RolesMissing(tool, i.actorRoles)
    || (!i.disclosureReady && SomeUndisclosed(i.recommendations))
  }

  predicate Reviewed(i: Input, p: ApprovalPolicy, tool: Option<ToolPolicy>) {
    || (tool.Some? && RequestRank(i) >= Rank(tool.value.approvalAbove))
    || (exists r :: r in i.recommendations && Triggers(r))
    || i.approvalRequired || i.forceApproval
    || (SingleStock(i.action) && RequestRank(i) >= 3)
    || (RequestRank(i) >= Rank(PolicyInForce(p).minRisk) && !PolicyInForce(p).autoApprove)
  }

  /** Approval was asked for on a proposal to invest more or a hard guardrail, or the risk of a rebalancing, restructuring or
      tax proposal is high. */
  predicate CallsForReview(x: Recommendation) {
    || (x.kind in {InvestMore, BehaviorGuardrail} && x.approvalRequired)
    || (x.kind in {PortfolioRebalance, DebtRestructure, TaxAction} && x.risk in {High, Critical})
  }

  predicate SomeCalls(recs: seq<Recommendation>) { exists x :: x in recs && CallsForReview(x) }

  /** The actor has none of the roles the tool policy asks for. */
  predicate Unfit(i: Input, tool: Option<ToolPolicy>) {
    tool.Some? && tool.value.allowedRoles != [] && forall role :: role in tool.value.allowedRoles ==> role !in i.actorRoles
  }

  /** A proposal to invest more, rebalance, restructure debt, act on taxes or set a guardrail comes without caveats. */
  predicate LacksDisclosure(recs: seq<Recommendation>) {
    exists x :: x in recs && x.caveats == []
      && x.kind in {InvestMore, PortfolioRebalance, DebtRestructure, TaxAction, BehaviorGuardrail}
  }

  /** The grounds by the kinds of the proposals. */
  lemma GroundsByKind(i: Input, p: ApprovalPolicy, tool: Option<ToolPolicy>)
    ensures Denied(i, tool) <==> Unfit(i, tool) || (!i.disclosureReady && LacksDisclosure(i.recommendations))
    ensures SomeCalls(i.recommendations) ==> Reviewed(i, p, tool)
  {
    forall x | x in i.recommendations && CallsForReview(x) ensures Triggers(x) {}
    forall x | x in i.recommendations
      ensures Undisclosed(x) <==> x.caveats == [] && x.kind in {InvestMore, PortfolioRebalance, DebtRestructure, TaxAction, BehaviorGuardrail}
    {}
  }

  /** The decision: denied if any ground for denial exists, else reviewed if any ground for review exists. */
  function DecidedOutcome(i: Input, p: ApprovalPolicy, tool: Option<ToolPolicy>): Outcome {
    if Denied(i, tool) then Deny else if Reviewed(i, p, tool) then RequireApproval else Allow
  }

  method EvaluateAction(i: Input, p: ApprovalPolicy, tool: Option<ToolPolicy>)
    returns (r: Option<(RiskAssessment, Decision, AuditEvent)>)
    ensures r.Some? <==> ValidInput(i, p, tool)
    ensures r.Some? ==> Rank(r.value.0.level) == RequestRank(i)
    ensures r.Some? ==> r.value.1.outcome == DecidedOutcome(i, p, tool)
    ensures r.Some? ==> (r.value.1.outcome == Deny <==> Unfit(i, tool) || (!i.disclosureReady && LacksDisclosure(i.recommendations)))
    ensures r.Some? && SomeCalls(i.recommendations) ==> r.value.1.outcome != Allow
    ensures r.Some? ==> r.value.2.outcome == r.value.1.outcome
    ensures r.Some? ==> r.value.2.reason == r.value.1.reason && r.value.2.ruleRefs == r.value.1.ruleRefs
    ensures r.Some? && r.value.1.outcome != Allow && r.value.1.ruleRefs == [] ==>
              i.forceApproval && r.value.1.reason == "workflow risk assessment explicitly flagged approval"
  {
    GroundsByKind(i, p, tool);
    var risk := Classify(i.state, i.action);
    risk := MergeRecommendationRisk(risk, i.recommendations);
    var policy := PolicyInForce(p);
    var q := Request(i.actor, i.actorRoles, i.action, i.resource, risk.level, i.recommendations, i.approvalRequired,
                     i.approvalReason, i.policyRuleRefs, i.disclosureReady, i.workflowId);
    var evaluated := EvaluateRequest(q, policy, tool);
    if evaluated.None? { return None; }
    var (decision, audit) := evaluated.value;
    if i.forceApproval && decision.outcome == Allow {
      decision := decision.(outcome := RequireApproval, reason := "workflow risk assessment explicitly flagged approval");
      audit := audit.(outcome := RequireApproval, reason := decision.reason);
    }
    r := Some((risk, decision, audit));
  }

  method DisclosureReady(recs: seq<Recommendation>) returns (ready: bool)
    ensures ready <==> forall r :: r in recs ==> !Undisclosed(r)
  {
    for i := 0 to |recs|
      invariant forall k :: 0 <= k < i ==> !Undisclosed(recs[k])
    {
      if Sensitive(recs[i].kind) && |recs[i].caveats| == 0 {
        assert Undisclosed(recs[i]) && recs[i] in recs;
        return false;
      }
    }
    return true;
  }

  // ---------- The decision is monotone ----------

  function Severity(o: Outcome): nat {
    match o
    case Allow => 0
    case RequireApproval => 1
    case Deny => 2
  }

  /** `b` is at least as grave a recommendation as `a`. */
  predicate Graver(a: Recommendation, b: Recommendation) {
    && a.kind == b.kind
    && Rank(MappedRisk(a.risk)) <= Rank(MappedRisk(b.risk))
    && (a.approvalRequired ==> b.approvalRequired)
    && (a.caveats == [] ==> b.caveats == [])
  }

  predicate SomeGraver(a: Recommendation, bs: seq<Recommendation>) {
    exists b :: b in bs && Graver(a, b)
  }

  /** Every recommendation of `as'` has a counterpart in `bs`, wherever it stands: `bs` may add, raise and reorder. */
  predicate Covers(as': seq<Recommendation>, bs: seq<Recommendation>) {
    forall a :: a in as' ==> SomeGraver(a, bs)
  }

  predicate WorseState(a: State, b: State) {
    && a.debtBurden <= b.debtBurden
    && a.paymentPressure <= b.paymentPressure
    && OverallRank(a) <= OverallRank(b)
    && a.lateNightSpending <= b.lateNightSpending
  }

  /** `b` asks for the same action in a state, and with recommendations and flags, at least as grave. */
  predicate GraverInput(a: Input, b: Input) {
    && a.action == b.action
    && WorseState(a.state, b.state)
    && Covers(a.recommendations, b.recommendations)
    && (forall role :: role in b.actorRoles ==> role in a.actorRoles)
    && (a.approvalRequired ==> b.approvalRequired)
    && (a.forceApproval ==> b.forceApproval)
    && (b.disclosureReady ==> a.disclosureReady)
  }

  lemma {:induction false} MergedAtLeast(base: nat, recs: seq<Recommendation>, r: Recommendation)
    ensures MergedRank(base, recs) >= base
    ensures r in recs ==> MergedRank(base, recs) >= Rank(MappedRisk(r.risk))
  {
    if recs != [] {
      assert recs == recs[..|recs| - 1] + [recs[|recs| - 1]];
      MergedAtLeast(base, recs[..|recs| - 1], r);
    }
  }

  lemma {:induction false} MergedMonotone(x: nat, as': seq<Recommendation>, y: nat, bs: seq<Recommendation>)
    requires x <= y && Covers(as', bs)
    ensures MergedRank(x, as') <= MergedRank(y, bs)
  {
    if as' == [] {
      MergedAtLeast(y, bs, Recommendation("", OtherType, Low, [], false, "", []));
    } else {
      var last := as'[|as'| - 1];
      assert last in as';
      MergedMonotone(x, as'[..|as'| - 1], y, bs);
      var b :| b in bs && Graver(last, b);
      MergedAtLeast(y, bs, b);
    }
  }

  lemma RankMonotone(a: Input, b: Input)
    requires GraverInput(a, b)
    ensures RequestRank(a) <= RequestRank(b)
  {
    MergedMonotone(ClassifiedRank(a.state, a.action), a.recommendations, ClassifiedRank(b.state, b.action), b.recommendations);
  }

  /** Making a request graver in any of these ways never makes the decision more lenient. */
  lemma DecisionMonotone(a: Input, b: Input, p: ApprovalPolicy, tool: Option<ToolPolicy>)
    requires GraverInput(a, b)
    ensures Severity(DecidedOutcome(a, p, tool)) <= Severity(DecidedOutcome(b, p, tool))
  {
    RankMonotone(a, b);
    if r :| r in a.recommendations && Undisclosed(r) {
      assert SomeGraver(r, b.recommendations);
      var g :| g in b.recommendations && Graver(r, g);
      assert Undisclosed(g);
    }
    if r :| r in a.recommendations && Triggers(r) {
      assert SomeGraver(r, b.recommendations);
      var g :| g in b.recommendations && Graver(r, g);
      assert Triggers(g);
    }
  }

  lemma SameElementsCover(as': seq<Recommendation>, bs: seq<Recommendation>)
    requires forall r :: r in as' ==> r in bs
    ensures Covers(as', bs)
  {
    forall a | a in as' ensures SomeGraver(a, bs) {
      assert a in bs && Graver(a, a);
    }
  }

  /** The order of the recommendations does not matter to the decision, although the scan stops at the first denial. */
  lemma DecisionIgnoresOrder(a: Input, b: Input, p: ApprovalPolicy, tool: Option<ToolPolicy>)
    requires b == a.(recommendations := b.recommendations) && multiset(b.recommendations) == multiset(a.recommendations)
    ensures DecidedOutcome(b, p, tool) == DecidedOutcome(a, p, tool)
    ensures RequestRank(b) == RequestRank(a)
  {
    Reordered(a.recommendations, b.recommendations);
    Reordered(b.recommendations, a.recommendations);
    BothGraver(a, b, p, tool);
  }

  lemma Reordered(as': seq<Recommendation>, bs: seq<Recommendation>)
    requires multiset(as') == multiset(bs)
    ensures Covers(as', bs)
  {
    forall r | r in as' ensures r in bs {
      assert r in multiset(as') && r in multiset(bs);
    }
    SameElementsCover(as', bs);
  }

  lemma BothGraver(a: Input, b: Input, p: ApprovalPolicy, tool: Option<ToolPolicy>)
    requires GraverInput(a, b) && GraverInput(b, a)
    ensures DecidedOutcome(a, p, tool) == DecidedOutcome(b, p, tool) && RequestRank(a) == RequestRank(b)
  {
    DecisionMonotone(a, b, p, tool);
    DecisionMonotone(b, a, p, tool);
    RankMonotone(a, b);
    RankMonotone(b, a);
    SeverityInjective(DecidedOutcome(a, p, tool), DecidedOutcome(b, p, tool));
  }

  lemma SeverityInjective(a: Outcome, b: Outcome)
    requires Severity(a) == Severity(b)
    ensures a == b
  {
  }
}
