/** The debt block: deterministic metrics, the recommendations made from them, and what governance makes of those. */
module DebtAdvice {
  import opened Wrappers
  import opened Numbers
  import opened Governance

  datatype Finances = Finances(
    debtBurden: real, paymentPressure: real, averageApr: real,
    netIncome: int, outflow: int, emergencyMonths: real, overallRisk: string, lateNightSpending: real)

  datatype Metrics = Metrics(
    debtBurden: real, paymentPressure: real, emergencyMonths: real,
    investableSurplus: int, payoffPressure: real, cashBufferImpact: real, liquidityAfterPaydown: real, tradeoff: real)

  function Clamp01(x: real): real { if x < 0.0 then 0.0 else if x > 1.0 then 1.0 else x }
  function ClampSigned(x: real): real { if x < -1.0 then -1.0 else if x > 1.0 then 1.0 else x }

  method MaxFloat(items: seq<real>) returns (m: real)
    ensures items == [] ==> m == 0.0
    ensures items != [] ==> m in items && forall x :: x in items ==> x <= m
  {
    m := 0.0;
    for i := 0 to |items|
      invariant i == 0 ==> m == 0.0
      invariant i > 0 ==> m in items && forall k :: 0 <= k < i ==> items[k] <= m
    {
      if i == 0 || items[i] > m { m := items[i]; }
    }
  }

  /** The largest of the three ratios to their critical values, within [0, 1]. */
  function PayoffPressure(f: Finances): real {
    Clamp01(Max(f.debtBurden / 0.35, Max(f.paymentPressure / 0.20, f.averageApr / 0.25)))
  }

  method DebtPressureScore(f: Finances) returns (score: real)
    ensures score == PayoffPressure(f)
  {
    var a, b, c := f.debtBurden / 0.35, f.paymentPressure / 0.20, f.averageApr / 0.25;
    var m := MaxFloat([a, b, c]);
    assert m == a || m == b || m == c;
    assert a in [a, b, c] && b in [a, b, c] && c in [a, b, c];
    score := Clamp01(m);
  }

  method DebtDecision(f: Finances) returns (m: Metrics)
    ensures m.debtBurden == f.debtBurden && m.paymentPressure == f.paymentPressure && m.emergencyMonths == f.emergencyMonths
    ensures m.investableSurplus == MaxInt(f.netIncome, 0)
    ensures m.payoffPressure == PayoffPressure(f)
    ensures m.cashBufferImpact == if f.outflow > 0 then Clamp01(MaxInt(f.netIncome, 0) as real / f.outflow as real) else 0.0
    ensures 0.0 <= m.cashBufferImpact <= 1.0 && (f.outflow <= 0 || f.netIncome <= 0 ==> m.cashBufferImpact == 0.0)
    ensures m.liquidityAfterPaydown == Max(f.emergencyMonths - m.cashBufferImpact, 0.0)
    ensures m.tradeoff == Clamp01(MaxInt(f.netIncome, 0) as real / MaxInt(f.outflow, 1) as real) - PayoffPressure(f)
    ensures -1.0 <= m.tradeoff <= 1.0
  {
    var surplus := MaxInt(f.netIncome, 0);
    var cashBufferImpact := 0.0;
    if f.outflow > 0 {
      cashBufferImpact := Clamp01(surplus as real / f.outflow as real);
    }
    var liquidity := f.emergencyMonths - cashBufferImpact;
    if liquidity < 0.0 { liquidity := 0.0; }
    var pressure := DebtPressureScore(f);
    var tradeoff := ClampSigned(Clamp01(surplus as real / MaxInt(f.outflow, 1) as real) - pressure);
    m := Metrics(f.debtBurden, f.paymentPressure, f.emergencyMonths, surplus, pressure, cashBufferImpact, liquidity, tradeoff);
  }

  const DEBT_TRADEOFF := "debt_tradeoff_block"
  const METRICS_CAVEAT := "amounts and pressure indicators follow the finance engine"
  const BUFFER_CAVEAT := "do not widen investment exposure without a liquidity review"
  const INVEST_REASON := "investing more under low liquidity or high debt pressure needs approval"

  const INVEST_RULE := "approval.invest_more.low_liquidity_or_high_debt"

  /** Liquidity or debt make investing more a high-risk proposal. */
  predicate HighRiskInvest(f: Finances) {
    f.emergencyMonths < 3.0 || PayoffPressure(f) >= 0.7
  }

  predicate OffersInvesting(blockKind: string, f: Finances) {
    blockKind == DEBT_TRADEOFF && f.netIncome > 0
  }

  method Recommend(blockId: string, blockKind: string, f: Finances) returns (recs: seq<Recommendation>)
    ensures FromBlock(recs, blockKind, f)
    ensures recs[0].id == blockId + if f.debtBurden >= 0.2 || f.paymentPressure >= 0.15 then ":debt-paydown" else ":debt-coverage"
    ensures OffersInvesting(blockKind, f) ==> recs[1].id == blockId + ":invest-more"
  {
    var m := DebtDecision(f);
    recs := [];
    if m.debtBurden >= 0.2 || m.paymentPressure >= 0.15 {
      recs := recs + [Recommendation(blockId + ":debt-paydown", DebtPaydown, Medium, [METRICS_CAVEAT], false, "", [])];
    } else {
      recs := recs + [Recommendation(blockId + ":debt-coverage", DebtPaydown, Medium, [METRICS_CAVEAT], false, "", [])];
    }
    if blockKind == DEBT_TRADEOFF && m.investableSurplus > 0 {
      var highRiskInvest := m.emergencyMonths < 3.0 || m.payoffPressure >= 0.7;
      var invest := Recommendation(blockId + ":invest-more", InvestMore, Medium, [BUFFER_CAVEAT], false, "", []);
      if highRiskInvest {
        invest := invest.(risk := High);
        invest := invest.(approvalRequired := true, approvalReason := INVEST_REASON, policyRuleRefs := [INVEST_RULE]);
      }
      recs := recs + [invest];
    }
  }

  /** The thresholds behind a pressure of 0.7. */
  lemma PressureThresholds(f: Finances)
    ensures PayoffPressure(f) >= 0.7 <==> f.debtBurden >= 0.245 || f.paymentPressure >= 0.14 || f.averageApr >= 0.175
  {
    assert f.debtBurden / 0.35 >= 0.7 <==> f.debtBurden >= 0.245;
    assert f.paymentPressure / 0.20 >= 0.7 <==> f.paymentPressure >= 0.14;
    assert f.averageApr / 0.25 >= 0.7 <==> f.averageApr >= 0.175;
  }

  /** The block's recommendations submitted for a decision; every other part of the request is the caller's. */
  function Submitted(i: Input, f: Finances, recs: seq<Recommendation>): Input {
    i.(recommendations := recs,
       state := State(f.debtBurden, f.paymentPressure, f.overallRisk, f.lateNightSpending))
  }

  /** What the caller's flags, the action and the risk alone amount to. */
  predicate PlainReview(f: Finances, i: Input, p: ApprovalPolicy) {
    || i.approvalRequired || i.forceApproval
    || (SingleStock(i.action) && PlainRank(f, i.action) >= 3)
    || (PlainRank(f, i.action) >= Rank(PolicyInForce(p).minRisk) && !PolicyInForce(p).autoApprove)
  }

  predicate FromBlock(recs: seq<Recommendation>, blockKind: string, f: Finances) {
    && |recs| == (if OffersInvesting(blockKind, f) then 2 else 1)
    && recs[0].kind == DebtPaydown && recs[0].risk == Medium && recs[0].caveats != []
    && (OffersInvesting(blockKind, f) ==>
          && recs[1].kind == InvestMore && recs[1].caveats != []
          && recs[1].approvalRequired == HighRiskInvest(f)
          && recs[1].policyRuleRefs == If(HighRiskInvest(f), INVEST_RULE)
          && recs[1].risk == (if HighRiskInvest(f) then High else Medium))
    && !recs[0].approvalRequired && recs[0].policyRuleRefs == []
  }

  method RecommendationsRequireApproval(recs: seq<Recommendation>) returns (required: bool)
    ensures required <==> exists r :: r in recs && r.approvalRequired
  {
    for i := 0 to |recs|
      invariant forall k :: 0 <= k < i ==> !recs[k].approvalRequired
    {
      if recs[i].approvalRequired {
        assert recs[i] in recs;
        return true;
      }
    }
    return false;
  }

  /** A block asks for approval exactly when it proposes investing more at high risk. */
  lemma BlockRequiresApprovalIff(blockKind: string, f: Finances, recs: seq<Recommendation>)
    requires FromBlock(recs, blockKind, f)
    ensures (exists r :: r in recs && r.approvalRequired) <==> OffersInvesting(blockKind, f) && HighRiskInvest(f)
  {
    if OffersInvesting(blockKind, f) { assert recs[1] in recs; }
    assert forall r :: r in recs ==> r == recs[0] || (|recs| == 2 && r == recs[1]);
  }

  lemma DecisionOnBlock(blockKind: string, f: Finances, i: Input, p: ApprovalPolicy, recs: seq<Recommendation>)
    requires FromBlock(recs, blockKind, f)
    ensures DecidedOutcome(Submitted(i, f, recs), p, None) ==
              if (OffersInvesting(blockKind, f) && HighRiskInvest(f)) || PlainReview(f, i, p) then RequireApproval else Allow
  {
    assert forall r :: r in recs ==> !Undisclosed(r);
    if OffersInvesting(blockKind, f) && HighRiskInvest(f) {
      assert recs[1] in recs && Triggers(recs[1]);
    } else {
      assert forall r :: r in recs ==> r.risk == Medium && !Triggers(r);
      AllMedium(ClassifiedRank(Submitted(i, f, recs).state, i.action), recs);
    }
  }

  /** From finances to decision without a tool policy. A proposal to invest more under thin liquidity or high pressure is
      always put before a human and never denied; otherwise the decision follows the caller's flags and the risk level. */
  method AdviseAndDecide(blockId: string, blockKind: string, f: Finances, i: Input, p: ApprovalPolicy)
    returns (outcome: Option<Outcome>)
    ensures outcome.Some? <==> ValidInput(i, p, None)
    ensures outcome.Some? && OffersInvesting(blockKind, f)
            && (f.emergencyMonths < 3.0 || f.debtBurden >= 0.245 || f.paymentPressure >= 0.14 || f.averageApr >= 0.175)
            ==> outcome.value == RequireApproval
    ensures outcome.Some? && !(OffersInvesting(blockKind, f) && HighRiskInvest(f)) ==>
              outcome.value == if PlainReview(f, i, p) then RequireApproval else Allow
  {
    var recs := Recommend(blockId, blockKind, f);
    var evaluated := EvaluateAction(Submitted(i, f, recs), p, None);
    if evaluated.None? { return None; }
    PressureThresholds(f);
    DecisionOnBlock(blockKind, f, i, p, recs);
    outcome := Some(evaluated.value.1.outcome);
  }

  /** The request's risk when nothing recommended exceeds medium risk. */
  function PlainRank(f: Finances, action: string): nat {
    Largest(ClassifiedRank(State(f.debtBurden, f.paymentPressure, f.overallRisk, f.lateNightSpending), action), 2)
  }

  lemma {:induction false} AllMedium(base: nat, recs: seq<Recommendation>)
    requires recs != [] && forall r :: r in recs ==> r.risk == Medium
    ensures MergedRank(base, recs) == Largest(base, 2)
  {
    var n := |recs| - 1;
    assert recs[n] in recs;
    if n > 0 {
      assert forall r :: r in recs[..n] ==> r in recs;
      AllMedium(base, recs[..n]);
    }
  }
}
