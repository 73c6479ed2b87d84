/** Snapshots of debts and holdings: weighted averages and rounded allocations. Amounts are whole cents. */
module Ledger {
  import opened Numbers

  datatype Debt = Debt(name: string, balance: int, annualRate: real, minimumDue: int)
  datatype Holding = Holding(assetClass: string, marketValue: int, targetAllocation: real)

  datatype DebtSnapshot = DebtSnapshot(
    totalDebt: int, averageApr: real, debtBurden: real, minimumPaymentPressure: real)

  datatype PortfolioSnapshot = PortfolioSnapshot(
    totalAssets: int, allocations: map<string, real>, targets: map<string, real>, drift: map<string, real>,
    emergencyFundMonths: real)

  // ---------- Debts ----------

  function TotalBalance(debts: seq<Debt>): int {
    if debts == [] then 0 else TotalBalance(debts[..|debts| - 1]) + debts[|debts| - 1].balance
  }

  function TotalMinimumDue(debts: seq<Debt>): int {
    if debts == [] then 0 else TotalMinimumDue(debts[..|debts| - 1]) + debts[|debts| - 1].minimumDue
  }

  function Weighted(d: Debt): real { d.balance as real * d.annualRate }

  function WeightedRates(debts: seq<Debt>): real {
    if debts == [] then 0.0
    else
      var d := debts[|debts| - 1];
      WeightedRates(debts[..|debts| - 1]) + Weighted(d)
  }

  function AverageRate(debts: seq<Debt>): real {
    if TotalBalance(debts) > 0 then WeightedRates(debts) / TotalBalance(debts) as real else 0.0
  }

  /** The evidence values; `inflow` is the income of the period. */
  method BuildDebtSnapshot(debts: seq<Debt>, inflow: int) returns (s: DebtSnapshot)
    ensures s.totalDebt == TotalBalance(debts)
    ensures s.averageApr == RoundTo4(AverageRate(debts))
    ensures s.debtBurden == RoundTo4(TotalMinimumDue(debts) as real / MaxInt(inflow, 1) as real)
    ensures s.minimumPaymentPressure == s.debtBurden
  {
    var totalDebt, totalAprWeighted, totalMinimumDue := 0, 0.0, 0;
    for i := 0 to |debts|
      invariant totalDebt == TotalBalance(debts[..i])
      invariant totalAprWeighted == WeightedRates(debts[..i])
      invariant totalMinimumDue == TotalMinimumDue(debts[..i])
    {
      assert debts[..i + 1][..i] == debts[..i];
      totalDebt := totalDebt + debts[i].balance;
      totalAprWeighted := totalAprWeighted + debts[i].balance as real * debts[i].annualRate;
      totalMinimumDue := totalMinimumDue + debts[i].minimumDue;
    }
    assert debts[..|debts|] == debts;
    var averageApr := 0.0;
    if totalDebt > 0 {
      averageApr := totalAprWeighted / totalDebt as real;
    }
    var monthlyIncome := MaxInt(inflow, 1);
    var debtBurden := totalMinimumDue as real / monthlyIncome as real;
    s := DebtSnapshot(totalDebt, RoundTo4(averageApr), RoundTo4(debtBurden), RoundTo4(debtBurden));
  }

  predicate RatesWithin(debts: seq<Debt>, low: real, high: real) {
    forall d :: d in debts ==> d.balance >= 0 && low <= d.annualRate <= high
  }

  lemma RatesNext(debts: seq<Debt>, rest: seq<Debt>, d: Debt)
    requires debts == rest + [d]
    ensures TotalBalance(debts) == TotalBalance(rest) + d.balance
    ensures WeightedRates(debts) == WeightedRates(rest) + Weighted(d)
  {
    assert debts[..|debts| - 1] == rest;
  }

  lemma {:induction false} WeightedRatesBounded(debts: seq<Debt>, low: real, high: real, total: real)
    requires RatesWithin(debts, low, high) && total == TotalBalance(debts) as real
    ensures TotalBalance(debts) >= 0
    ensures low * total <= WeightedRates(debts) <= high * total
  {
    if debts != [] {
      var rest, d := debts[..|debts| - 1], debts[|debts| - 1];
      assert d in debts && forall e :: e in rest ==> e in debts;
      var before := TotalBalance(rest) as real;
      WeightedRatesBounded(rest, low, high, before);
      RatesNext(debts, rest, d);
      ProductStep(low, high, before, WeightedRates(rest), d, total);
    }
  }

  lemma ProductStep(low: real, high: real, before: real, weighted: real, d: Debt, total: real)
    requires d.balance >= 0 && low <= d.annualRate <= high && total == before + d.balance as real
    requires low * before <= weighted <= high * before
    ensures low * total <= weighted + Weighted(d) <= high * total
  {
    ProductBetween(low, d.annualRate, high, d.balance as real);
    assert low * total == low * before + low * d.balance as real;
    assert high * total == high * before + high * d.balance as real;
  }

  lemma ProductBetween(low: real, x: real, high: real, b: real)
    requires b >= 0.0 && low <= x <= high
    ensures low * b <= b * x <= high * b
  {
  }

  lemma QuotientOrder(x: real, y: real, t: real)
    requires t > 0.0 && x * t <= y
    ensures x <= y / t
  {
  }

  lemma QuotientOrderAbove(x: real, y: real, t: real)
    requires t > 0.0 && y <= x * t
    ensures y / t <= x
  {
  }

  /** With balances that are not negative and not all zero, the reported rate lies between the reported bounds of the
      account rates. */
  lemma AverageBetweenRates(debts: seq<Debt>, low: real, high: real)
    requires RatesWithin(debts, low, high) && TotalBalance(debts) > 0
    ensures low <= AverageRate(debts) <= high
    ensures RoundTo4(low) <= RoundTo4(AverageRate(debts)) <= RoundTo4(high)
  {
    var t := TotalBalance(debts) as real;
    WeightedRatesBounded(debts, low, high, t);
    QuotientOrder(low, WeightedRates(debts), t);
    QuotientOrderAbove(high, WeightedRates(debts), t);
    RoundTo4Monotone(low, AverageRate(debts));
    RoundTo4Monotone(AverageRate(debts), high);
  }

  /** Non-negative balances are needed: one credit balance can push the average above every account's rate. */
  lemma CreditBalanceEscapesRates()
    ensures var debts := [Debt("card", 100, 0.2, 0), Debt("credit", -50, 0.1, 0)];
            TotalBalance(debts) > 0 && AverageRate(debts) > 0.2
  {
    var debts := [Debt("card", 100, 0.2, 0), Debt("credit", -50, 0.1, 0)];
    assert debts[..1] == [Debt("card", 100, 0.2, 0)] && debts[..1][..0] == [];
    assert TotalBalance(debts[..1]) == 100 && WeightedRates(debts[..1]) == 20.0;
    assert TotalBalance(debts) == 50 && WeightedRates(debts) == 15.0;
  }

  // ---------- Exactly when the average is one ----------

  /** The same accounts under other rates. */
  function WithRates(debts: seq<Debt>, rates: seq<real>): seq<Debt>
    requires |rates| == |debts|
  {
    seq(|debts|, i requires 0 <= i < |debts| => debts[i].(annualRate := rates[i]))
  }

  predicate Bound(low: real, rates: seq<real>, high: real) {
    forall r :: r in rates ==> low <= r <= high
  }

  ghost predicate WithinBounds(debts: seq<Debt>, rates: seq<real>, low: real, high: real)
    requires |rates| == |debts|
  {
    Bound(low, rates, high) ==> low <= AverageRate(WithRates(debts, rates)) <= high
  }

  /** The same for what the snapshot reports: the average, and with it the bounds, to four places. */
  ghost predicate ReportedWithin(debts: seq<Debt>, rates: seq<real>, low: real, high: real)
    requires |rates| == |debts|
  {
    Bound(low, rates, high) ==> RoundTo4(low) <= RoundTo4(AverageRate(WithRates(debts, rates))) <= RoundTo4(high)
  }

  /** Whatever the rates are, the exact average lies between any bounds of them. */
  ghost predicate AlwaysBetween(debts: seq<Debt>) {
    forall rates, low, high :: |rates| == |debts| ==> WithinBounds(debts, rates, low, high)
  }

  ghost predicate AlwaysReportedBetween(debts: seq<Debt>) {
    forall rates, low, high :: |rates| == |debts| ==> ReportedWithin(debts, rates, low, high)
  }

  predicate NoCredit(debts: seq<Debt>) {
    forall d :: d in debts ==> d.balance >= 0
  }

  lemma {:induction false} SameBalances(debts: seq<Debt>, rates: seq<real>)
    requires |rates| == |debts|
    ensures TotalBalance(WithRates(debts, rates)) == TotalBalance(debts)
  {
    if debts != [] {
      var n := |debts| - 1;
      assert WithRates(debts, rates)[..n] == WithRates(debts[..n], rates[..n]);
      SameBalances(debts[..n], rates[..n]);
    }
  }

  lemma NoCreditBetween(debts: seq<Debt>, rates: seq<real>, low: real, high: real)
    requires |rates| == |debts| && NoCredit(debts) && TotalBalance(debts) > 0 && Bound(low, rates, high)
    ensures low <= AverageRate(WithRates(debts, rates)) <= high
  {
    var rated := WithRates(debts, rates);
    SameBalances(debts, rates);
    forall d | d in rated ensures d.balance >= 0 && low <= d.annualRate <= high {
      var i :| 0 <= i < |rated| && rated[i] == d;
      assert rates[i] in rates && debts[i] in debts;
    }
    AverageBetweenRates(rated, low, high);
  }

  /** A rate of `x` on account `k` and of zero on all others. */
  function Only(k: nat, x: real, n: nat): seq<real> {
    seq(n, i => if i == k then x else 0.0)
  }

  lemma {:induction false} OnlyWeights(debts: seq<Debt>, k: nat, x: real)
    ensures WeightedRates(WithRates(debts, Only(k, x, |debts|))) == if k < |debts| then debts[k].balance as real * x else 0.0
  {
    if debts != [] {
      var n := |debts| - 1;
      var rated := WithRates(debts, Only(k, x, |debts|));
      assert rated[..n] == WithRates(debts[..n], Only(k, x, n));
      OnlyWeights(debts[..n], k, x);
      assert Weighted(rated[n]) == if n == k then debts[n].balance as real * x else 0.0;
    }
  }

  /** A rate on a credit account alone, as large as the total, makes the average that account's balance: too far below
      zero for rounding to hide it. */
  lemma CreditEscapes(debts: seq<Debt>, k: nat)
    requires k < |debts| && debts[k].balance < 0 && TotalBalance(debts) > 0
    ensures var t := TotalBalance(debts) as real;
            && !WithinBounds(debts, Only(k, t, |debts|), 0.0, t)
            && !ReportedWithin(debts, Only(k, t, |debts|), 0.0, t)
  {
    var t := TotalBalance(debts) as real;
    OnlyAverage(debts, k, t);
    ReportedBelow(debts[k].balance);
    assert Bound(0.0, Only(k, t, |debts|), t);
  }

  lemma OnlyAverage(debts: seq<Debt>, k: nat, t: real)
    requires k < |debts| && t == TotalBalance(debts) as real && t > 0.0
    ensures AverageRate(WithRates(debts, Only(k, t, |debts|))) == debts[k].balance as real
  {
    var rated, balance := OnlyRated(debts, k, t);
    AverageIs(rated, balance, t);
  }

  lemma OnlyRated(debts: seq<Debt>, k: nat, t: real) returns (rated: seq<Debt>, balance: real)
    requires k < |debts|
    ensures rated == WithRates(debts, Only(k, t, |debts|)) && balance == debts[k].balance as real
    ensures TotalBalance(rated) == TotalBalance(debts) && WeightedRates(rated) == balance * t
  {
    rated, balance := WithRates(debts, Only(k, t, |debts|)), debts[k].balance as real;
    SameBalances(debts, Only(k, t, |debts|));
    OnlyWeights(debts, k, t);
  }

  lemma AverageIs(debts: seq<Debt>, balance: real, t: real)
    requires t > 0.0 && TotalBalance(debts) as real == t && WeightedRates(debts) == balance * t
    ensures AverageRate(debts) == balance
  {
    QuotientCancels(balance, t);
  }

  lemma ReportedBelow(balance: int)
    requires balance < 0
    ensures RoundTo4(balance as real) < RoundTo4(0.0)
  {
    RoundTo4Monotone(balance as real, -1.0);
    assert RoundTo4(-1.0) == -1.0 && RoundTo4(0.0) == 0.0;
  }

  lemma QuotientCancels(x: real, t: real)
    requires t > 0.0
    ensures x * t / t == x
  {
  }

  /** Without a positive total the report is 0, whatever the rates are. */
  lemma NoDebtReportsZero(debts: seq<Debt>)
    requires TotalBalance(debts) <= 0
    ensures !WithinBounds(debts, seq(|debts|, _ => 1.0), 1.0, 1.0)
    ensures !ReportedWithin(debts, seq(|debts|, _ => 1.0), 1.0, 1.0)
  {
    var rates := seq(|debts|, _ => 1.0);
    SameBalances(debts, rates);
    assert Bound(1.0, rates, 1.0);
    assert AverageRate(WithRates(debts, rates)) == 0.0;
    assert RoundTo4(1.0) == 1.0 && RoundTo4(0.0) == 0.0;
  }

  lemma WithoutCreditBetween(debts: seq<Debt>)
    requires TotalBalance(debts) > 0 && NoCredit(debts)
    ensures AlwaysBetween(debts) && AlwaysReportedBetween(debts)
  {
    forall rates, low, high | |rates| == |debts|
      ensures WithinBounds(debts, rates, low, high) && ReportedWithin(debts, rates, low, high)
    {
      if Bound(low, rates, high) {
        NoCreditBetween(debts, rates, low, high);
        RoundTo4Monotone(low, AverageRate(WithRates(debts, rates)));
        RoundTo4Monotone(AverageRate(WithRates(debts, rates)), high);
      }
    }
  }

  /** The exact average keeps within any bounds of the rates, and the reported one within the bounds to four places,
      whatever the rates are, exactly when the total is positive and no account has a credit balance. */
  lemma AverageBetweenIff(debts: seq<Debt>)
    ensures AlwaysBetween(debts) <==> TotalBalance(debts) > 0 && NoCredit(debts)
    ensures AlwaysReportedBetween(debts) <==> TotalBalance(debts) > 0 && NoCredit(debts)
  {
    if TotalBalance(debts) <= 0 {
      NoDebtReportsZero(debts);
    } else if NoCredit(debts) {
      WithoutCreditBetween(debts);
    } else {
      var k :| 0 <= k < |debts| && debts[k].balance < 0;
      CreditEscapes(debts, k);
    }
  }

  /** The bounds have to be rounded too: one account is enough for the report to exceed the only rate. */
  lemma RoundingEscapesRates()
    ensures var debts := [Debt("card", 100, 0.12345, 0)];
            TotalBalance(debts) > 0 && NoCredit(debts) && RoundTo4(AverageRate(debts)) == 0.1235 > 0.12345
  {
    var debts := [Debt("card", 100, 0.12345, 0)];
    assert debts[..0] == [];
    assert TotalBalance(debts) == 100 && WeightedRates(debts) == 12.345;
    assert AverageRate(debts) == 0.12345;
  }

  // ---------- Holdings ----------

  function TotalValue(holdings: seq<Holding>): int {
    if holdings == [] then 0 else TotalValue(holdings[..|holdings| - 1]) + holdings[|holdings| - 1].marketValue
  }

  function ClassTotals(holdings: seq<Holding>): map<string, int> {
    if holdings == [] then map[]
    else
      var before, h := ClassTotals(holdings[..|holdings| - 1]), holdings[|holdings| - 1];
      before[h.assetClass := (if h.assetClass in before then before[h.assetClass] else 0) + h.marketValue]
  }

  /** The target of a class is that of its last holding. */
  function Targets(holdings: seq<Holding>): (m: map<string, real>)
    ensures m.Keys == ClassTotals(holdings).Keys
  {
    if holdings == [] then map[]
    else Targets(holdings[..|holdings| - 1])[holdings[|holdings| - 1].assetClass := holdings[|holdings| - 1].targetAllocation]
  }

  function Ratio(value: int, total: int): real {
    value as real / MaxInt(total, 1) as real
  }

  /** `outflow` is what was spent in the period. */
  method BuildPortfolioSnapshot(holdings: seq<Holding>, outflow: int) returns (s: PortfolioSnapshot)
    ensures s.emergencyFundMonths == RoundTo2(CashOf(holdings) as real / MaxInt(outflow, 1) as real)
    ensures s.totalAssets == TotalValue(holdings)
    ensures s.targets == Targets(holdings)
    ensures s.allocations == Allocations(ClassTotals(holdings), TotalValue(holdings))
    ensures s.drift == Drifts(ClassTotals(holdings), TotalValue(holdings), Targets(holdings))
  {
    var totalAssets, assetTotals, targets := Tally(holdings);
    var allocations, drift := Allocate(assetTotals, totalAssets, targets);
    var monthlyOutflow := MaxInt(outflow, 1);
    var emergencyFundMonths := 0.0;
    if "cash" in assetTotals {
      emergencyFundMonths := RoundTo2(assetTotals["cash"] as real / monthlyOutflow as real);
    }
    CashIs(holdings);
    assert RoundTo2(0.0) == 0.0;
    s := PortfolioSnapshot(totalAssets, allocations, targets, drift, emergencyFundMonths);
  }

  /** The loop over the holdings. */
  method Tally(holdings: seq<Holding>) returns (totalAssets: int, assetTotals: map<string, int>, targets: map<string, real>)
    ensures totalAssets == TotalValue(holdings) && assetTotals == ClassTotals(holdings) && targets == Targets(holdings)
  {
    totalAssets, assetTotals, targets := 0, map[], map[];
    for i := 0 to |holdings|
      invariant totalAssets == TotalValue(holdings[..i])
      invariant assetTotals == ClassTotals(holdings[..i]) && targets == Targets(holdings[..i])
    {
      assert holdings[..i + 1][..i] == holdings[..i];
      var h := holdings[i];
      totalAssets := totalAssets + h.marketValue;
      assetTotals := assetTotals[h.assetClass := (if h.assetClass in assetTotals then assetTotals[h.assetClass] else 0) + h.marketValue];
      targets := targets[h.assetClass := h.targetAllocation];
    }
    assert holdings[..|holdings|] == holdings;
  }

  /** The value of the holdings in cash. */
  function CashOf(holdings: seq<Holding>): int {
    if holdings == [] then 0
    else CashOf(holdings[..|holdings| - 1])
         + if holdings[|holdings| - 1].assetClass == "cash" then holdings[|holdings| - 1].marketValue else 0
  }

  lemma {:induction false} CashIs(holdings: seq<Holding>)
    ensures CashOf(holdings) == if "cash" in ClassTotals(holdings) then ClassTotals(holdings)["cash"] else 0
  {
    if holdings != [] { CashIs(holdings[..|holdings| - 1]); }
  }

  /** The loop over the asset classes, in whatever order the map is ranged over. */
  method Allocate(totals: map<string, int>, total: int, targets: map<string, real>)
    returns (allocations: map<string, real>, drift: map<string, real>)
    requires totals.Keys <= targets.Keys
    ensures allocations == Allocations(totals, total) && drift == Drifts(totals, total, targets)
  {
    allocations, drift := map[], map[];
    var todo := totals.Keys;
    while todo != {}
      invariant todo <= totals.Keys
      invariant allocations == map c | c in totals && c !in todo :: RoundTo4(Ratio(totals[c], total))
      invariant drift == map c | c in totals && c !in todo :: RoundTo4(Ratio(totals[c], total) - targets[c])
    {
      var c :| c in todo;
      var ratio := Ratio(totals[c], total);
      allocations := allocations[c := RoundTo4(ratio)];
      drift := drift[c := RoundTo4(ratio - targets[c])];
      todo := todo - {c};
    }
  }

  function Allocations(totals: map<string, int>, total: int): map<string, real> {
    map c | c in totals :: RoundTo4(Ratio(totals[c], total))
  }

  function Drifts(totals: map<string, int>, total: int, targets: map<string, real>): map<string, real>
    requires totals.Keys <= targets.Keys
  {
    map c | c in totals :: RoundTo4(Ratio(totals[c], total) - targets[c])
  }

  /** The drift of a class is what its allocation exceeds its target by, up to the rounding of both. */
  lemma DriftIsExcess(totals: map<string, int>, total: int, targets: map<string, real>, c: string)
    requires totals.Keys <= targets.Keys && c in totals
    ensures -0.0001 <= Drifts(totals, total, targets)[c] - (Allocations(totals, total)[c] - targets[c]) <= 0.0001
  {
    RoundTo4Near(Ratio(totals[c], total));
    RoundTo4Near(Ratio(totals[c], total) - targets[c]);
  }

  ghost function SumCents(totals: map<string, int>, classes: set<string>): int
    requires classes <= totals.Keys
  {
    if classes == {} then 0 else var c :| c in classes; totals[c] + SumCents(totals, classes - {c})
  }

  ghost function SumShares(shares: map<string, real>, classes: set<string>): real
    requires classes <= shares.Keys
  {
    if classes == {} then 0.0 else var c :| c in classes; shares[c] + SumShares(shares, classes - {c})
  }

  lemma {:induction false} SumCentsWithout(totals: map<string, int>, classes: set<string>, c: string)
    requires classes <= totals.Keys && c in classes
    ensures SumCents(totals, classes) == totals[c] + SumCents(totals, classes - {c})
    decreases classes
  {
    var x :| x in classes && SumCents(totals, classes) == totals[x] + SumCents(totals, classes - {x});
    if x != c {
      SumCentsWithout(totals, classes - {x}, c);
      SumCentsWithout(totals, classes - {c}, x);
      assert classes - {x} - {c} == classes - {c} - {x};
    }
  }

  lemma {:induction false} SumSharesWithout(shares: map<string, real>, classes: set<string>, c: string)
    requires classes <= shares.Keys && c in classes
    ensures SumShares(shares, classes) == shares[c] + SumShares(shares, classes - {c})
    decreases classes
  {
    var x :| x in classes && SumShares(shares, classes) == shares[x] + SumShares(shares, classes - {x});
    if x != c {
      SumSharesWithout(shares, classes - {x}, c);
      SumSharesWithout(shares, classes - {c}, x);
      assert classes - {x} - {c} == classes - {c} - {x};
    }
  }

  lemma {:induction false} SumCentsSame(a: map<string, int>, b: map<string, int>, classes: set<string>)
    requires classes <= a.Keys && classes <= b.Keys && forall c :: c in classes ==> a[c] == b[c]
    ensures SumCents(a, classes) == SumCents(b, classes)
    decreases classes
  {
    if c :| c in classes {
      SumCentsWithout(a, classes, c);
      SumCentsWithout(b, classes, c);
      SumCentsSame(a, b, classes - {c});
    }
  }

  /** No cent is lost between holdings and classes. */
  lemma {:induction false} ClassTotalsAddUp(holdings: seq<Holding>)
    ensures SumCents(ClassTotals(holdings), ClassTotals(holdings).Keys) == TotalValue(holdings)
  {
    if holdings != [] {
      var rest, h := holdings[..|holdings| - 1], holdings[|holdings| - 1];
      ClassTotalsAddUp(rest);
      var before, after := ClassTotals(rest), ClassTotals(holdings);
      SumCentsWithout(after, after.Keys, h.assetClass);
      assert after.Keys - {h.assetClass} == before.Keys - {h.assetClass};
      SumCentsSame(before, after, before.Keys - {h.assetClass});
      if h.assetClass in before {
        SumCentsWithout(before, before.Keys, h.assetClass);
      } else {
        assert before.Keys - {h.assetClass} == before.Keys;
      }
    }
  }

  /** The rounded shares of some classes are as far from their exact sum as rounding allows. */
  lemma {:induction false} SharesNearExact(totals: map<string, int>, total: int, classes: set<string>)
    requires classes <= totals.Keys && total > 0
    ensures SumCents(totals, classes) as real / total as real - |classes| as real * 0.00005
         <= SumShares(Allocations(totals, total), classes)
         <= SumCents(totals, classes) as real / total as real + |classes| as real * 0.00005
    decreases classes
  {
    if c :| c in classes {
      SharesNearExact(totals, total, classes - {c});
      SumCentsWithout(totals, classes, c);
      SumSharesWithout(Allocations(totals, total), classes, c);
      RoundTo4Near(Ratio(totals[c], total));
      QuotientSum(totals[c] as real, SumCents(totals, classes - {c}) as real, total as real);
      assert |classes| == |classes - {c}| + 1;
    }
  }

  lemma QuotientSum(a: real, b: real, t: real)
    requires t != 0.0
    ensures (a + b) / t == a / t + b / t
  {
  }

  /** The reported allocations of a portfolio with a positive total add up to one, within half a unit of the fourth place
      for each asset class. */
  lemma AllocationsAddUp(holdings: seq<Holding>)
    requires TotalValue(holdings) > 0
    ensures var totals := ClassTotals(holdings);
            var sum := SumShares(Allocations(totals, TotalValue(holdings)), totals.Keys);
            1.0 - |totals.Keys| as real * 0.00005 <= sum <= 1.0 + |totals.Keys| as real * 0.00005
  {
    ClassTotalsAddUp(holdings);
    SharesNearOne(ClassTotals(holdings), TotalValue(holdings));
  }

  lemma SharesNearOne(totals: map<string, int>, total: int)
    requires total > 0 && SumCents(totals, totals.Keys) == total
    ensures var sum := SumShares(Allocations(totals, total), totals.Keys);
            1.0 - |totals.Keys| as real * 0.00005 <= sum <= 1.0 + |totals.Keys| as real * 0.00005
  {
    SharesNearExact(totals, total, totals.Keys);
    QuotientSelf(total as real);
  }

  lemma QuotientSelf(t: real)
    requires t > 0.0
    ensures t / t == 1.0
  {
  }
}
