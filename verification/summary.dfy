/** Summary metrics built from the ledger: NPV, IRR, ROE, payback period, average DSCR and total profit. */
module Summary {
  import opened Wrappers
  import opened RealMath
  import opened Sums
  import opened Projection
  import IrrSolver

  datatype FinancialResult = FinancialResult(
    npv: real,
    irr: Option<real>,
    roe: real,
    paybackPeriod: real,
    averageDscr: Option<real>,
    totalProfit: real,
    initialInvestment: real,
    yearlyData: seq<YearRecord>)

  /** A left fold from `initial` that adds each cash flow discounted to the present: the flow at index `idx` is discounted by `idx + 1` years. */
  function DiscountedNpv(cashFlows: seq<real>, rate: real, initial: real): (npv: real)
    requires 1.0 + rate != 0.0
    ensures |cashFlows| == 0 ==> npv == initial
    ensures rate == 0.0 ==> npv == initial + Sum(cashFlows)
  {
    if |cashFlows| == 0 then initial
    else
      PowNonZero(1.0 + rate, |cashFlows|);
      PowOfOne(|cashFlows|);
      DiscountedNpv(cashFlows[..|cashFlows| - 1], rate, initial) + cashFlows[|cashFlows| - 1] / Pow(1.0 + rate, |cashFlows|)
  }

  /** The summary NPV is the IRR solver's NPV of the outlay followed by the yearly cash flows. */
  lemma {:induction false} NpvMatchesIrrSolver(cashFlows: seq<real>, rate: real, outlay: real)
    requires 1.0 + rate != 0.0
    ensures DiscountedNpv(cashFlows, rate, -outlay) == IrrSolver.Npv([-outlay] + cashFlows, rate)
  {
    var all := [-outlay] + cashFlows;
    forall k | 0 <= k <= |cashFlows|
      ensures IrrSolver.NpvUpTo(all, rate, k + 1) == DiscountedNpv(cashFlows[..k], rate, -outlay)
    {
      NpvPrefixMatches(cashFlows, rate, outlay, k);
    }
    assert cashFlows[..|cashFlows|] == cashFlows;
  }

  lemma {:induction false} NpvPrefixMatches(cashFlows: seq<real>, rate: real, outlay: real, k: nat)
    requires 1.0 + rate != 0.0 && k <= |cashFlows|
    ensures IrrSolver.NpvUpTo([-outlay] + cashFlows, rate, k + 1) == DiscountedNpv(cashFlows[..k], rate, -outlay)
  {
    var all := [-outlay] + cashFlows;
    if k == 0 {
      assert Pow(1.0 + rate, 0) == 1.0;
      assert IrrSolver.NpvUpTo(all, rate, 1) == -outlay / 1.0;
    } else {
      NpvPrefixMatches(cashFlows, rate, outlay, k - 1);
      assert cashFlows[..k][..k - 1] == cashFlows[..k - 1];
      assert all[k] == cashFlows[k - 1];
    }
  }

  /** With a non-negative yearly cash flow, one of them positive, the NPV falls strictly as the discount rate rises. */
  lemma NpvFallsAsDiscountRateRises(cashFlows: seq<real>, outlay: real, r1: real, r2: real, j: nat)
    requires -1.0 < r1 < r2
    requires forall i :: 0 <= i < |cashFlows| ==> cashFlows[i] >= 0.0
    requires j < |cashFlows| && cashFlows[j] > 0.0
    ensures DiscountedNpv(cashFlows, r2, -outlay) < DiscountedNpv(cashFlows, r1, -outlay)
  {
    var all := [-outlay] + cashFlows;
    NpvMatchesIrrSolver(cashFlows, r1, outlay);
    NpvMatchesIrrSolver(cashFlows, r2, outlay);
    assert forall i :: 1 <= i < |all| ==> all[i] == cashFlows[i - 1];
    IrrSolver.NpvStrictlyDecreasing(all, r1, r2, j + 1, |all|);
  }

  /** The cumulative cash flow turns non-negative for the first time at index `k`. */
  predicate FirstRecovery(cumulative: seq<real>, k: nat)
  {
    k < |cumulative| && cumulative[k] >= 0.0 && forall j :: 0 <= j < k ==> cumulative[j] < 0.0
  }

  /** The payback scan from index `i`, earlier cumulative values all being negative; 0 means no recovery was found. */
  function PaybackScan(cumulative: seq<real>, i: nat): (p: real)
    requires i <= |cumulative|
    requires forall j :: 0 <= j < i ==> cumulative[j] < 0.0
    decreases |cumulative| - i
    ensures p == 0.0 <==> forall j :: i <= j < |cumulative| ==> cumulative[j] < 0.0
    ensures p != 0.0 ==> 1.0 <= p <= |cumulative| as real
    ensures forall k {:trigger FirstRecovery(cumulative, k)} :: i <= k && FirstRecovery(cumulative, k) ==>
      && (k == 0 ==> p == 1.0)
      && (k > 0 ==> k as real < p <= k as real + 1.0
                    && p == k as real + -cumulative[k - 1] / (cumulative[k] - cumulative[k - 1]))
  {
    if i == |cumulative| then 0.0
    else if cumulative[i] >= 0.0 then
      if i == 0 then 1.0
      else
        var previousCF := cumulative[i - 1];
        var currentCF := cumulative[i];
        InterpolationWithinYear(previousCF, currentCF);
        i as real + Abs(previousCF) / (currentCF - previousCF)
    else PaybackScan(cumulative, i + 1)
  }

  /** Linear interpolation inside the year the cumulative cash flow crosses zero lands in (0, 1]. */
  lemma InterpolationWithinYear(previousCF: real, currentCF: real)
    requires previousCF < 0.0 <= currentCF
    ensures 0.0 < Abs(previousCF) / (currentCF - previousCF) <= 1.0
  {
    var d := currentCF - previousCF;
    var q := Abs(previousCF) / d;
    assert q * d == -previousCF;
    if q > 1.0 {
      MulLess(1.0, q, d);
      assert false;
    }
  }

  /** Years until the cumulative cash flow first turns non-negative: 1 if it does in year one, interpolated within the crossing year otherwise, and the whole operation time if it never does. */
  function PaybackPeriod(cumulative: seq<real>, operationTime: nat): (p: real)
    ensures (forall j :: 0 <= j < |cumulative| ==> cumulative[j] < 0.0) ==> p == operationTime as real
    ensures |cumulative| > 0 && cumulative[0] >= 0.0 ==> p == 1.0
    ensures forall k :: 0 < k && FirstRecovery(cumulative, k) ==> k as real < p <= k as real + 1.0
    ensures |cumulative| <= operationTime && operationTime >= 1 ==> 1.0 <= p <= operationTime as real
  {
    var paybackPeriod := PaybackScan(cumulative, 0);
    if paybackPeriod == 0.0 then operationTime as real else paybackPeriod
  }

  function Dscrs(rows: seq<YearRecord>): seq<Option<real>>
  {
    seq(|rows|, i requires 0 <= i < |rows| => rows[i].dscr)
  }

  /** The present values of an optional sequence, in order. */
  function PresentValues(values: seq<Option<real>>): (r: seq<real>)
    ensures |r| <= |values|
  {
    if |values| == 0 then []
    else (if values[0].Some? then [values[0].value] else []) + PresentValues(values[1..])
  }

  /** The filter keeps every present value as often as it occurs, and nothing else. */
  lemma {:induction false} PresentValuesKeepMultiplicity(values: seq<Option<real>>)
    ensures forall x :: multiset(PresentValues(values))[x] == multiset(values)[Some(x)]
  {
    if |values| > 0 {
      PresentValuesKeepMultiplicity(values[1..]);
      assert values == [values[0]] + values[1..];
    }
  }

  /** The filter keeps order: filtering a concatenation concatenates the filtered parts. */
  lemma {:induction false} PresentValuesConcat(a: seq<Option<real>>, b: seq<Option<real>>)
    ensures PresentValues(a + b) == PresentValues(a) + PresentValues(b)
  {
    if |a| > 0 {
      assert (a + b)[0] == a[0];
      assert (a + b)[1..] == a[1..] + b;
      PresentValuesConcat(a[1..], b);
    } else {
      assert a + b == b;
    }
  }

  /** Missing values read as 0. */
  function ZeroFilled(values: seq<Option<real>>): seq<real>
  {
    seq(|values|, i requires 0 <= i < |values| => values[i].GetOr(0.0))
  }

  /** Summing the present values is summing every value with the missing ones as 0. */
  lemma {:induction false} PresentValuesSum(values: seq<Option<real>>)
    ensures Sum(PresentValues(values)) == Sum(ZeroFilled(values))
  {
    if |values| > 0 {
      var head: seq<real> := if values[0].Some? then [values[0].value] else [];
      PresentValuesSum(values[1..]);
      SumConcat(head, PresentValues(values[1..]));
      assert ZeroFilled(values) == [values[0].GetOr(0.0)] + ZeroFilled(values[1..]);
      SumConcat([values[0].GetOr(0.0)], ZeroFilled(values[1..]));
      SumSingleton(values[0].GetOr(0.0));
      if values[0].Some? {
        SumSingleton(values[0].value);
      } else {
        assert head == [];
      }
    }
  }

  /** When exactly the first `m` values are present, `m` values survive the filter. */
  lemma {:induction false} PresentPrefixCount(values: seq<Option<real>>, m: nat)
    requires m <= |values|
    requires forall i :: 0 <= i < |values| ==> (values[i].Some? <==> i < m)
    ensures |PresentValues(values)| == m
  {
    if |values| > 0 {
      PresentPrefixCount(values[1..], if m > 0 then m - 1 else 0);
    }
  }

  function NetProfits(rows: seq<YearRecord>): seq<real>
  {
    Column(rows, (r: YearRecord) => r.netProfit)
  }

  function Cumulatives(rows: seq<YearRecord>): seq<real>
  {
    Column(rows, (r: YearRecord) => r.cumulativeCashFlow)
  }

  /** The ledger is defined and so are the summary's own divisions: the NPV's discount factor, the ROE's outlay and, when levered, the average DSCR's loan term. */
  predicate SummaryWellFormed(inputs: Inputs)
  {
    && WellFormed(inputs)
    && (inputs.isLevered ==> inputs.settings.loanTerm >= 1)
    && 1.0 + inputs.settings.discountRate != 0.0
    && Outlay(inputs) != 0.0
  }

  /** The complete projection: the ledger and the metrics derived from it. */
  function CalculateFinancials(inputs: Inputs): (r: FinancialResult)
    requires SummaryWellFormed(inputs)
    ensures r.yearlyData == Ledger(inputs)
    ensures r.initialInvestment == TotalInvestment(inputs)
    ensures r.npv == IrrSolver.Npv([-Outlay(inputs)] + CashFlows(r.yearlyData), inputs.settings.discountRate)
    ensures r.irr == IrrSolver.CalculateIrr([-Outlay(inputs)] + CashFlows(r.yearlyData))
    ensures r.totalProfit == Sum(NetProfits(r.yearlyData))
    ensures r.roe == AverageAnnualRoe(r.totalProfit, inputs.settings.operationTime as real, Outlay(inputs))
    ensures r.paybackPeriod == PaybackPeriod(Cumulatives(r.yearlyData), inputs.settings.operationTime)
    ensures 1.0 <= r.paybackPeriod <= inputs.settings.operationTime as real
    ensures r.averageDscr.None? <==> !inputs.isLevered
    ensures r.averageDscr.Some? ==>
      r.averageDscr.value == AverageDscr(Sum(PresentValues(Dscrs(r.yearlyData))), inputs.settings.loanTerm)
  {
    var rows := Ledger(inputs);
    var cumulative := Cumulatives(rows);
    assert |cumulative| == inputs.settings.operationTime;
    Summarize(inputs, rows, CashFlows(rows), cumulative, NetProfits(rows), Dscrs(rows))
  }

  /** The metrics, computed from the ledger's columns: yearly cash flows, cumulative cash flows, net profits and DSCRs. */
  function Summarize(inputs: Inputs, rows: seq<YearRecord>, cashFlows: seq<real>, cumulative: seq<real>,
                     netProfits: seq<real>, dscrs: seq<Option<real>>): (r: FinancialResult)
    requires 1.0 + inputs.settings.discountRate != 0.0 && Outlay(inputs) != 0.0
    requires |cumulative| == inputs.settings.operationTime >= 1
    requires inputs.isLevered ==> inputs.settings.loanTerm >= 1
    ensures r.yearlyData == rows
    ensures r.initialInvestment == TotalInvestment(inputs)
    ensures r.npv == IrrSolver.Npv([-Outlay(inputs)] + cashFlows, inputs.settings.discountRate)
    ensures r.irr == IrrSolver.CalculateIrr([-Outlay(inputs)] + cashFlows)
    ensures r.totalProfit == Sum(netProfits)
    ensures r.roe == AverageAnnualRoe(r.totalProfit, inputs.settings.operationTime as real, Outlay(inputs))
    ensures r.paybackPeriod == PaybackPeriod(cumulative, inputs.settings.operationTime)
    ensures 1.0 <= r.paybackPeriod <= inputs.settings.operationTime as real
    ensures r.averageDscr.None? <==> !inputs.isLevered
    ensures r.averageDscr.Some? ==> r.averageDscr.value == AverageDscr(Sum(PresentValues(dscrs)), inputs.settings.loanTerm)
  {
    var s := inputs.settings;
    var outlay := Outlay(inputs);
    var npv := DiscountedNpv(cashFlows, s.discountRate, -outlay);
    NpvMatchesIrrSolver(cashFlows, s.discountRate, outlay);
    var irr := IrrSolver.CalculateIrr([-outlay] + cashFlows);
    var paybackPeriod := PaybackPeriod(cumulative, s.operationTime);
    var totalNetProfit := Sum(netProfits);
    var averageAnnualRoe := AverageAnnualRoe(totalNetProfit, s.operationTime as real, outlay);
    var averageDscr := if inputs.isLevered then Some(AverageDscr(Sum(PresentValues(dscrs)), s.loanTerm)) else None;
    FinancialResult(npv, irr, averageAnnualRoe, paybackPeriod, averageDscr, totalNetProfit, TotalInvestment(inputs), rows)
  }

  /** Average yearly net profit per unit of the investor's outlay: the ROE, earned each of `years` years on `outlay`, adds up to the total profit. */
  function AverageAnnualRoe(totalNetProfit: real, years: real, outlay: real): (roe: real)
    requires years != 0.0 && outlay != 0.0
    ensures roe * (years * outlay) == totalNetProfit
  {
    var perYear := totalNetProfit / years;
    assert perYear * years == totalNetProfit;
    var roe := perYear / outlay;
    assert roe * outlay == perYear;
    roe
  }

  /** The DSCR total spread over the loan term (not over the number of DSCR values). */
  function AverageDscr(dscrTotal: real, loanTerm: nat): (average: real)
    requires loanTerm >= 1
    ensures average * loanTerm as real == dscrTotal
  {
    dscrTotal / loanTerm as real
  }

  /** At a zero discount rate the NPV is the last year's cumulative cash flow. */
  lemma UndiscountedNpvIsFinalCumulative(inputs: Inputs)
    requires WellFormed(inputs)
    ensures DiscountedNpv(CashFlows(Ledger(inputs)), 0.0, -Outlay(inputs))
         == Ledger(inputs)[inputs.settings.operationTime - 1].cumulativeCashFlow
  {
    var rows := Ledger(inputs);
    var n := inputs.settings.operationTime;
    var cf := CashFlows(rows);
    CumulativeIsRunningTotal(inputs, n - 1);
    assert cf[..n] == cf;
  }

  /** When levered, exactly the years of the loan term that fall within the operation time have a DSCR. */
  lemma DscrYearsAreTheLoanTerm(inputs: Inputs)
    requires WellFormed(inputs) && inputs.isLevered
    ensures |PresentValues(Dscrs(Ledger(inputs)))| == Min(inputs.settings.loanTerm, inputs.settings.operationTime)
  {
    var rows := Ledger(inputs);
    var m := Min(inputs.settings.loanTerm, inputs.settings.operationTime);
    forall i | 0 <= i < |rows| ensures Dscrs(rows)[i].Some? <==> i < m {
      LedgerRowIsConsistent(inputs, i);
    }
    PresentPrefixCount(Dscrs(rows), m);
  }
}
