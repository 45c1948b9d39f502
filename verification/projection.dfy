/** The year-by-year cash-flow ledger: revenue, OPEX, depreciation, debt service, tax and cash flow for years 1..operationTime. */
module Projection {
  import opened Wrappers
  import opened RealMath
  import opened Constants
  import opened Curves
  import opened Amortization
  import Sums
  import Battery

  datatype Settings = Settings(
    operationTime: nat,
    loanPercentage: real,       // share of the investment financed by the loan, 0..1
    loanInterestRate: real,
    loanTerm: nat,
    inflationRate: real,
    discountRate: real,
    electricityPrice2025: real, // base-year price per kWh
    yearlyOpex: real)           // base-year OPEX

  /** Everything one projection reads; `batteryRevenue` is the injected per-year battery revenue. */
  datatype Inputs = Inputs(
    energyYield: real,          // MWh per year
    initialInvestment: real,    // before battery investment
    settings: Settings,
    isLevered: bool,
    hasBatteryStorage: bool,
    batteryCosts: Battery.BatteryCosts,
    batteryRevenue: nat -> real)

  datatype YearRecord = YearRecord(
    year: nat,
    revenue: real,
    opex: real,
    depreciation: real,
    interest: real,
    principal: real,
    taxableIncome: real,
    tax: real,
    netProfit: real,
    cashFlow: real,
    cumulativeCashFlow: real,
    dscr: Option<real>)

  function GetLoanAmount(initialInvestment: real, loanPercentage: real): (r: real)
    ensures loanPercentage == 0.0 ==> r == 0.0
    ensures loanPercentage == 1.0 ==> r == initialInvestment
  {
    initialInvestment * loanPercentage
  }

  /** The part of the investment not financed by the loan. */
  function GetEquityAmount(initialInvestment: real, loanPercentage: real): (r: real)
    ensures GetLoanAmount(initialInvestment, loanPercentage) + r == initialInvestment
  {
    initialInvestment * (1.0 - loanPercentage)
  }

  /** Plant investment plus battery investment. */
  function TotalInvestment(inputs: Inputs): real
  {
    inputs.initialInvestment + inputs.batteryCosts.investment
  }

  function LoanAmount(inputs: Inputs): real
  {
    GetLoanAmount(TotalInvestment(inputs), inputs.settings.loanPercentage)
  }

  function EquityAmount(inputs: Inputs): real
  {
    GetEquityAmount(TotalInvestment(inputs), inputs.settings.loanPercentage)
  }

  /** The investor's own outlay at year 0: the equity when levered, the whole investment otherwise. */
  function Outlay(inputs: Inputs): real
  {
    if inputs.isLevered then EquityAmount(inputs) else TotalInvestment(inputs)
  }

  /** Debt is serviced in `year` only when levered and within the loan term. */
  predicate InLoanTerm(inputs: Inputs, year: nat)
  {
    inputs.isLevered && year <= inputs.settings.loanTerm
  }

  /** The inputs for which the ledger's own divisions are defined: depreciation over the operation time, and, when some year is within a levered loan term, the level payment and the DSCR over that payment. */
  predicate WellFormed(inputs: Inputs)
  {
    var s := inputs.settings;
    && s.operationTime >= 1
    && (inputs.isLevered && s.loanTerm >= 1 ==>
          && PmtDefined(s.loanInterestRate, s.loanTerm)
          && Pmt(s.loanInterestRate, s.loanTerm, LoanAmount(inputs)) != 0.0)
  }

  /** The level yearly loan payment, which repays the loan over its term; it is only read within a levered loan term. */
  function LoanPayment(inputs: Inputs): (payment: real)
    requires WellFormed(inputs)
    ensures inputs.isLevered && inputs.settings.loanTerm >= 1 ==>
      Balance(LoanAmount(inputs), inputs.settings.loanInterestRate, payment, inputs.settings.loanTerm) == 0.0
    ensures !inputs.isLevered || inputs.settings.loanTerm == 0 ==> payment == 0.0
  {
    if inputs.isLevered && inputs.settings.loanTerm >= 1 then
      var s := inputs.settings;
      PmtRepaysLoan(s.loanInterestRate, s.loanTerm, LoanAmount(inputs));
      Pmt(s.loanInterestRate, s.loanTerm, LoanAmount(inputs))
    else 0.0
  }

  /** Straight-line depreciation: the same amount every year, adding up to the total investment over the operation time. */
  function Depreciation(inputs: Inputs): (d: real)
    requires WellFormed(inputs)
    ensures d * inputs.settings.operationTime as real == TotalInvestment(inputs)
  {
    TotalInvestment(inputs) / inputs.settings.operationTime as real
  }

  /** Solar revenue of `year`: yield in kWh times the degradation factor times the inflated price. */
  function SolarRevenue(inputs: Inputs, year: nat): (r: real)
    requires year >= 1
    ensures year == 1 ==> r == inputs.energyYield * 1000.0 * 0.99 * inputs.settings.electricityPrice2025
    ensures inputs.energyYield == 0.0 ==> r == 0.0
  {
    inputs.energyYield * 1000.0 * SolarDegradation(year)
      * ElectricityPrice(inputs.settings.electricityPrice2025, inputs.settings.inflationRate, year)
  }

  /** OPEX of `year`: the inflated plant OPEX plus, with storage, the battery's fixed yearly OPEX. */
  function TotalOpex(inputs: Inputs, year: nat): (r: real)
    requires year >= 1
    ensures year == 1 ==> r == inputs.settings.yearlyOpex + (if inputs.hasBatteryStorage then inputs.batteryCosts.opex else 0.0)
    ensures inputs.settings.inflationRate == 0.0 ==>
      r == inputs.settings.yearlyOpex + (if inputs.hasBatteryStorage then inputs.batteryCosts.opex else 0.0)
  {
    InflatedOpex(inputs.settings.yearlyOpex, inputs.settings.inflationRate, year)
      + (if inputs.hasBatteryStorage then inputs.batteryCosts.opex else 0.0)
  }

  /** The accounting identities every ledger row satisfies. */
  predicate RowIsConsistent(inputs: Inputs, r: YearRecord)
    requires WellFormed(inputs)
  {
    && r.year >= 1
    && r.revenue == SolarRevenue(inputs, r.year) + inputs.batteryRevenue(r.year)
    && r.opex == TotalOpex(inputs, r.year)
    && r.depreciation == Depreciation(inputs)
    && r.taxableIncome == r.revenue - r.opex - r.depreciation - r.interest
    && r.tax == Max(0.0, r.taxableIncome * CorporateTax)
    && r.netProfit == r.taxableIncome - r.tax
    && r.cashFlow == r.netProfit + r.depreciation - r.principal
    && (!InLoanTerm(inputs, r.year) ==> r.interest == 0.0 && r.principal == 0.0 && r.dscr == None)
    && (InLoanTerm(inputs, r.year) ==>
          && r.interest + r.principal == LoanPayment(inputs)
          && r.dscr == Some((r.revenue - r.opex - r.tax) / LoanPayment(inputs)))
  }

  /** Debt service of `year` on the balance `remainingLoan`: interest, principal and the balance carried forward. Outside the levered term nothing is paid. */
  function DebtService(inputs: Inputs, year: nat, remainingLoan: real): (debt: (real, real, real))
    requires WellFormed(inputs)
    ensures debt.0 + debt.1 == (if InLoanTerm(inputs, year) then LoanPayment(inputs) else 0.0)
    ensures debt.2 == remainingLoan - debt.1
    ensures !InLoanTerm(inputs, year) ==> debt.1 == 0.0
  {
    if InLoanTerm(inputs, year) then
      var interest := remainingLoan * inputs.settings.loanInterestRate;
      var principal := LoanPayment(inputs) - interest;
      (interest, principal, remainingLoan - principal)
    else (0.0, 0.0, remainingLoan)
  }

  /** One year of the ledger, given the loan balance and cumulative cash flow carried from the previous year; also returns the balance carried forward. */
  function YearStep(inputs: Inputs, year: nat, remainingLoan: real, previousCumulative: real): (step: (YearRecord, real))
    requires WellFormed(inputs) && year >= 1
    ensures step.0.year == year
    ensures step.0.cumulativeCashFlow == previousCumulative + step.0.cashFlow
    ensures InLoanTerm(inputs, year) ==>
      step.0.interest == remainingLoan * inputs.settings.loanInterestRate && step.1 == remainingLoan - step.0.principal
    ensures !InLoanTerm(inputs, year) ==> step.1 == remainingLoan
    ensures var debt := DebtService(inputs, year, remainingLoan);
      step.0.interest == debt.0 && step.0.principal == debt.1 && step.1 == debt.2
  {
    var payment := LoanPayment(inputs);
    var totalRevenue := SolarRevenue(inputs, year) + inputs.batteryRevenue(year);
    var totalOpex := TotalOpex(inputs, year);
    var depreciation := Depreciation(inputs);
    var inTerm := InLoanTerm(inputs, year);
    var debt := DebtService(inputs, year, remainingLoan);
    var interest := debt.0;
    var principal := debt.1;
    var taxableIncome := totalRevenue - totalOpex - depreciation - interest;
    var tax := Max(0.0, taxableIncome * CorporateTax);
    var netProfit := taxableIncome - tax;
    var cashFlow := netProfit + depreciation - principal;
    var dscr := if inTerm then Some((totalRevenue - totalOpex - tax) / payment) else None;
    (YearRecord(year, totalRevenue, totalOpex, depreciation, interest, principal, taxableIncome, tax,
                netProfit, cashFlow, previousCumulative + cashFlow, dscr), debt.2)
  }

  /** The row a year step produces satisfies the accounting identities. */
  lemma StepIsConsistent(inputs: Inputs, year: nat, remainingLoan: real, previousCumulative: real)
    requires WellFormed(inputs) && year >= 1
    ensures RowIsConsistent(inputs, YearStep(inputs, year, remainingLoan, previousCumulative).0)
  {
  }

  /** The rows for years `year`..operationTime, threading the loan balance and the cumulative cash flow. */
  function Rows(inputs: Inputs, year: nat, remainingLoan: real, previousCumulative: real): (rows: seq<YearRecord>)
    requires WellFormed(inputs) && year >= 1
    decreases inputs.settings.operationTime + 1 - year
    ensures |rows| == if year <= inputs.settings.operationTime then inputs.settings.operationTime + 1 - year else 0
    ensures forall i :: 0 <= i < |rows| ==> rows[i].year == year + i
    ensures |rows| > 0 ==> rows[0].cumulativeCashFlow == previousCumulative + rows[0].cashFlow
    ensures forall i :: 1 <= i < |rows| ==> rows[i].cumulativeCashFlow == rows[i - 1].cumulativeCashFlow + rows[i].cashFlow
  {
    if year > inputs.settings.operationTime then []
    else
      var step := YearStep(inputs, year, remainingLoan, previousCumulative);
      [step.0] + Rows(inputs, year + 1, step.1, step.0.cumulativeCashFlow)
  }

  /** The full ledger: years 1..operationTime, starting from the whole loan outstanding and the outlay not yet recovered. */
  function Ledger(inputs: Inputs): (rows: seq<YearRecord>)
    requires WellFormed(inputs)
    ensures |rows| == inputs.settings.operationTime
    ensures forall i :: 0 <= i < |rows| ==> rows[i].year == i + 1
    ensures rows[0].cumulativeCashFlow == rows[0].cashFlow - Outlay(inputs)
    ensures forall i :: 1 <= i < |rows| ==> rows[i].cumulativeCashFlow == rows[i - 1].cumulativeCashFlow + rows[i].cashFlow
  {
    Rows(inputs, 1, LoanAmount(inputs), -Outlay(inputs))
  }

  /** Every row of the ledger satisfies the accounting identities. */
  lemma {:induction false} RowsAreConsistent(inputs: Inputs, year: nat, remainingLoan: real, previousCumulative: real, i: nat)
    requires WellFormed(inputs) && year >= 1
    requires i < |Rows(inputs, year, remainingLoan, previousCumulative)|
    decreases i
    ensures RowIsConsistent(inputs, Rows(inputs, year, remainingLoan, previousCumulative)[i])
  {
    var step := YearStep(inputs, year, remainingLoan, previousCumulative);
    if i == 0 {
      StepIsConsistent(inputs, year, remainingLoan, previousCumulative);
    } else {
      RowsAreConsistent(inputs, year + 1, step.1, step.0.cumulativeCashFlow, i - 1);
    }
  }

  lemma LedgerRowIsConsistent(inputs: Inputs, i: nat)
    requires WellFormed(inputs) && i < inputs.settings.operationTime
    ensures RowIsConsistent(inputs, Ledger(inputs)[i])
  {
    RowsAreConsistent(inputs, 1, LoanAmount(inputs), -Outlay(inputs), i);
  }

  /** One numeric column of the ledger, in year order. */
  function Column(rows: seq<YearRecord>, field: YearRecord -> real): seq<real>
  {
    seq(|rows|, i requires 0 <= i < |rows| => field(rows[i]))
  }

  function CashFlows(rows: seq<YearRecord>): seq<real>
  {
    Column(rows, (r: YearRecord) => r.cashFlow)
  }

  /** Tax is never negative: 10 % of a positive taxable income, nothing on a loss. */
  lemma TaxAndNetProfit(inputs: Inputs, i: nat)
    requires WellFormed(inputs) && i < inputs.settings.operationTime
    ensures var r := Ledger(inputs)[i];
      && r.tax >= 0.0
      && (r.taxableIncome >= 0.0 ==> r.tax == 0.1 * r.taxableIncome && r.netProfit == 0.9 * r.taxableIncome)
      && (r.taxableIncome < 0.0 ==> r.tax == 0.0 && r.netProfit == r.taxableIncome)
      && r.cashFlow == r.netProfit + r.depreciation - r.principal
  {
    LedgerRowIsConsistent(inputs, i);
  }

  /** Without a loan, and after the loan term, there is no interest, no principal and no DSCR. */
  lemma NoDebtServiceOutsideTerm(inputs: Inputs, i: nat)
    requires WellFormed(inputs) && i < inputs.settings.operationTime
    requires !inputs.isLevered || i + 1 > inputs.settings.loanTerm
    ensures Ledger(inputs)[i].interest == 0.0
    ensures Ledger(inputs)[i].principal == 0.0
    ensures Ledger(inputs)[i].dscr == None
  {
    LedgerRowIsConsistent(inputs, i);
  }

  /** Within the levered term every year pays the level payment, split into interest and principal, and has a DSCR. */
  lemma DebtServiceWithinTerm(inputs: Inputs, i: nat)
    requires WellFormed(inputs) && i < inputs.settings.operationTime
    requires inputs.isLevered && i + 1 <= inputs.settings.loanTerm
    ensures Ledger(inputs)[i].interest + Ledger(inputs)[i].principal == LoanPayment(inputs)
    ensures Ledger(inputs)[i].dscr.Some?
  {
    LedgerRowIsConsistent(inputs, i);
  }

  /** The balance still owed after `k` years under the amortization schedule (repayment stops after the loan term). */
  function ScheduledBalance(inputs: Inputs, k: nat): real
    requires WellFormed(inputs)
  {
    Balance(LoanAmount(inputs), inputs.settings.loanInterestRate, LoanPayment(inputs), Min(k, inputs.settings.loanTerm))
  }

  /** Interest charged on the scheduled balance after `k` years. */
  function ScheduledInterest(inputs: Inputs, k: nat): real
    requires WellFormed(inputs)
  {
    ScheduledBalance(inputs, k) * inputs.settings.loanInterestRate
  }

  /** One year on schedule: the carried balance is the next scheduled balance and the principal is the drop between them. */
  lemma StepFollowsSchedule(inputs: Inputs, year: nat)
    requires WellFormed(inputs) && inputs.isLevered && year >= 1
    ensures var debt := DebtService(inputs, year, ScheduledBalance(inputs, year - 1));
      && debt.2 == ScheduledBalance(inputs, year)
      && debt.1 == ScheduledBalance(inputs, year - 1) - ScheduledBalance(inputs, year)
      && (InLoanTerm(inputs, year) ==> debt.0 == ScheduledInterest(inputs, year - 1))
  {
    ScheduledBalanceStep(LoanAmount(inputs), inputs.settings.loanInterestRate, LoanPayment(inputs), inputs.settings.loanTerm, year);
  }


  /** The first row is the year step; the later rows are the rows of the following years. */
  lemma RowsUnfold(inputs: Inputs, year: nat, remainingLoan: real, previousCumulative: real, i: nat)
    requires WellFormed(inputs) && year >= 1
    requires i < |Rows(inputs, year, remainingLoan, previousCumulative)|
    ensures var step := YearStep(inputs, year, remainingLoan, previousCumulative);
      && (i == 0 ==> Rows(inputs, year, remainingLoan, previousCumulative)[i] == step.0)
      && (i > 0 ==> Rows(inputs, year, remainingLoan, previousCumulative)[i]
                    == Rows(inputs, year + 1, step.1, step.0.cumulativeCashFlow)[i - 1])
  {
  }

  /** Starting on schedule, the row of year `y` repays exactly the drop in the scheduled balance and charges interest on the balance it starts with. */
  lemma {:induction false} RowFollowsSchedule(inputs: Inputs, year: nat, remainingLoan: real, previousCumulative: real, y: nat)
    requires WellFormed(inputs) && inputs.isLevered && year >= 1
    requires remainingLoan == ScheduledBalance(inputs, year - 1)
    requires year <= y < year + |Rows(inputs, year, remainingLoan, previousCumulative)|
    decreases y - year
    ensures var row := Rows(inputs, year, remainingLoan, previousCumulative)[y - year];
      && row.principal == ScheduledBalance(inputs, y - 1) - ScheduledBalance(inputs, y)
      && (InLoanTerm(inputs, y) ==> row.interest == ScheduledInterest(inputs, y - 1))
  {
    if y == year {
      FirstRowFollowsSchedule(inputs, year, remainingLoan, previousCumulative);
    } else {
      var nextLoan, nextCumulative := NextYearStartsOnSchedule(inputs, year, remainingLoan, previousCumulative, y - year);
      RowFollowsSchedule(inputs, year + 1, nextLoan, nextCumulative, y);
    }
  }

  /** The base case of `RowFollowsSchedule`: the first row is the year step on schedule. */
  lemma FirstRowFollowsSchedule(inputs: Inputs, year: nat, remainingLoan: real, previousCumulative: real)
    requires WellFormed(inputs) && inputs.isLevered && 1 <= year <= inputs.settings.operationTime
    requires remainingLoan == ScheduledBalance(inputs, year - 1)
    ensures var row := Rows(inputs, year, remainingLoan, previousCumulative)[0];
      && row.principal == ScheduledBalance(inputs, year - 1) - ScheduledBalance(inputs, year)
      && (InLoanTerm(inputs, year) ==> row.interest == ScheduledInterest(inputs, year - 1))
  {
    StepFollowsSchedule(inputs, year);
    RowsUnfold(inputs, year, remainingLoan, previousCumulative, 0);
  }

  /** A year on schedule hands the next year the next scheduled balance: the later rows are the rows of the following years started from it. */
  lemma NextYearStartsOnSchedule(inputs: Inputs, year: nat, remainingLoan: real, previousCumulative: real, i: nat)
    returns (nextLoan: real, nextCumulative: real)
    requires WellFormed(inputs) && inputs.isLevered && year >= 1
    requires remainingLoan == ScheduledBalance(inputs, year - 1)
    requires 0 < i < |Rows(inputs, year, remainingLoan, previousCumulative)|
    ensures nextLoan == ScheduledBalance(inputs, year)
    ensures i - 1 < |Rows(inputs, year + 1, nextLoan, nextCumulative)|
    ensures Rows(inputs, year, remainingLoan, previousCumulative)[i] == Rows(inputs, year + 1, nextLoan, nextCumulative)[i - 1]
  {
    var step := YearStep(inputs, year, remainingLoan, previousCumulative);
    StepFollowsSchedule(inputs, year);
    RowsUnfold(inputs, year, remainingLoan, previousCumulative, i);
    nextLoan, nextCumulative := step.1, step.0.cumulativeCashFlow;
  }

  function Principals(rows: seq<YearRecord>): seq<real>
  {
    Column(rows, (r: YearRecord) => r.principal)
  }

  /** The principal repaid over the ledger is the loan minus what is still owed at the end; a loan term within the operation time repays the whole loan. */
  lemma LoanIsRepaid(inputs: Inputs)
    requires WellFormed(inputs) && inputs.isLevered
    ensures Sums.Sum(Principals(Ledger(inputs))) == LoanAmount(inputs) - ScheduledBalance(inputs, inputs.settings.operationTime)
    ensures 1 <= inputs.settings.loanTerm <= inputs.settings.operationTime ==>
      Sums.Sum(Principals(Ledger(inputs))) == LoanAmount(inputs)
  {
    PrincipalsTelescope(inputs);
    var s := inputs.settings;
    if 1 <= s.loanTerm <= s.operationTime {
      PmtRepaysLoan(s.loanInterestRate, s.loanTerm, LoanAmount(inputs));
    }
  }

  /** A levered loan with a zero term is never within its term, so nothing of it is repaid. */
  lemma ZeroTermRepaysNothing(inputs: Inputs)
    requires WellFormed(inputs) && inputs.isLevered && inputs.settings.loanTerm == 0
    ensures Sums.Sum(Principals(Ledger(inputs))) == 0.0
  {
    PrincipalsTelescope(inputs);
    assert Min(inputs.settings.operationTime, inputs.settings.loanTerm) == 0;
  }

  /** The principal column telescopes over the scheduled balances. */
  lemma PrincipalsTelescope(inputs: Inputs)
    requires WellFormed(inputs) && inputs.isLevered
    ensures Sums.Sum(Principals(Ledger(inputs))) == LoanAmount(inputs) - ScheduledBalance(inputs, inputs.settings.operationTime)
  {
    var rows := Ledger(inputs);
    var f: nat -> real := (k: nat) => ScheduledBalance(inputs, k);
    forall i | 0 <= i < |rows| ensures Principals(rows)[i] == f(i) - f(i + 1) {
      RowFollowsSchedule(inputs, 1, LoanAmount(inputs), -Outlay(inputs), i + 1);
    }
    Sums.SumTelescopes(Principals(rows), f);
  }

  /** Without a loan nothing is repaid. */
  lemma UnleveredRepaysNothing(inputs: Inputs)
    requires WellFormed(inputs) && !inputs.isLevered
    ensures Sums.Sum(Principals(Ledger(inputs))) == 0.0
  {
    var rows := Ledger(inputs);
    forall i | 0 <= i < |rows| ensures Principals(rows)[i] == 0.0 {
      LedgerRowIsConsistent(inputs, i);
    }
    Sums.SumOfZeros(Principals(rows));
  }

  /** The cumulative cash flow of year `i + 1` is the running total of the cash flows so far, less the outlay. */
  lemma {:induction false} CumulativeIsRunningTotal(inputs: Inputs, i: nat)
    requires WellFormed(inputs) && i < inputs.settings.operationTime
    ensures Ledger(inputs)[i].cumulativeCashFlow == Sums.Sum(CashFlows(Ledger(inputs))[..i + 1]) - Outlay(inputs)
  {
    var rows := Ledger(inputs);
    var cf := CashFlows(rows);
    if i > 0 {
      CumulativeIsRunningTotal(inputs, i - 1);
      assert cf[..i + 1][..i] == cf[..i];
    } else {
      Sums.SumSingleton(cf[0]);
      assert cf[..1] == [cf[0]];
    }
  }

  function Depreciations(rows: seq<YearRecord>): seq<real>
  {
    Column(rows, (r: YearRecord) => r.depreciation)
  }

  /** Every ledger row depreciates by the straight-line amount. */
  lemma RowDepreciation(inputs: Inputs, i: nat)
    requires WellFormed(inputs) && i < |Ledger(inputs)|
    ensures Ledger(inputs)[i].depreciation == Depreciation(inputs)
  {
    LedgerRowIsConsistent(inputs, i);
  }

  /** Straight-line depreciation is the same every year and recovers exactly the total investment. */
  lemma DepreciationRecoversInvestment(inputs: Inputs)
    requires WellFormed(inputs)
    ensures forall i :: 0 <= i < |Ledger(inputs)| ==>
      Ledger(inputs)[i].depreciation == TotalInvestment(inputs) / inputs.settings.operationTime as real
    ensures Sums.Sum(Depreciations(Ledger(inputs))) == TotalInvestment(inputs)
  {
    var d := Depreciation(inputs);
    var ds := DepreciationColumn(inputs);
    Sums.SumOfConstant(ds, d);
    var n := inputs.settings.operationTime as real;
    assert |ds| as real * d == d * n;
  }

  /** The depreciation column holds the straight-line amount in each of the operation years. */
  lemma DepreciationColumn(inputs: Inputs) returns (ds: seq<real>)
    requires WellFormed(inputs)
    ensures ds == Depreciations(Ledger(inputs))
    ensures |ds| == inputs.settings.operationTime
    ensures forall i :: 0 <= i < |ds| ==> ds[i] == Depreciation(inputs)
    ensures forall i :: 0 <= i < |Ledger(inputs)| ==> Ledger(inputs)[i].depreciation == Depreciation(inputs)
  {
    var rows := Ledger(inputs);
    forall i | 0 <= i < |rows| ensures rows[i].depreciation == Depreciation(inputs) {
      RowDepreciation(inputs, i);
    }
    ds := Depreciations(rows);
  }

}
