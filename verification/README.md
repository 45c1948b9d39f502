# Solar and battery projection engine, in Dafny

This project models the financial projection engine of a PV plant (PVPP) and battery (BESS) calculator. From a plant configuration, the engine produces a year-by-year cash-flow ledger and summary metrics:
- the configuration covers energy yield, initial investment, financing terms and optional battery storage;
- the metrics are NPV, IRR, ROE, payback period, average DSCR and total profit.

The engine lives in `src/utils/calculations.js`. The numeric and string helpers it uses live in `src/utils/helpers.js`. The constants it reads come from `src/utils/constants.js`: tax 10 %, first-year degradation 1 %, later-year degradation 0.4 %.

All amounts are `real`. Every `Math.pow` in the engine has an integer exponent, so each becomes the recursive `RealMath.Pow`. Modules follow the engine's components:

- `Projection` (projection.dfy): the ledger. It is a fold over years 1..operationTime that threads the remaining loan balance and the previous cumulative cash flow (`YearStep`, `Rows`, `Ledger`). Its lemmas cover debt service, loan repayment, depreciation and cumulative cash flow.
- `Summary` (summary.dfy): `calculateFinancials` as a whole, namely NPV, the IRR input, payback period, ROE and average DSCR.
- `IrrSolver` (irr_solver.dfy): `calculateIRR`. It is a fuel-bounded Newton–Raphson search that reports how it ended: root, small step, flat derivative, non-finite guess or exhausted.
- `Amortization` (amortization.dfy): `calculatePMT` and the loan balance it amortizes.
- `Battery` (battery.dfy): `calculateBatteryCosts` and `calculateBatteryRevenue`.
- `Curves` (curves.dfy): solar degradation, the inflated electricity price and inflated OPEX.
- `Scaling`, `CostInput`, `PieData`: `scaleWithCapacity`, `parseCostInput`, `preparePieData` and `getFullInvestmentBreakdown`.
- `RealMath`, `Sums`, `Wrappers`, `Constants`: powers, left-fold sums, `Option` for `null`, and the engine constants.

The battery-revenue callback of `calculateFinancials` is a function parameter of `Projection.Inputs`. The application passes `Battery.CalculateBatteryRevenue` for it (src/context/AppContext.js:346-350).

## Model

| member | source | states |
|---|---|---|
| Projection.GetLoanAmount | src/utils/calculations.js:17-18 | no loan at 0 %, the whole investment at 100 % |
| Projection.GetEquityAmount | src/utils/calculations.js:26-27 | loan amount plus equity amount is the investment, for any loan percentage |
| Battery.CalculateBatteryCosts | src/utils/calculations.js:36-50 | disabled storage costs 0 and 0 whatever the breakdown and rates; enabled, the investment is the sum of the components and OPEX is investment × (maintenance + insurance + reserve) / 100 |
| Battery.BatteryCostsIgnoreOrder | src/utils/calculations.js:39-44 | listing the components in another order gives the same investment and OPEX |
| Battery.CalculateBatteryRevenue | src/utils/calculations.js:59-76 | disabled storage earns 0; at equal buy and sell prices, the years at full efficiency (1 and 16) earn 0 |
| Battery.RevenueResetsAfterYear15 | src/utils/calculations.js:65-75 | years 16–30 have the efficiency and revenue of years 1–15; in particular year 16 equals year 1 |
| Battery.DegradationYears | src/utils/calculations.js:66-67 | the exponent is below the year, below 15 through year 30, and 0 in years 1 and 16 |
| Battery.BatteryDegradation | src/utils/calculations.js:66-67 | efficiency is in (0, 1] and exactly 1 in years 1 and 16 |
| Battery.DegradationFallsWithinEachPhase | src/utils/calculations.js:65-67 | efficiency falls strictly within years 1–15 and within years 16 onwards |
| Battery.DegradationJumpsAtYear16 | src/utils/calculations.js:65-67 | the reset is a jump: year 16 is more efficient than year 15 |
| Battery.RevenueBoundedBySpread | src/utils/calculations.js:62-75 | with non-negative storage and evening price, yearly revenue is at most 365 × kWh × (evening − solar-peak price) |
| Curves.SolarDegradation | src/utils/calculations.js:119-125 | every year keeps a factor in (0, 0.99] of nameplate output |
| Curves.ElectricityPrice | src/utils/calculations.js:128-134 | year 1, or any year without inflation, has the base 2025 price |
| Curves.InflatedOpex | src/utils/calculations.js:137-139 | year 1, or any year without inflation, has the base yearly OPEX |
| Curves.SolarDegradationCompounds | src/utils/calculations.js:119-125 | year 1 keeps exactly 99 %, and each later year keeps 99.6 % of the year before |
| Curves.SolarDegradationStrictlyDecreasing | src/utils/calculations.js:119-125 | solar output falls strictly every year, never resets, and stays in (0, 0.99] |
| Curves.PriceCompounds | src/utils/calculations.js:128-134 | year 1 has the base price, and each later year has the previous price × (1 + inflation) |
| Curves.PriceAndOpexInflateAlike | src/utils/calculations.js:128-139 | price and OPEX are both base × (1 + inflation)^(year − 1); the special-cased year 1 agrees with that formula |
| Projection.LoanPayment | src/utils/calculations.js:103 | levered with a loan term of at least one year, the yearly payment amortizes the loan amount to a zero balance over the term; unlevered, or with a zero term, it is 0 |
| Projection.Depreciation | src/utils/calculations.js:142 | the yearly depreciation × operationTime is the total investment |
| Projection.SolarRevenue | src/utils/calculations.js:147 | year 1 earns yield × 1000 × 0.99 × the 2025 price; no yield earns nothing |
| Projection.TotalOpex | src/utils/calculations.js:153 | year 1, or any year without inflation, costs the yearly OPEX plus the battery OPEX when storage is enabled |
| Projection.DebtService | src/utils/calculations.js:159-171 | interest plus principal is the level payment within the levered term and 0 outside it, where no principal is repaid; the balance carried forward is the balance less the principal. StepFollowsSchedule, NoDebtServiceOutsideTerm and DebtServiceWithinTerm state it further |
| Projection.YearStep | src/utils/calculations.js:145-204 | one year's row is for that year and extends the cumulative cash flow; within the levered term, interest is balance × rate and the balance drops by the principal; otherwise the balance is unchanged |
| Projection.StepIsConsistent | src/utils/calculations.js:145-204 | the row of one year satisfies the accounting identities |
| Projection.Rows | src/utils/calculations.js:145-195 | the rows from a year onward: one per remaining year, numbered consecutively, with each cumulative value the previous plus that year's cash flow |
| Projection.Ledger | src/utils/calculations.js:98-195 | exactly operationTime rows; row i has year i+1; cumulative[0] = cashFlow[0] − (equity if levered, else total investment); cumulative[i] = cumulative[i−1] + cashFlow[i] |
| Projection.RowsAreConsistent | src/utils/calculations.js:145-204 | every row satisfies the accounting identities: revenue, OPEX, depreciation, taxable income, tax, net profit, cash flow, debt service and DSCR |
| Projection.LedgerRowIsConsistent | src/utils/calculations.js:145-204 | the same, for each row of the full ledger |
| Projection.TaxAndNetProfit | src/utils/calculations.js:174-188 | tax ≥ 0; a profit is taxed 10 % and keeps 90 %, a loss is untaxed; cashFlow = netProfit + depreciation − principal |
| Projection.NoDebtServiceOutsideTerm | src/utils/calculations.js:159-203 | unlevered, or after the loan term: interest 0, principal 0, DSCR null |
| Projection.DebtServiceWithinTerm | src/utils/calculations.js:159-203 | levered and within the term: interest + principal is the level payment, and a DSCR exists |
| Projection.StepFollowsSchedule | src/utils/calculations.js:159-171 | debt service of one levered year, started on the scheduled balance, carries the next scheduled balance, repays the drop between the two, and charges interest on the balance it starts with |
| Projection.RowFollowsSchedule | src/utils/calculations.js:159-171 | the row of any levered year y repays the drop in the scheduled balance from y − 1 to y and, within the term, charges interest on the scheduled balance after y − 1 years |
| Projection.LoanIsRepaid | src/utils/calculations.js:100-171 | principal repaid over the ledger is the loan minus the balance left; a loan term of at least one year within the operation time repays the whole loan |
| Projection.ZeroTermRepaysNothing | src/utils/calculations.js:159-171 | levered with a zero loan term, no year is within the term and the principal column sums to 0 |
| Projection.UnleveredRepaysNothing | src/utils/calculations.js:166-172 | without a loan the principal column sums to 0 |
| Projection.CumulativeIsRunningTotal | src/utils/calculations.js:190-195 | cumulative[i] is the sum of cash flows 0..i minus the outlay |
| Projection.DepreciationRecoversInvestment | src/utils/calculations.js:141-157 | depreciation is total investment / operationTime every year, and sums to the total investment |
| Amortization.Pmt | src/utils/helpers.js:95-99 | the level payment; it has no ensures of its own, and its meaning is stated by PmtSolvesAnnuity, PmtRepaysLoan and PmtWithoutInterest |
| Amortization.PmtSolvesAnnuity | src/utils/helpers.js:95-99 | at rate 0 the payment × n equals the loan; otherwise payment × (pvif − 1) = rate × pv × pvif |
| Amortization.PmtWithoutInterest | src/utils/helpers.js:96 | calculatePMT(0, n, pv) = pv / n |
| Amortization.PmtExceedsInterest | src/utils/helpers.js:97-98 | for rate > 0, n ≥ 1, pv > 0 the payment is defined and exceeds rate × pv |
| Amortization.PmtRepaysLoan | src/utils/helpers.js:95-99 | paying the level payment for n years, as the ledger does, leaves a zero balance |
| Amortization.AnnuityPaymentRepays | src/utils/calculations.js:160-171 | at a non-zero rate, any payment solving the annuity equation leaves a zero balance after n years |
| Amortization.ScheduledBalanceStep | src/utils/calculations.js:159-171 | within the term a year's balance is the previous one minus (payment − interest on it); after the term it stays put |
| Amortization.BalanceClosedForm | src/utils/calculations.js:160-171 | rate × balance after k years = rate × pv × (1+rate)^k − payment × ((1+rate)^k − 1) |
| Amortization.BalanceWithoutInterest | src/utils/calculations.js:160-171 | at rate 0 the balance after k years is pv − k × payment |
| IrrSolver.Npv | src/utils/helpers.js:117-119 | at rate 0 the NPV is the plain sum of the cash flows |
| IrrSolver.Slope | src/utils/helpers.js:117-123 | no later flow gives slope 0; with non-negative later flows and rate above −100 % the slope is ≤ 0 |
| IrrSolver.NewtonStep | src/utils/helpers.js:134 | the new guess is the root of the tangent line: NPV + slope × (next − guess) = 0 |
| IrrSolver.EvaluateAt | src/utils/helpers.js:113-123 | the inner loop computes the NPV Σ cf[i]/(1+g)^i and its derivative Σ −i·cf[i]/(1+g)^(i+1) |
| IrrSolver.Search | src/utils/helpers.js:106-146 | at most `fuel` iterations, with the Exhausted exit exactly when they run out (CalculateIrr maps Exhausted, FlatSlope and NonFinite to null); a value exit has abs(NPV) < 1e-4; a step exit took a Newton step of size < 1e-4 from a guess with abs(NPV) ≥ 1e-4 and abs(derivative) ≥ 1e-10; a flat exit had abs(derivative) < 1e-10 before stepping; a NonFinite exit without iterating means the guess was −1 |
| IrrSolver.SearchChecksCurrentGuess | src/utils/helpers.js:112-143 | with fuel left, every guess is checked in order: a guess of −1 gives NonFinite, abs(NPV) < 1e-4 returns the guess, abs(derivative) < 1e-10 gives FlatSlope, a Newton step shorter than 1e-4 returns its end; otherwise the search continues from the Newton step with one iteration more |
| IrrSolver.CalculateIrr | src/utils/helpers.js:106-146 | a rate is returned only through the value or step exit, and null otherwise; at most 100 iterations |
| IrrSolver.IrrResultIsConverged | src/utils/helpers.js:125-139 | a returned rate is an NPV root within 1e-4, or the end of a Newton step shorter than 1e-4 |
| IrrSolver.IrrOfTenPercentInvestment | src/utils/helpers.js:107-127 | cash flows [−100, 110] return the initial guess 0.1 on the first iteration |
| IrrSolver.FlatStartIsIndeterminate | src/utils/helpers.js:129-132 | a flat derivative at the initial guess, with NPV not yet within tolerance, returns null without stepping |
| IrrSolver.SingleFlowIsIndeterminate | src/utils/helpers.js:117-132 | a single cash flow of magnitude ≥ 1e-4 returns null |
| IrrSolver.DiscountedTermShrinks | src/utils/helpers.js:118-119 | a non-negative flow discounted at a higher rate (above −100 %) is worth no more, and a positive one strictly less |
| IrrSolver.NpvUpToNonIncreasing | src/utils/helpers.js:117-119 | with non-negative later flows, NPV does not rise with the rate |
| IrrSolver.NpvStrictlyDecreasing | src/utils/helpers.js:117-119 | with non-negative later flows, one of them positive, NPV falls strictly with the rate |
| Summary.NpvMatchesIrrSolver | src/utils/calculations.js:206-213 | the summary NPV (flow idx discounted idx+1 years, starting from −outlay) is the IRR solver's NPV of [−outlay, cashFlows…] |
| Summary.NpvFallsAsDiscountRateRises | src/utils/calculations.js:206-209 | with non-negative yearly cash flows, one positive, NPV falls strictly as the discount rate rises |
| Summary.DiscountedNpv | src/utils/calculations.js:207-209 | no cash flows leave the initial value; at discount 0 the NPV is the initial value plus the cash-flow total |
| Summary.UndiscountedNpvIsFinalCumulative | src/utils/calculations.js:190-209 | at discount 0 the NPV equals the last year's cumulative cash flow |
| Summary.PaybackScan | src/utils/calculations.js:216-228 | the scan returns 0 exactly when nothing is recovered; at the first recovery index k it returns 1 if k = 0, else a value in (k, k+1] given by linear interpolation |
| Summary.InterpolationWithinYear | src/utils/calculations.js:222-224 | the interpolated fraction of the crossing year lies in (0, 1] |
| Summary.PaybackPeriod | src/utils/calculations.js:215-231 | 1 if year one already recovers; operationTime if nothing recovers; in (k, k+1] for a first crossing at k > 0; always within [1, operationTime] |
| Summary.PresentValues | src/utils/calculations.js:239 | the filtered list is never longer than the input |
| Summary.PresentValuesKeepMultiplicity | src/utils/calculations.js:239 | each value occurs in the result exactly as often as it occurs non-null in the input, and nothing else occurs |
| Summary.PresentValuesConcat | src/utils/calculations.js:239 | filtering a concatenation is the concatenation of the filtered parts, so order is kept |
| Summary.PresentValuesSum | src/utils/calculations.js:239-240 | the sum of the filtered values is the sum with every null counted as 0 |
| Summary.PresentPrefixCount | src/utils/calculations.js:239 | if exactly the first m values are non-null, m values remain |
| Summary.DscrYearsAreTheLoanTerm | src/utils/calculations.js:197-240 | levered, exactly min(loanTerm, operationTime) years have a DSCR |
| Summary.AverageAnnualRoe | src/utils/calculations.js:233-235 | ROE × (years × outlay) = total net profit |
| Summary.AverageDscr | src/utils/calculations.js:237-240 | average × loanTerm = the DSCR total, so the divisor is the loan term, not the DSCR count |
| Summary.Summarize | src/utils/calculations.js:206-240 | from the ledger's columns: NPV, the IRR of [−outlay, cashFlows…], total profit, ROE, payback in [1, operationTime], and average DSCR null exactly when unlevered |
| Summary.CalculateFinancials | src/utils/calculations.js:89-265 | the ledger with NPV, the IRR of [−outlay, cashFlows…], total profit, ROE, the payback period of its cumulative cash flows, within [1, operationTime], and average DSCR null exactly when unlevered |
| Scaling.ScaleWithCapacity | src/utils/helpers.js:8-10 | factor 1 scales linearly (base × capacity), and factor 0 leaves the base |
| Scaling.LinearScalingIsAdditive | src/utils/helpers.js:8-10 | linear scaling of a joint capacity is the sum of the scalings of the parts |
| CostInput.StripCommas | src/utils/helpers.js:85 | the result has no ',', is no longer than the input, keeps every other character's count, and is the identity on comma-free text |
| CostInput.StripCommasConcat | src/utils/helpers.js:85 | stripping commas from a concatenation strips each part, so the order of the kept characters is preserved |
| CostInput.ParseCostInput | src/utils/helpers.js:83-86 | null/undefined/'' give ''; otherwise the result has no ',' and keeps all other characters |
| CostInput.ParseIsIdempotent | src/utils/helpers.js:83-86 | parsing twice equals parsing once |
| PieData.PreparePieData | src/utils/helpers.js:153-159 | a missing breakdown gives []; otherwise one entry per key, in order, with null values as 0 |
| PieData.GetFullInvestmentBreakdown | src/utils/helpers.js:169-182 | a missing breakdown gives []; otherwise the pie entries plus exactly one construction entry, 'Static Construction' with the static cost when fixed, else 'Single Axis Tracker' with the tracker cost |
| PieData.FullBreakdownTotal | src/utils/helpers.js:176-181 | the full pie totals the component slices plus the construction slice |

## Left out

- Presentation and export: `formatNumber`, `formatCurrency`, `formatPercentage`, `formatChartCurrency`, `formatCostInput` and `formatForExcel` depend on `Intl.NumberFormat`, `toFixed` and number-to-string conversion. `src/services/exportService.js`, `src/utils/export.js` and `src/utils/chartCapture.js` are I/O, use xlsx and html2canvas, or read `Date`. None of these is part of this model. The React components and the state wiring in `src/context/AppContext.js` are not part of this model either.
- Scaling.ScaleWithCapacity: covers integer scaling factors only. The 0.8 factor used for some cost components is a non-integer real power, which `real` cannot express.
- IEEE floating point: amounts are exact reals. There is no rounding, no overflow to Infinity and no NaN.
- Projection.Ledger: requires `Projection.WellFormed`: operationTime ≥ 1 and, when levered with a loan term of at least one year, a defined and non-zero level payment. The depreciation and DSCR divisions need these; the source yields Infinity or NaN otherwise. A levered zero loan term is modelled: no year is within the term, so the loan is never repaid and the cumulative cash flow starts from the equity alone.
- Summary.CalculateFinancials: requires `Summary.SummaryWellFormed`: the ledger's conditions plus discountRate ≠ −1, a non-zero outlay (equity when levered, total investment otherwise) and, when levered, loanTerm ≥ 1. The NPV, ROE and average-DSCR divisions need these; the source yields Infinity or NaN for NPV, ROE or the average DSCR otherwise.
- Summary.Summarize: requires the same divisors as `CalculateFinancials` (discountRate ≠ −1, a non-zero outlay, loanTerm ≥ 1 when levered) and a cumulative column of operationTime ≥ 1 entries, which the ledger always supplies.
- Projection.LoanPayment: computed only when levered with a loan term of at least one year. The source computes it always, and with a zero term it is Infinity or NaN, but it is read only within the levered term.
- IrrSolver.Search: a guess of exactly −1 ends the search as `NonFinite`, which maps to null. In the source, every later value there is NaN, so the loop runs out and also returns null. Convergence of the search is not proved.
- Amortization.Pmt: requires at least one period and, for a non-zero rate, (1 + rate)^n ≠ 1. Otherwise the source divides by zero.
- Fractional `operationTime` and `loanTerm`: the model takes both as natural numbers, which is an assumption about the inputs. The settings panel stores the unrounded `parseFloat` of what is typed (src/context/AppContext.js:199-220), and the operation-time field has no min or step; a loan term is only checked against the operation time. With operationTime 2.5, `Array.from` makes 2 rows while depreciation divides the investment by 2.5, so depreciation no longer sums to the investment. A fractional loan term would likewise feed a fractional period count to `calculatePMT`. Such inputs are not modelled.
- `calculateFinancials` default arguments: the model always takes the battery costs and the battery-revenue callback explicitly. The only caller (AppContext.js:353-371) always passes them.
- Battery breakdown values are numbers. The cost editor stores `parseFloat(...) || 0`, so no null or undefined reaches the sum.
- CostInput.ParseCostInput: takes a string or nothing (null/undefined). `String(value)` of other value types is not modelled.
- PieData.PreparePieData: `value || 0` is modelled for missing values only. Its effect on NaN does not arise with exact reals.
- Summary.NpvFallsAsDiscountRateRises: "NPV decreases as the discount rate rises" holds only for non-negative yearly cash flows, so the lemma requires them.
