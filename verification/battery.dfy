/** Battery storage economics: the investment and yearly OPEX of the battery, and its yearly arbitrage revenue. */
module Battery {
  import opened RealMath
  import opened Sums

  datatype BatterySettings = BatterySettings(
    capacity: real,          // MW
    storageDuration: real,   // hours
    costPerMW: real,
    peakSolarPrice: real,    // price paid to charge, per kWh
    eveningPeakPrice: real)  // price earned on discharge, per kWh

  /** Yearly OPEX rates, each a percentage of the total battery investment. */
  datatype OpexRates = OpexRates(maintenance: real, insurance: real, replacementReserve: real)

  datatype BatteryCosts = BatteryCosts(investment: real, opex: real)

  /** Investment components of the battery, in insertion order. */
  type Breakdown = seq<(string, real)>

  function Amounts(breakdown: Breakdown): seq<real>
  {
    seq(|breakdown|, i requires 0 <= i < |breakdown| => breakdown[i].1)
  }

  /** Investment is the sum of the components; the three OPEX percentages are summed and applied once to it. */
  function CalculateBatteryCosts(hasBatteryStorage: bool, breakdown: Breakdown, rates: OpexRates): (r: BatteryCosts)
    ensures !hasBatteryStorage ==> r == BatteryCosts(0.0, 0.0)
    ensures hasBatteryStorage ==> r.investment == Sum(Amounts(breakdown))
    ensures hasBatteryStorage ==>
      r.opex == r.investment * (rates.maintenance + rates.insurance + rates.replacementReserve) / 100.0
  {
    if !hasBatteryStorage then BatteryCosts(0.0, 0.0)
    else
      var totalBatteryInvestment := Sum(Amounts(breakdown));
      var yearlyBatteryOpex := totalBatteryInvestment * (
        rates.maintenance / 100.0 + rates.insurance / 100.0 + rates.replacementReserve / 100.0);
      BatteryCosts(totalBatteryInvestment, yearlyBatteryOpex)
  }

  /** The order in which the components are listed does not change the costs. */
  lemma BatteryCostsIgnoreOrder(hasBatteryStorage: bool, b1: Breakdown, b2: Breakdown, rates: OpexRates)
    requires multiset(Amounts(b1)) == multiset(Amounts(b2))
    ensures CalculateBatteryCosts(hasBatteryStorage, b1, rates) == CalculateBatteryCosts(hasBatteryStorage, b2, rates)
  {
    SumPermutation(Amounts(b1), Amounts(b2));
  }

  /** Yearly battery efficiency loss of 0.02 %. */
  const YearlyBatteryLoss: real := 0.02 / 100.0

  /** The exponent of the efficiency factor: years since year 1, counted again from zero from year 16 on. */
  function DegradationYears(year: nat): (n: nat)
    requires year >= 1
    ensures n < year
    ensures year <= 30 ==> n < 15
    ensures year == 1 || year == 16 ==> n == 0
  {
    if year <= 15 then year - 1 else (year - 1) - 15
  }

  /** Remaining battery efficiency in `year`. */
  function BatteryDegradation(year: nat): (d: real)
    requires year >= 1
    ensures 0.0 < d <= 1.0
    ensures year == 1 || year == 16 ==> d == 1.0
  {
    PowOfFraction(1.0 - YearlyBatteryLoss, DegradationYears(year));
    Pow(1.0 - YearlyBatteryLoss, DegradationYears(year))
  }

  function StorageKWh(settings: BatterySettings): real
  {
    settings.capacity * settings.storageDuration * 1000.0
  }

  /** Yearly arbitrage profit: one full charge bought at the solar-peak price and sold at the evening-peak price each day, for 365 days. */
  function CalculateBatteryRevenue(year: nat, hasBatteryStorage: bool, settings: BatterySettings): (r: real)
    requires year >= 1
    ensures !hasBatteryStorage ==> r == 0.0
    ensures hasBatteryStorage && settings.eveningPeakPrice == settings.peakSolarPrice && year in {1, 16} ==> r == 0.0
  {
    if !hasBatteryStorage then 0.0
    else
      var efficiency := 1.0;
      var degradation := BatteryDegradation(year);
      var storageKWh := StorageKWh(settings);
      var dailyStorageCost := storageKWh * settings.peakSolarPrice;
      var dailyStorageRevenue := storageKWh * efficiency * settings.eveningPeakPrice * degradation;
      var dailyProfit := dailyStorageRevenue - dailyStorageCost;
      dailyProfit * 365.0
  }

  /** Years 16 to 30 repeat the efficiency, and therefore the revenue, of years 1 to 15. */
  lemma RevenueResetsAfterYear15(year: nat, hasBatteryStorage: bool, settings: BatterySettings)
    requires 16 <= year <= 30
    ensures BatteryDegradation(year) == BatteryDegradation(year - 15)
    ensures CalculateBatteryRevenue(year, hasBatteryStorage, settings)
         == CalculateBatteryRevenue(year - 15, hasBatteryStorage, settings)
  {
  }

  /** The efficiency falls strictly within years 1 to 15 and within years 16 onwards. */
  lemma DegradationFallsWithinEachPhase(y1: nat, y2: nat)
    requires 1 <= y1 < y2
    requires y2 <= 15 || 16 <= y1
    ensures BatteryDegradation(y2) < BatteryDegradation(y1)
  {
    PowStrictlyDecreasing(1.0 - YearlyBatteryLoss, DegradationYears(y1), DegradationYears(y2));
  }

  /** The reset is a discontinuity: year 16 is more efficient than year 15. */
  lemma DegradationJumpsAtYear16()
    ensures BatteryDegradation(16) > BatteryDegradation(15)
  {
    PowStrictlyDecreasing(1.0 - YearlyBatteryLoss, 0, 14);
  }

  /** With a non-negative storage size and evening price, the revenue is at most the undegraded price spread over a year. */
  lemma RevenueBoundedBySpread(year: nat, settings: BatterySettings)
    requires year >= 1
    requires StorageKWh(settings) >= 0.0 && settings.eveningPeakPrice >= 0.0
    ensures CalculateBatteryRevenue(year, true, settings)
         <= 365.0 * StorageKWh(settings) * (settings.eveningPeakPrice - settings.peakSolarPrice)
  {
    var d := BatteryDegradation(year);
    var k := StorageKWh(settings);
    var e := settings.eveningPeakPrice;
    assert e * d <= e;
    MulByNonNegative(k, e * d, e);
    assert k * 1.0 * e * d == k * (e * d);
  }
}
