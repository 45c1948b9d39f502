/** Year-indexed curves of the projection: solar output degradation and inflation of price and OPEX (years are 1-based). */
module Curves {
  import opened RealMath
  import opened Constants

  /** Share of the nominal solar output delivered in `year`. */
  function SolarDegradation(year: nat): (d: real)
    requires year >= 1
    ensures 0.0 < d <= 0.99
  {
    PowOfFraction(1.0 - SubsequentYearDegradation, year - 1);
    if year == 1 then 1.0 - FirstYearDegradation
    else (1.0 - FirstYearDegradation) * Pow(1.0 - SubsequentYearDegradation, year - 1)
  }

  /** Electricity price in `year`, grown from the base-year price by compound inflation. */
  function ElectricityPrice(basePrice: real, inflationRate: real, year: nat): (price: real)
    requires year >= 1
    ensures year == 1 ==> price == basePrice
    ensures inflationRate == 0.0 ==> price == basePrice
  {
    PowOfOne(year - 1);
    if year == 1 then basePrice
    else basePrice * Pow(1.0 + inflationRate, year - 1)
  }

  /** Base OPEX inflated to `year`. */
  function InflatedOpex(yearlyOpex: real, inflationRate: real, year: nat): (opex: real)
    requires year >= 1
    ensures year == 1 ==> opex == yearlyOpex
    ensures inflationRate == 0.0 ==> opex == yearlyOpex
  {
    PowOfOne(year - 1);
    yearlyOpex * Pow(1.0 + inflationRate, year - 1)
  }

  /** Year 1 loses exactly the first-year degradation; every later year loses a further 0.4 % of the previous year's output. */
  lemma SolarDegradationCompounds(year: nat)
    requires year >= 1
    ensures SolarDegradation(1) == 0.99
    ensures SolarDegradation(year + 1) == SolarDegradation(year) * 0.996
  {
    if year > 1 {
      var p := Pow(0.996, year - 1);
      assert Pow(0.996, year) == 0.996 * p;
      assert 0.99 * (0.996 * p) == (0.99 * p) * 0.996;
    }
  }

  /** Output degrades strictly from year to year and never resets. */
  lemma SolarDegradationStrictlyDecreasing(y1: nat, y2: nat)
    requires 1 <= y1 < y2
    ensures 0.0 < SolarDegradation(y2) < SolarDegradation(y1) <= 0.99
  {
    assert Pow(0.996, 0) == 1.0;
    assert SolarDegradation(y1) == 0.99 * Pow(0.996, y1 - 1);
    assert SolarDegradation(y2) == 0.99 * Pow(0.996, y2 - 1);
    PowStrictlyDecreasing(0.996, y1 - 1, y2 - 1);
    PowPositive(0.996, y2 - 1);
    if y1 > 1 {
      PowStrictlyDecreasing(0.996, 0, y1 - 1);
    }
  }

  /** The price compounds: each year's price is the previous one grown by the inflation rate. */
  lemma PriceCompounds(basePrice: real, inflationRate: real, year: nat)
    requires year >= 1
    ensures ElectricityPrice(basePrice, inflationRate, 1) == basePrice
    ensures ElectricityPrice(basePrice, inflationRate, year + 1)
         == ElectricityPrice(basePrice, inflationRate, year) * (1.0 + inflationRate)
  {
    var g := 1.0 + inflationRate;
    if year > 1 {
      var p := Pow(g, year - 1);
      assert Pow(g, year) == g * p;
      assert basePrice * (g * p) == (basePrice * p) * g;
    } else {
      assert Pow(g, 1) == g * Pow(g, 0);
    }
  }

  /** Price and OPEX inflate alike: both are their base value times `(1 + inflation)^(year - 1)`. */
  lemma PriceAndOpexInflateAlike(basePrice: real, yearlyOpex: real, inflationRate: real, year: nat)
    requires year >= 1
    ensures ElectricityPrice(basePrice, inflationRate, year) == basePrice * Pow(1.0 + inflationRate, year - 1)
    ensures InflatedOpex(yearlyOpex, inflationRate, year) == yearlyOpex * Pow(1.0 + inflationRate, year - 1)
    ensures InflatedOpex(yearlyOpex, inflationRate, 1) == yearlyOpex
  {
  }
}
