/** Cost breakdowns turned into the name/value entries the pie charts draw. */
module PieData {
  import opened Wrappers
  import opened Sums

  /** A breakdown as the UI holds it: component names in insertion order, amounts possibly missing. */
  type RawBreakdown = seq<(string, Option<real>)>

  datatype PieEntry = PieEntry(name: string, value: real)

  /** A missing amount counts as zero. */
  function OrZero(v: Option<real>): real
  {
    v.GetOr(0.0)
  }

  /** One entry per component, in order; a missing breakdown yields no entries. */
  function PreparePieData(breakdown: Option<RawBreakdown>): (r: seq<PieEntry>)
    ensures breakdown.None? ==> r == []
    ensures breakdown.Some? ==> |r| == |breakdown.value|
    ensures breakdown.Some? ==> forall i :: 0 <= i < |r| ==>
      r[i].name == breakdown.value[i].0
      && (breakdown.value[i].1.Some? ==> r[i].value == breakdown.value[i].1.value)
      && (breakdown.value[i].1.None? ==> r[i].value == 0.0)
  {
    match breakdown
    case None => []
    case Some(b) => seq(|b|, i requires 0 <= i < |b| => PieEntry(b[i].0, OrZero(b[i].1)))
  }

  /** The label of the construction slice for the chosen mounting system. */
  function ConstructionName(isFixed: bool): string
  {
    if isFixed then "Static Construction" else "Single Axis Tracker"
  }

  /** The breakdown entries followed by exactly one entry for the chosen construction cost. */
  function GetFullInvestmentBreakdown(breakdown: Option<RawBreakdown>, staticConstructionCost: Option<real>,
                                      singleAxisTrackerCost: Option<real>, isFixed: bool): (r: seq<PieEntry>)
    ensures breakdown.None? ==> r == []
    ensures breakdown.Some? ==> |r| == |breakdown.value| + 1
    ensures breakdown.Some? ==> r[..|r| - 1] == PreparePieData(breakdown)
    ensures breakdown.Some? && isFixed ==> r[|r| - 1] == PieEntry("Static Construction", OrZero(staticConstructionCost))
    ensures breakdown.Some? && !isFixed ==> r[|r| - 1] == PieEntry("Single Axis Tracker", OrZero(singleAxisTrackerCost))
  {
    match breakdown
    case None => []
    case Some(b) =>
      var baseInvestment := PreparePieData(breakdown);
      var construction := PieEntry(ConstructionName(isFixed), OrZero(if isFixed then staticConstructionCost else singleAxisTrackerCost));
      baseInvestment + [construction]
  }

  function Values(entries: seq<PieEntry>): seq<real>
  {
    seq(|entries|, i requires 0 <= i < |entries| => entries[i].value)
  }

  /** The full investment pie totals the component slices plus the construction slice. */
  lemma FullBreakdownTotal(b: RawBreakdown, staticConstructionCost: Option<real>, singleAxisTrackerCost: Option<real>, isFixed: bool)
    ensures Sum(Values(GetFullInvestmentBreakdown(Some(b), staticConstructionCost, singleAxisTrackerCost, isFixed)))
         == Sum(Values(PreparePieData(Some(b)))) + OrZero(if isFixed then staticConstructionCost else singleAxisTrackerCost)
  {
    var pie := PreparePieData(Some(b));
    var last := GetFullInvestmentBreakdown(Some(b), staticConstructionCost, singleAxisTrackerCost, isFixed)[|b|];
    assert Values(pie + [last]) == Values(pie) + [last.value];
    SumConcat(Values(pie), [last.value]);
    SumSingleton(last.value);
  }
}
