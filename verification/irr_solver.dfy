/** The internal rate of return, found by a bounded Newton-Raphson search over the NPV of a cash-flow list. */
module IrrSolver {
  import opened Wrappers
  import opened RealMath
  import Sums

  const InitialGuess: real := 0.1
  const Tolerance: real := 0.0001
  const MaxIterations: nat := 100
  /** Below this absolute slope a Newton step is not taken. */
  const MinSlope: real := 0.0000000001

  /** NPV of the first `k` flows at `rate`, flow `i` discounted by `(1 + rate)^i`. */
  function NpvUpTo(cashFlows: seq<real>, rate: real, k: nat): (npv: real)
    requires k <= |cashFlows| && 1.0 + rate != 0.0
    ensures rate == 0.0 ==> npv == Sums.Sum(cashFlows[..k])
  {
    if k == 0 then 0.0
    else
      PowNonZero(1.0 + rate, k - 1);
      PowOfOne(k - 1);
      assert cashFlows[..k][..k - 1] == cashFlows[..k - 1];
      NpvUpTo(cashFlows, rate, k - 1) + cashFlows[k - 1] / Pow(1.0 + rate, k - 1)
  }

  /** The NPV of all flows; undiscounted it is their plain total. */
  function Npv(cashFlows: seq<real>, rate: real): (npv: real)
    requires 1.0 + rate != 0.0
    ensures rate == 0.0 ==> npv == Sums.Sum(cashFlows)
  {
    assert cashFlows[..|cashFlows|] == cashFlows;
    NpvUpTo(cashFlows, rate, |cashFlows|)
  }

  /** Derivative of `NpvUpTo` with respect to the rate: flow `i > 0` contributes `-i * cf[i] / (1 + rate)^(i+1)`. */
  function SlopeUpTo(cashFlows: seq<real>, rate: real, k: nat): (slope: real)
    requires k <= |cashFlows| && 1.0 + rate != 0.0
    ensures k <= 1 ==> slope == 0.0
    ensures 1.0 + rate > 0.0 && (forall i :: 1 <= i < k ==> cashFlows[i] >= 0.0) ==> slope <= 0.0
  {
    if k == 0 then 0.0
    else
      var i := k - 1;
      PowNonZero(1.0 + rate, i + 1);
      SlopeTermSign(i, cashFlows[i], rate);
      SlopeUpTo(cashFlows, rate, i) - (if i > 0 then i as real * cashFlows[i] / Pow(1.0 + rate, i + 1) else 0.0)
  }

  /** Above -100 % a non-negative flow contributes a non-negative amount to the derivative's subtrahend. */
  lemma SlopeTermSign(i: nat, c: real, rate: real)
    requires 1.0 + rate != 0.0
    ensures Pow(1.0 + rate, i + 1) != 0.0
      && (1.0 + rate > 0.0 && c >= 0.0 ==> i as real * c / Pow(1.0 + rate, i + 1) >= 0.0)
  {
    PowNonZero(1.0 + rate, i + 1);
    if 1.0 + rate > 0.0 {
      PowPositive(1.0 + rate, i + 1);
    }
  }

  /** The derivative of the NPV: zero for a lone flow, and never positive above -100 % when every later flow is non-negative. */
  function Slope(cashFlows: seq<real>, rate: real): (slope: real)
    requires 1.0 + rate != 0.0
    ensures |cashFlows| <= 1 ==> slope == 0.0
    ensures 1.0 + rate > 0.0 && (forall i :: 1 <= i < |cashFlows| ==> cashFlows[i] >= 0.0) ==> slope <= 0.0
  {
    SlopeUpTo(cashFlows, rate, |cashFlows|)
  }

  /** One pass of the inner loop: NPV and its derivative at `guess`, accumulated flow by flow. */
  method EvaluateAt(cashFlows: seq<real>, guess: real) returns (npv: real, derivative: real)
    requires 1.0 + guess != 0.0
    ensures npv == Npv(cashFlows, guess)
    ensures derivative == Slope(cashFlows, guess)
  {
    npv, derivative := 0.0, 0.0;
    var i := 0;
    while i < |cashFlows|
      invariant 0 <= i <= |cashFlows|
      invariant npv == NpvUpTo(cashFlows, guess, i)
      invariant derivative == SlopeUpTo(cashFlows, guess, i)
    {
      PowNonZero(1.0 + guess, i);
      PowNonZero(1.0 + guess, i + 1);
      var denominator := Pow(1.0 + guess, i);
      npv := npv + cashFlows[i] / denominator;
      if i > 0 {
        derivative := derivative - i as real * cashFlows[i] / Pow(1.0 + guess, i + 1);
      }
      i := i + 1;
    }
  }

  /** How a search ended. */
  datatype IrrExit =
    | Root(rate: real)                     // |NPV(rate)| fell below the tolerance
    | SmallStep(from: real, rate: real)    // a Newton step from `from` to `rate` moved less than the tolerance
    | FlatSlope(at: real)                  // the derivative at `at` was too small to step
    | NonFinite                            // the guess reached -1, where every discount factor but the first is 1/0
    | Exhausted                            // every iteration was used without converging

  /** The exit and the number of iterations completed before it. */
  datatype IrrOutcome = IrrOutcome(exit: IrrExit, iterations: nat)

  /** The Newton step from `guess`. */
  function NewtonStep(cashFlows: seq<real>, guess: real): (next: real)
    requires 1.0 + guess != 0.0 && Slope(cashFlows, guess) != 0.0
    ensures Npv(cashFlows, guess) + Slope(cashFlows, guess) * (next - guess) == 0.0
  {
    guess - Npv(cashFlows, guess) / Slope(cashFlows, guess)
  }

  /** The search from `guess` with `fuel` iterations left. */
  function Search(cashFlows: seq<real>, guess: real, fuel: nat): (o: IrrOutcome)
    decreases fuel
    ensures o.iterations <= fuel
    ensures o.exit.Exhausted? <==> o.iterations == fuel
    ensures o.exit.Root? ==> 1.0 + o.exit.rate != 0.0 && Abs(Npv(cashFlows, o.exit.rate)) < Tolerance
    ensures o.exit.SmallStep? ==>
      && 1.0 + o.exit.from != 0.0
      && Abs(Npv(cashFlows, o.exit.from)) >= Tolerance
      && Abs(Slope(cashFlows, o.exit.from)) >= MinSlope
      && o.exit.rate == NewtonStep(cashFlows, o.exit.from)
      && Abs(o.exit.rate - o.exit.from) < Tolerance
    ensures o.exit.FlatSlope? ==>
      && 1.0 + o.exit.at != 0.0
      && Abs(Npv(cashFlows, o.exit.at)) >= Tolerance
      && Abs(Slope(cashFlows, o.exit.at)) < MinSlope
    ensures o.iterations == 0 && fuel > 0 ==>
      (o.exit.Root? ==> o.exit.rate == guess) && (o.exit.SmallStep? ==> o.exit.from == guess) && (o.exit.FlatSlope? ==> o.exit.at == guess)
    ensures o.exit.NonFinite? && o.iterations == 0 ==> 1.0 + guess == 0.0
  {
    if fuel == 0 then IrrOutcome(Exhausted, 0)
    else if 1.0 + guess == 0.0 then IrrOutcome(NonFinite, 0)
    else
      var npv := Npv(cashFlows, guess);
      var derivative := Slope(cashFlows, guess);
      if Abs(npv) < Tolerance then IrrOutcome(Root(guess), 0)
      else if Abs(derivative) < MinSlope then IrrOutcome(FlatSlope(guess), 0)
      else
        var newGuess := guess - npv / derivative;
        if Abs(newGuess - guess) < Tolerance then IrrOutcome(SmallStep(guess, newGuess), 0)
        else
          var rest := Search(cashFlows, newGuess, fuel - 1);
          IrrOutcome(rest.exit, rest.iterations + 1)
  }

  /** Each iteration checks the current guess in the source's order: a finite discount, a root, a flat slope, a short Newton step; only when none fires does the search go on from the Newton step. */
  lemma SearchChecksCurrentGuess(cashFlows: seq<real>, guess: real, fuel: nat)
    requires fuel > 0
    ensures 1.0 + guess == 0.0 ==> Search(cashFlows, guess, fuel) == IrrOutcome(NonFinite, 0)
    ensures 1.0 + guess != 0.0 && Abs(Npv(cashFlows, guess)) < Tolerance ==>
      Search(cashFlows, guess, fuel) == IrrOutcome(Root(guess), 0)
    ensures 1.0 + guess != 0.0 && Abs(Npv(cashFlows, guess)) >= Tolerance && Abs(Slope(cashFlows, guess)) < MinSlope ==>
      Search(cashFlows, guess, fuel) == IrrOutcome(FlatSlope(guess), 0)
    ensures 1.0 + guess != 0.0 && Abs(Npv(cashFlows, guess)) >= Tolerance && Abs(Slope(cashFlows, guess)) >= MinSlope ==>
      var next := NewtonStep(cashFlows, guess);
      && (Abs(next - guess) < Tolerance ==> Search(cashFlows, guess, fuel) == IrrOutcome(SmallStep(guess, next), 0))
      && (Abs(next - guess) >= Tolerance ==>
            && Search(cashFlows, guess, fuel).iterations == Search(cashFlows, next, fuel - 1).iterations + 1
            && Search(cashFlows, guess, fuel).exit == Search(cashFlows, next, fuel - 1).exit)
  {
  }

  /** The IRR of `cashFlows` (outlay first), or `None` when the search is indeterminate. */
  function CalculateIrr(cashFlows: seq<real>): (r: Option<real>)
    ensures var o := Search(cashFlows, InitialGuess, MaxIterations);
      && o.iterations <= MaxIterations
      && (r.Some? ==> (o.exit.Root? || o.exit.SmallStep?) && r.value == o.exit.rate)
      && (r.None? ==> o.exit.FlatSlope? || o.exit.NonFinite? || o.exit.Exhausted?)
  {
    match Search(cashFlows, InitialGuess, MaxIterations).exit
    case Root(rate) => Some(rate)
    case SmallStep(_, rate) => Some(rate)
    case _ => None
  }

  /** A returned rate is either a root to within the tolerance or the end of a Newton step shorter than the tolerance. */
  lemma IrrResultIsConverged(cashFlows: seq<real>)
    requires CalculateIrr(cashFlows).Some?
    ensures var x := CalculateIrr(cashFlows).value;
      (1.0 + x != 0.0 && Abs(Npv(cashFlows, x)) < Tolerance)
      || (exists from :: 1.0 + from != 0.0 && Abs(Slope(cashFlows, from)) >= MinSlope
            && x == NewtonStep(cashFlows, from) && Abs(x - from) < Tolerance)
  {
    var o := Search(cashFlows, InitialGuess, MaxIterations);
    if o.exit.SmallStep? {
      var from := o.exit.from;
      assert 1.0 + from != 0.0 && Abs(Slope(cashFlows, from)) >= MinSlope;
    }
  }

  /** Investing 100 to receive 110 a year later returns exactly the initial guess of 10 %, on the first iteration. */
  lemma IrrOfTenPercentInvestment()
    ensures Search([-100.0, 110.0], InitialGuess, MaxIterations) == IrrOutcome(Root(0.1), 0)
    ensures CalculateIrr([-100.0, 110.0]) == Some(0.1)
  {
    var cf := [-100.0, 110.0];
    assert Pow(1.1, 0) == 1.0;
    assert Pow(1.1, 1) == 1.1;
    assert NpvUpTo(cf, 0.1, 1) == -100.0;
    assert NpvUpTo(cf, 0.1, 2) == -100.0 + 110.0 / 1.1;
    assert Npv(cf, 0.1) == 0.0;
  }

  /** When the derivative at the initial guess is flat and the NPV there is not small, no step is taken and the result is `None`. */
  lemma FlatStartIsIndeterminate(cashFlows: seq<real>)
    requires Abs(Npv(cashFlows, InitialGuess)) >= Tolerance
    requires Abs(Slope(cashFlows, InitialGuess)) < MinSlope
    ensures Search(cashFlows, InitialGuess, MaxIterations) == IrrOutcome(FlatSlope(InitialGuess), 0)
    ensures CalculateIrr(cashFlows) == None
  {
  }

  /** A single flow has no slope, so unless it is already (nearly) zero its IRR is indeterminate. */
  lemma {:induction false} SingleFlowIsIndeterminate(c: real)
    requires Abs(c) >= Tolerance
    ensures CalculateIrr([c]) == None
  {
    assert Pow(1.1, 0) == 1.0;
    assert NpvUpTo([c], InitialGuess, 1) == c;
    assert SlopeUpTo([c], InitialGuess, 1) == 0.0;
    FlatStartIsIndeterminate([c]);
  }

  /** Later flows that are all non-negative make the NPV non-increasing in the rate (for rates above -100 %). */
  lemma {:induction false} NpvUpToNonIncreasing(cashFlows: seq<real>, r1: real, r2: real, k: nat)
    requires -1.0 < r1 < r2 && k <= |cashFlows|
    requires forall i :: 1 <= i < |cashFlows| ==> cashFlows[i] >= 0.0
    ensures NpvUpTo(cashFlows, r2, k) <= NpvUpTo(cashFlows, r1, k)
  {
    if k > 0 {
      NpvUpToNonIncreasing(cashFlows, r1, r2, k - 1);
      if k - 1 >= 1 {
        DiscountedTermShrinks(cashFlows[k - 1], r1, r2, k - 1);
      } else {
        assert Pow(1.0 + r1, 0) == 1.0 == Pow(1.0 + r2, 0);
      }
    }
  }

  /** One discounted term of a non-negative flow, compared at two rates. */
  lemma DiscountedTermShrinks(c: real, r1: real, r2: real, i: nat)
    requires -1.0 < r1 < r2 && c >= 0.0
    ensures Pow(1.0 + r1, i) > 0.0 && Pow(1.0 + r2, i) > 0.0
    ensures c / Pow(1.0 + r2, i) <= c / Pow(1.0 + r1, i)
    ensures c > 0.0 && i >= 1 ==> c / Pow(1.0 + r2, i) < c / Pow(1.0 + r1, i)
  {
    PowPositive(1.0 + r1, i);
    PowPositive(1.0 + r2, i);
    if i >= 1 {
      PowStrictlyIncreasingInBase(1.0 + r1, 1.0 + r2, i);
      if c > 0.0 {
        DivByLarger(c, Pow(1.0 + r1, i), Pow(1.0 + r2, i));
      }
    } else {
      assert Pow(1.0 + r1, i) == 1.0 == Pow(1.0 + r2, i);
    }
  }

  /** With non-negative later flows, one of them positive, the NPV falls strictly as the rate rises. */
  lemma {:induction false} NpvStrictlyDecreasing(cashFlows: seq<real>, r1: real, r2: real, j: nat, k: nat)
    requires -1.0 < r1 < r2 && k <= |cashFlows|
    requires forall i :: 1 <= i < |cashFlows| ==> cashFlows[i] >= 0.0
    requires 1 <= j < k && cashFlows[j] > 0.0
    ensures NpvUpTo(cashFlows, r2, k) < NpvUpTo(cashFlows, r1, k)
  {
    DiscountedTermShrinks(cashFlows[k - 1], r1, r2, k - 1);
    if j == k - 1 {
      NpvUpToNonIncreasing(cashFlows, r1, r2, k - 1);
    } else {
      NpvStrictlyDecreasing(cashFlows, r1, r2, j, k - 1);
    }
  }
}
