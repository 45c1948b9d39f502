/** Level-payment loans: the annuity payment and the balance it amortizes. */
module Amortization {
  import opened RealMath

  /** The payment is well defined: at least one period, and for a non-zero rate `(1 + rate)^nper != 1`. */
  predicate PmtDefined(rate: real, nper: nat)
  {
    nper >= 1 && (rate == 0.0 || Pow(1.0 + rate, nper) != 1.0)
  }

  /** Level yearly payment on a loan of `pv` over `nper` years at interest `rate`. */
  function Pmt(rate: real, nper: nat, pv: real): real
    requires PmtDefined(rate, nper)
  {
    if rate == 0.0 then pv / nper as real
    else
      var pvif := Pow(1.0 + rate, nper);
      (rate * pv * pvif) / (pvif - 1.0)
  }

  /** The payment solves the annuity equation: without interest `nper` payments add up to the loan, otherwise `payment * (pvif - 1) == rate * pv * pvif` with `pvif = (1 + rate)^nper`. */
  lemma PmtSolvesAnnuity(rate: real, nper: nat, pv: real)
    requires PmtDefined(rate, nper)
    ensures rate == 0.0 ==> Pmt(rate, nper, pv) * nper as real == pv
    ensures rate != 0.0 ==> Pmt(rate, nper, pv) * (Pow(1.0 + rate, nper) - 1.0) == rate * pv * Pow(1.0 + rate, nper)
  {
    var pvif := Pow(1.0 + rate, nper);
    if rate != 0.0 {
      assert pvif - 1.0 != 0.0;
      MulDivCancel(pvif - 1.0, rate * pv * pvif);
    } else {
      MulDivCancel(nper as real, pv);
    }
  }

  /** Outstanding balance after `years` payments: each year the interest on the balance is charged and the rest of the payment repays principal. */
  function Balance(pv: real, rate: real, payment: real, years: nat): real
  {
    if years == 0 then pv
    else
      var remaining := Balance(pv, rate, payment, years - 1);
      var interest := remaining * rate;
      var principal := payment - interest;
      remaining - principal
  }

  /** One year of a schedule that stops after `term` years: within the term the balance drops by the payment less the interest on it, afterwards it stays put. */
  lemma ScheduledBalanceStep(pv: real, rate: real, payment: real, term: nat, year: nat)
    requires year >= 1
    ensures var before := Balance(pv, rate, payment, Min(year - 1, term));
      && (year <= term ==> Balance(pv, rate, payment, Min(year, term)) == before - (payment - before * rate))
      && (year > term ==> Balance(pv, rate, payment, Min(year, term)) == before)
  {
    if year <= term {
      assert Min(year, term) == year && Min(year - 1, term) == year - 1;
    } else {
      assert Min(year, term) == term && Min(year - 1, term) == term;
    }
  }

  /** Closed form of the balance, multiplied through by the rate so that no division is needed. */
  lemma {:induction false} BalanceClosedForm(pv: real, rate: real, payment: real, k: nat)
    ensures rate * Balance(pv, rate, payment, k)
         == rate * pv * Pow(1.0 + rate, k) - payment * (Pow(1.0 + rate, k) - 1.0)
  {
    if k > 0 {
      BalanceClosedForm(pv, rate, payment, k - 1);
      ClosedFormStep(pv, rate, payment, Balance(pv, rate, payment, k - 1), Pow(1.0 + rate, k - 1),
                     Balance(pv, rate, payment, k), Pow(1.0 + rate, k));
    } else {
      assert Balance(pv, rate, payment, k) == pv && Pow(1.0 + rate, k) == 1.0;
    }
  }

  /** The algebra of one step of the closed form: if `rate * b` matches it after `k - 1` years, one more year of interest and payment keeps it matching. */
  lemma ClosedFormStep(pv: real, rate: real, payment: real, b: real, p: real, nextB: real, nextP: real)
    requires rate * b == rate * pv * p - payment * (p - 1.0)
    requires nextB == b - (payment - b * rate) && nextP == (1.0 + rate) * p
    ensures rate * nextB == rate * pv * nextP - payment * (nextP - 1.0)
  {
    var c := rate * b;
    calc {
      rate * nextB;
      rate * (b - (payment - b * rate));
      rate * (b * (1.0 + rate) - payment);
      (1.0 + rate) * c - rate * payment;
      (1.0 + rate) * (rate * pv * p) - (1.0 + rate) * (payment * (p - 1.0)) - rate * payment;
      rate * pv * ((1.0 + rate) * p) - payment * ((1.0 + rate) * p - 1.0);
      rate * pv * nextP - payment * (nextP - 1.0);
    }
  }

  /** Without interest every payment repays its full amount. */
  lemma {:induction false} BalanceWithoutInterest(pv: real, payment: real, k: nat)
    ensures Balance(pv, 0.0, payment, k) == pv - k as real * payment
  {
    if k > 0 {
      BalanceWithoutInterest(pv, payment, k - 1);
    }
  }

  /** Paying `Pmt(rate, nper, pv)` for `nper` years leaves nothing owed. */
  lemma PmtRepaysLoan(rate: real, nper: nat, pv: real)
    requires PmtDefined(rate, nper)
    ensures Balance(pv, rate, Pmt(rate, nper, pv), nper) == 0.0
  {
    var payment := Pmt(rate, nper, pv);
    PmtSolvesAnnuity(rate, nper, pv);
    if rate == 0.0 {
      BalanceWithoutInterest(pv, payment, nper);
    } else {
      AnnuityPaymentRepays(rate, nper, pv, payment);
    }
  }

  /** At a non-zero rate, any payment solving the annuity equation clears the loan in `nper` years. */
  lemma AnnuityPaymentRepays(rate: real, nper: nat, pv: real, payment: real)
    requires rate != 0.0
    requires payment * (Pow(1.0 + rate, nper) - 1.0) == rate * pv * Pow(1.0 + rate, nper)
    ensures Balance(pv, rate, payment, nper) == 0.0
  {
    BalanceClosedForm(pv, rate, payment, nper);
    ZeroProduct(rate, Balance(pv, rate, payment, nper));
  }

  /** A product with a non-zero factor vanishes only when the other factor does. */
  lemma ZeroProduct(a: real, b: real)
    requires a != 0.0 && a * b == 0.0
    ensures b == 0.0
  {
  }

  /** On a positive loan at a positive rate the payment exceeds the first year's interest, so principal is repaid from year one. */
  lemma PmtExceedsInterest(rate: real, nper: nat, pv: real)
    requires rate > 0.0 && nper >= 1 && pv > 0.0
    ensures PmtDefined(rate, nper)
    ensures Pmt(rate, nper, pv) > rate * pv
  {
    var pvif := Pow(1.0 + rate, nper);
    PowAboveOne(1.0 + rate, nper);
    var payment := Pmt(rate, nper, pv);
    PmtSolvesAnnuity(rate, nper, pv);
    var interest := rate * pv;
    assert interest > 0.0;
    var d := pvif - 1.0;
    assert d > 0.0;
    assert payment * d == interest * d + interest;
    if payment <= interest {
      MulAtMost(payment, interest, d);
      assert false;
    }
  }

  /** With no interest the payment is the loan spread evenly over the term. */
  lemma PmtWithoutInterest(nper: nat, pv: real)
    requires nper >= 1
    ensures Pmt(0.0, nper, pv) == pv / nper as real
  {
  }
}
