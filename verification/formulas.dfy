/** The two loan/investment formulas of the calculator over exact reals
    (the floating-point evaluation and `round(..., 2)` are not modelled),
    together with reference definitions they are proved against: a
    month-by-month loan balance for EMI and a month-by-month deposit
    account for SIP. */
module Formulas {
  import opened Wrappers

  function Pow(x: real, n: nat): real {
    if n == 0 then 1.0 else x * Pow(x, n - 1)
  }

  /** The geometric sum 1 + x + ... + x^(k-1). */
  function Geo(x: real, k: nat): real {
    if k == 0 then 0.0 else Geo(x, k - 1) * x + 1.0
  }

  /** Monthly rate for an annual percentage: `rate / (12 * 100)`. */
  function MonthlyRate(rate: nat): (r: real)
    ensures r >= 0.0
    ensures r == 0.0 <==> rate == 0
  {
    rate as real / 1200.0
  }

  /** Number of monthly periods: `years * 12`. */
  function Months(years: nat): nat {
    12 * years
  }

  // ---------------------------------------------------------------------
  // Closed forms. Each nonlinear identity is named by a predicate so that
  // the inductive proofs below handle it as one fact.

  /** r * geo = p - 1: a geometric sum against the power it sums to. */
  predicate GeoLaw(r: real, geo: real, p: real) {
    r * geo == p - 1.0
  }

  /** b = P p - e g: a balance `b` against principal `P` grown by `p` and
      payment `e` grown by `g`. */
  predicate BalanceLaw(b: real, P: real, p: real, e: real, g: real) {
    b == P * p - e * g
  }

  /** v = M x g: a deposit account `v` against the deposit `M`. */
  predicate SeriesLaw(v: real, M: real, x: real, g: real) {
    v == M * x * g
  }

  /** e g = P p: payment `e` grown by `g` retires principal `P` grown by `p`. */
  predicate LevelLaw(e: real, g: real, P: real, p: real) {
    e * g == P * p
  }

  /** a <= n p. */
  predicate AtMostTimes(a: real, n: real, p: real) {
    a <= n * p
  }

  lemma ScaleAtLeastOne(x: real, p: real)
    requires x >= 1.0 && p >= 1.0
    ensures x * p >= 1.0
  {
    assert x * p - p == (x - 1.0) * p;
  }

  lemma ScaleAboveOne(x: real, p: real)
    requires x > 1.0 && p >= 1.0
    ensures x * p > 1.0
  {
    assert x * p - p == (x - 1.0) * p;
  }

  lemma GeoStep(r: real, g0: real, p0: real, g: real, p: real)
    requires GeoLaw(r, g0, p0)
    requires g == g0 * (1.0 + r) + 1.0 && p == (1.0 + r) * p0
    ensures GeoLaw(r, g, p)
  {
    calc {
      r * g;
      (r * g0) * (1.0 + r) + r;
      (p0 - 1.0) * (1.0 + r) + r;
    }
  }

  lemma GrowAtLeast(g0: real, x: real, m: real)
    requires x >= 1.0 && g0 >= m >= 0.0
    ensures g0 * x + 1.0 >= m + 1.0
  {
    assert g0 * x - g0 == g0 * (x - 1.0);
  }

  lemma GrowAtMost(g0: real, p0: real, x: real, m: real, p: real)
    requires x >= 1.0 && m >= 0.0 && AtMostTimes(g0, m, p0) && p == x * p0 && p >= 1.0
    ensures AtMostTimes(g0 * x + 1.0, m + 1.0, p)
  {
    assert m * p0 * x - g0 * x == (m * p0 - g0) * x;
  }

  lemma BalanceStep(b: real, b0: real, P: real, e: real, p: real, p0: real, g: real, g0: real, x: real)
    requires b == b0 * x - e && BalanceLaw(b0, P, p0, e, g0)
    requires p == x * p0 && g == g0 * x + 1.0
    ensures BalanceLaw(b, P, p, e, g)
  {
    calc {
      b;
      (P * p0 - e * g0) * x - e;
      P * (x * p0) - e * (g0 * x + 1.0);
    }
  }

  lemma SeriesStep(v: real, v0: real, M: real, g: real, g0: real, x: real)
    requires v == (v0 + M) * x && SeriesLaw(v0, M, x, g0) && g == g0 * x + 1.0
    ensures SeriesLaw(v, M, x, g)
  {
    calc {
      v;
      (M * x * g0 + M) * x;
      M * x * (g0 * x + 1.0);
    }
  }

  lemma LevelPaymentAlgebra(P: real, r: real, g: real, geo: real, e: real)
    requires P >= 0.0 && r > 0.0 && g > 1.0 && GeoLaw(r, geo, g)
    requires e * (g - 1.0) == P * r * g
    ensures LevelLaw(e, geo, P, g)
    ensures e >= 0.0
  {
    assert (e * geo) * r == e * (g - 1.0);
    assert (e * geo) * r == (P * g) * r;
    assert P * r >= 0.0;
    assert P * r * g >= 0.0;
  }

  lemma LevelAtZeroRate(P: real, n: real, e: real)
    requires n > 0.0 && P >= 0.0 && e == P / n
    ensures LevelLaw(e, n, P, 1.0)
    ensures e >= 0.0
  {
  }

  lemma SettledAlgebra(b: real, P: real, p: real, e: real, g: real)
    requires BalanceLaw(b, P, p, e, g) && LevelLaw(e, g, P, p)
    ensures b == 0.0
  {
  }

  lemma RepaymentAlgebra(P: real, e: real, g: real, geo: real, n: real)
    requires e >= 0.0 && g >= 1.0 && AtMostTimes(geo, n, g) && LevelLaw(e, geo, P, g)
    ensures e * n >= P
  {
    assert e * (n * g) - e * geo == e * (n * g - geo);
    assert e * (n * g - geo) >= 0.0;
    assert (e * n - P) * g >= 0.0;
  }

  lemma ContributionAlgebra(v: real, M: real, x: real, geo: real, n: real)
    requires M >= 0.0 && x >= 1.0 && geo >= n >= 0.0 && SeriesLaw(v, M, x, geo)
    ensures v >= M * n
  {
    assert M * x - M == M * (x - 1.0);
    assert M * x * geo - M * geo == (M * x - M) * geo;
    assert M * geo - M * n == M * (geo - n);
  }

  lemma SeriesAtPositiveRate(v: real, M: real, r: real, g: real, geo: real)
    requires r > 0.0 && GeoLaw(r, geo, g) && SeriesLaw(v, M, 1.0 + r, geo)
    ensures v == M * ((g - 1.0) / r) * (1.0 + r)
  {
    assert (g - 1.0) / r == geo;
  }

  // ---------------------------------------------------------------------
  // Facts about powers and geometric sums.

  lemma {:induction false} PowAtLeastOne(x: real, n: nat)
    requires x >= 1.0
    ensures Pow(x, n) >= 1.0
  {
    if n > 0 {
      PowAtLeastOne(x, n - 1);
      ScaleAtLeastOne(x, Pow(x, n - 1));
    }
  }

  lemma {:induction false} PowAboveOne(x: real, n: nat)
    requires x > 1.0 && n > 0
    ensures Pow(x, n) > 1.0
  {
    PowAtLeastOne(x, n - 1);
    ScaleAboveOne(x, Pow(x, n - 1));
  }

  lemma {:induction false} PowOfOne(n: nat)
    ensures Pow(1.0, n) == 1.0
  {
    if n > 0 {
      PowOfOne(n - 1);
    }
  }

  lemma {:induction false} GeoOfOne(k: nat)
    ensures Geo(1.0, k) == k as real
  {
    if k > 0 {
      GeoOfOne(k - 1);
    }
  }

  /** r * (1 + (1+r) + ... + (1+r)^(k-1)) = (1+r)^k - 1. */
  lemma {:induction false} GeoClosedForm(r: real, k: nat)
    ensures GeoLaw(r, Geo(1.0 + r, k), Pow(1.0 + r, k))
  {
    if k > 0 {
      GeoClosedForm(r, k - 1);
      GeoStep(r, Geo(1.0 + r, k - 1), Pow(1.0 + r, k - 1), Geo(1.0 + r, k), Pow(1.0 + r, k));
    }
  }

  lemma {:induction false} GeoAtLeastCount(x: real, k: nat)
    requires x >= 1.0
    ensures Geo(x, k) >= k as real
  {
    if k > 0 {
      GeoAtLeastCount(x, k - 1);
      GrowAtLeast(Geo(x, k - 1), x, (k - 1) as real);
    }
  }

  lemma {:induction false} GeoAtMostCountTimesPow(x: real, k: nat)
    requires x >= 1.0
    ensures AtMostTimes(Geo(x, k), k as real, Pow(x, k))
  {
    if k > 0 {
      GeoAtMostCountTimesPow(x, k - 1);
      PowAtLeastOne(x, k);
      GrowAtMost(Geo(x, k - 1), Pow(x, k - 1), x, (k - 1) as real, Pow(x, k));
    }
  }

  // ---------------------------------------------------------------------
  // The formulas as written.

  /** `calculate_emi` before rounding: P r (1+r)^n / ((1+r)^n - 1). `None`
      stands for the ZeroDivisionError Python raises when the divisor is 0. */
  function EmiAsWritten(principal: nat, rate: nat, years: nat): Option<real> {
    Installment(principal as real, MonthlyRate(rate), Pow(1.0 + MonthlyRate(rate), Months(years)))
  }

  /** P r g / (g - 1) for the compound factor g = (1+r)^n. */
  function Installment(P: real, r: real, g: real): Option<real> {
    if g - 1.0 == 0.0 then None else Some(P * r * g / (g - 1.0))
  }

  /** `calculate_sip` before rounding: M ((1+r)^n - 1) / r (1 + r), `None`
      for the ZeroDivisionError raised when the monthly rate is 0. */
  function SipAsWritten(investment: nat, rate: nat, years: nat): Option<real> {
    if MonthlyRate(rate) == 0.0 then None
    else Some(investment as real * ((Pow(1.0 + MonthlyRate(rate), Months(years)) - 1.0) / MonthlyRate(rate))
              * (1.0 + MonthlyRate(rate)))
  }

  /** The EMI formula divides by zero exactly for a zero rate or a zero term. */
  lemma EmiAsWrittenFailsIff(principal: nat, rate: nat, years: nat)
    ensures EmiAsWritten(principal, rate, years).None? <==> rate == 0 || years == 0
  {
    if rate == 0 {
      PowOfOne(Months(years));
    } else if years > 0 {
      PowAboveOne(1.0 + MonthlyRate(rate), Months(years));
    }
  }

  /** The SIP formula divides by zero exactly for a zero rate. */
  lemma SipAsWrittenFailsIff(investment: nat, rate: nat, years: nat)
    ensures SipAsWritten(investment, rate, years).None? <==> rate == 0
  {
  }

  // ---------------------------------------------------------------------
  // The guarded formulas.

  /** EMI with the zero-rate case guarded: a zero rate repays the principal
      in equal parts; a zero term has no installment. */
  function Emi(principal: nat, rate: nat, years: nat): (r: Option<real>)
    ensures r.None? <==> years == 0
  {
    if years == 0 then None
    else if rate == 0 then Some(principal as real / Months(years) as real)
    else
      EmiAsWrittenFailsIff(principal, rate, years);
      EmiAsWritten(principal, rate, years)
  }

  /** SIP with the zero-rate case guarded: without interest the plan is worth
      what was paid in. */
  function Sip(investment: nat, rate: nat, years: nat): real {
    if rate == 0 then investment as real * Months(years) as real
    else SipAsWritten(investment, rate, years).value
  }

  /** Wherever the formulas as written produce a value, the guarded ones
      produce the same value. */
  lemma GuardedAgreesWhereDefined(amount: nat, rate: nat, years: nat)
    ensures EmiAsWritten(amount, rate, years).Some? ==> Emi(amount, rate, years) == EmiAsWritten(amount, rate, years)
    ensures SipAsWritten(amount, rate, years).Some? ==> Sip(amount, rate, years) == SipAsWritten(amount, rate, years).value
  {
    EmiAsWrittenFailsIff(amount, rate, years);
  }

  // ---------------------------------------------------------------------
  // EMI against the month-by-month loan balance.

  /** Loan balance after `k` months: each month the balance grows by the
      factor `growth` (one plus the monthly rate) and one payment is
      subtracted. */
  function Balance(principal: real, growth: real, payment: real, k: nat): real {
    if k == 0 then principal else Balance(principal, growth, payment, k - 1) * growth - payment
  }

  lemma {:induction false} BalanceClosedForm(principal: real, growth: real, payment: real, k: nat)
    ensures BalanceLaw(Balance(principal, growth, payment, k), principal, Pow(growth, k), payment, Geo(growth, k))
  {
    if k > 0 {
      BalanceClosedForm(principal, growth, payment, k - 1);
      BalanceStep(Balance(principal, growth, payment, k), Balance(principal, growth, payment, k - 1),
                  principal, payment, Pow(growth, k), Pow(growth, k - 1), Geo(growth, k), Geo(growth, k - 1), growth);
    }
  }

  /** The installment is the level payment: n installments, each compounded
      to the end of the term, are worth the compounded principal. */
  lemma EmiIsLevelPayment(principal: nat, rate: nat, years: nat)
    requires years > 0
    ensures LevelLaw(Emi(principal, rate, years).value, Geo(1.0 + MonthlyRate(rate), Months(years)),
                     principal as real, Pow(1.0 + MonthlyRate(rate), Months(years)))
    ensures Emi(principal, rate, years).value >= 0.0
  {
    if rate == 0 {
      PowOfOne(Months(years));
      GeoOfOne(Months(years));
      LevelAtZeroRate(principal as real, Months(years) as real, Emi(principal, rate, years).value);
    } else {
      PowAboveOne(1.0 + MonthlyRate(rate), Months(years));
      GeoClosedForm(MonthlyRate(rate), Months(years));
      EmiAtPositiveRate(principal, rate, years);
      LevelPaymentAlgebra(principal as real, MonthlyRate(rate), Pow(1.0 + MonthlyRate(rate), Months(years)),
                          Geo(1.0 + MonthlyRate(rate), Months(years)), Emi(principal, rate, years).value);
    }
  }

  lemma EmiAtPositiveRate(principal: nat, rate: nat, years: nat)
    requires years > 0 && rate > 0
    ensures Emi(principal, rate, years).value * (Pow(1.0 + MonthlyRate(rate), Months(years)) - 1.0)
            == principal as real * MonthlyRate(rate) * Pow(1.0 + MonthlyRate(rate), Months(years))
  {
    PowAboveOne(1.0 + MonthlyRate(rate), Months(years));
    InstallmentTimesDivisor(principal as real, MonthlyRate(rate), Pow(1.0 + MonthlyRate(rate), Months(years)));
  }

  lemma InstallmentTimesDivisor(P: real, r: real, g: real)
    requires g - 1.0 != 0.0
    ensures Installment(P, r, g).Some?
    ensures Installment(P, r, g).value * (g - 1.0) == P * r * g
  {
  }

  /** Paying the EMI every month for the whole term leaves nothing owed. */
  lemma EmiAmortizes(principal: nat, rate: nat, years: nat)
    requires years > 0
    ensures Balance(principal as real, 1.0 + MonthlyRate(rate), Emi(principal, rate, years).value, Months(years)) == 0.0
  {
    EmiIsLevelPayment(principal, rate, years);
    BalanceClosedForm(principal as real, 1.0 + MonthlyRate(rate), Emi(principal, rate, years).value, Months(years));
    SettledAlgebra(Balance(principal as real, 1.0 + MonthlyRate(rate), Emi(principal, rate, years).value, Months(years)),
                   principal as real, Pow(1.0 + MonthlyRate(rate), Months(years)),
                   Emi(principal, rate, years).value, Geo(1.0 + MonthlyRate(rate), Months(years)));
  }

  /** Total repayment is at least the principal borrowed. */
  lemma EmiRepaysPrincipal(principal: nat, rate: nat, years: nat)
    requires years > 0
    ensures Emi(principal, rate, years).value * (Months(years) as real) >= principal as real
  {
    EmiIsLevelPayment(principal, rate, years);
    LevelPaymentCoversPrincipal(principal as real, Emi(principal, rate, years).value, 1.0 + MonthlyRate(rate), Months(years));
  }

  /** A level payment that retires `P` over `n` periods at growth `x >= 1`
      adds up to at least `P`. */
  lemma LevelPaymentCoversPrincipal(P: real, e: real, x: real, n: nat)
    requires x >= 1.0 && e >= 0.0 && LevelLaw(e, Geo(x, n), P, Pow(x, n))
    ensures e * (n as real) >= P
  {
    GeoAtMostCountTimesPow(x, n);
    PowAtLeastOne(x, n);
    RepaymentAlgebra(P, e, Pow(x, n), Geo(x, n), n as real);
  }

  // ---------------------------------------------------------------------
  // SIP against the month-by-month deposit account.

  /** Value after `k` months of a plan that deposits `investment` at the
      start of every month, the whole account then growing by the factor
      `growth` (one plus the monthly rate). */
  function SipSeries(investment: real, growth: real, k: nat): real {
    if k == 0 then 0.0 else (SipSeries(investment, growth, k - 1) + investment) * growth
  }

  lemma {:induction false} SipSeriesClosedForm(investment: real, growth: real, k: nat)
    ensures SeriesLaw(SipSeries(investment, growth, k), investment, growth, Geo(growth, k))
  {
    if k > 0 {
      SipSeriesClosedForm(investment, growth, k - 1);
      SeriesStep(SipSeries(investment, growth, k), SipSeries(investment, growth, k - 1), investment,
                 Geo(growth, k), Geo(growth, k - 1), growth);
    }
  }

  /** The SIP value is the value of the month-by-month deposit account. */
  lemma SipMatchesSeries(investment: nat, rate: nat, years: nat)
    ensures Sip(investment, rate, years) == SipSeries(investment as real, 1.0 + MonthlyRate(rate), Months(years))
  {
    SipSeriesClosedForm(investment as real, 1.0 + MonthlyRate(rate), Months(years));
    if rate == 0 {
      GeoOfOne(Months(years));
    } else {
      GeoClosedForm(MonthlyRate(rate), Months(years));
      SeriesAtPositiveRate(SipSeries(investment as real, 1.0 + MonthlyRate(rate), Months(years)), investment as real,
                           MonthlyRate(rate), Pow(1.0 + MonthlyRate(rate), Months(years)),
                           Geo(1.0 + MonthlyRate(rate), Months(years)));
    }
  }

  /** A plan is never worth less than what was paid into it. */
  lemma SipCoversContributions(investment: nat, rate: nat, years: nat)
    ensures Sip(investment, rate, years) >= investment as real * Months(years) as real
  {
    SipMatchesSeries(investment, rate, years);
    SipSeriesClosedForm(investment as real, 1.0 + MonthlyRate(rate), Months(years));
    GeoAtLeastCount(1.0 + MonthlyRate(rate), Months(years));
    ContributionAlgebra(SipSeries(investment as real, 1.0 + MonthlyRate(rate), Months(years)), investment as real,
                        1.0 + MonthlyRate(rate), Geo(1.0 + MonthlyRate(rate), Months(years)), Months(years) as real);
  }
}
