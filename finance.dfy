/**
 * The arithmetic of the calculator's submit handler, over exact reals.
 *
 * Monthly rate, number of payments, the annuity ("repayment") payment and
 * the interest-only payment, and the figures the component stores after a
 * successful submit.  Beside the formulas sits an independent reference:
 * `Balance`, the outstanding loan after k months in which interest is
 * charged and then one payment is made.  The lemmas connect the two: the
 * annuity payment is exactly the constant payment that brings the balance
 * to zero after the last month, and the interest-only payment keeps the
 * balance at the principal, which is repaid in one sum at the end.
 */
module Finance {
  import opened Wrappers

  /** The two values of the radio group: an amortising loan or interest only. */
  datatype MortgageType = Repayment | Interest

  /**
   * What the component stores after a successful submit.  `NonFinite`
   * stands for the NaN or Infinity figures that floating-point arithmetic
   * produces when the annuity formula divides by zero.
   */
  datatype CalculationResult =
    | Figures(monthlyPayment: real, totalRepayment: real)
    | NonFinite

  /** x raised to a natural power. */
  function Pow(x: real, n: nat): (r: real)
  {
    if n == 0 then 1.0 else x * Pow(x, n - 1)
  }

  /** Annual percentage rate to monthly fraction. */
  function MonthlyRate(annualPercent: real): (r: real)
  {
    annualPercent / 100.0 / 12.0
  }

  /** A count of months that is a whole, non-negative number. */
  predicate IsWholeCount(months: real)
  {
    0.0 <= months && months.Floor as real == months
  }

  function WholeCount(months: real): (n: nat)
    requires IsWholeCount(months)
    ensures n as real == months
  {
    months.Floor
  }

  /**
   * The annuity payment P·r·(1+r)^n / ((1+r)^n − 1); `None` when the
   * divisor is zero, where floating point would give NaN or Infinity.
   */
  function AnnuityPayment(principal: real, rate: real, n: nat): (payment: Option<real>)
    // defined exactly when the divisor is non-zero ...
    ensures payment.Some? <==> Pow(1.0 + rate, n) != 1.0
    // ... and then the payment times the divisor is the numerator
    ensures payment.Some? ==>
      payment.value * (Pow(1.0 + rate, n) - 1.0) == principal * rate * Pow(1.0 + rate, n)
  {
    var growth := Pow(1.0 + rate, n);
    if growth - 1.0 == 0.0 then None
    else Some(principal * rate * growth / (growth - 1.0))
  }

  /**
   * Outstanding balance after k months, each month charging interest at
   * `rate` on the balance and then receiving one `payment`.
   */
  function Balance(principal: real, rate: real, payment: real, k: nat): (b: real)
  {
    if k == 0 then principal
    else Balance(principal, rate, payment, k - 1) * (1.0 + rate) - payment
  }

  /** The figures of one submit; `years * 12` is the number of payments. */
  function Calculate(principal: real, years: real, annualPercent: real, mortgageType: MortgageType): (r: CalculationResult)
    requires mortgageType == Repayment ==> IsWholeCount(years * 12.0)
    // Interest only: the monthly payment is the interest on the principal, and
    // the total adds the principal to the payments made over the term.
    ensures mortgageType == Interest ==>
      r.Figures? &&
      r.monthlyPayment == principal * MonthlyRate(annualPercent) &&
      r.totalRepayment == principal + r.monthlyPayment * (years * 12.0)
    // Repayment: the figures are non-finite exactly when the divisor is zero ...
    ensures mortgageType == Repayment ==>
      (r.NonFinite? <==> Pow(1.0 + MonthlyRate(annualPercent), WholeCount(years * 12.0)) == 1.0)
    // ... otherwise the monthly payment solves the annuity equation
    // m·((1+r)^n − 1) = P·r·(1+r)^n ...
    ensures mortgageType == Repayment && r.Figures? ==>
      r.monthlyPayment * (Pow(1.0 + MonthlyRate(annualPercent), WholeCount(years * 12.0)) - 1.0)
        == principal * MonthlyRate(annualPercent) * Pow(1.0 + MonthlyRate(annualPercent), WholeCount(years * 12.0))
    // ... and the total is the monthly payment times the number of payments.
    ensures mortgageType == Repayment && r.Figures? ==>
      r.totalRepayment == r.monthlyPayment * (years * 12.0)
  {
    var rate := MonthlyRate(annualPercent);
    var numberOfPayments := years * 12.0;
    match mortgageType
    case Interest =>
      Figures(principal * rate, principal + principal * rate * numberOfPayments)
    case Repayment =>
      match AnnuityPayment(principal, rate, WholeCount(numberOfPayments))
      case None => NonFinite
      case Some(m) => Figures(m, m * numberOfPayments)
  }

  /** Repayment figures pay the loan off exactly in the last month. */
  lemma RepaymentClearsLoan(principal: real, years: real, annualPercent: real)
    requires IsWholeCount(years * 12.0)
    ensures var r := Calculate(principal, years, annualPercent, Repayment);
      r.Figures? ==>
        Balance(principal, MonthlyRate(annualPercent), r.monthlyPayment, WholeCount(years * 12.0)) == 0.0
  {
    var rate := MonthlyRate(annualPercent);
    var n := WholeCount(years * 12.0);
    match AnnuityPayment(principal, rate, n)
    case None =>
    case Some(m) =>
      AnnuityClearsLoan(principal, rate, n, m);
  }

  /**
   * Repayment figures exist for every positive rate and term, and never at
   * a zero rate or a zero term, where the source divides by zero.
   */
  lemma RepaymentDefinedness(principal: real, years: real, annualPercent: real)
    requires IsWholeCount(years * 12.0)
    ensures annualPercent > 0.0 && years > 0.0 ==> Calculate(principal, years, annualPercent, Repayment).Figures?
    ensures annualPercent == 0.0 || years == 0.0 ==> Calculate(principal, years, annualPercent, Repayment).NonFinite?
  {
    AnnuityDefinedness(principal, MonthlyRate(annualPercent), WholeCount(years * 12.0));
  }

  lemma {:induction false} PowOfOne(n: nat)
    ensures Pow(1.0, n) == 1.0
  {
    if n > 0 {
      PowOfOne(n - 1);
    }
  }

  lemma {:induction false} PowAtLeastOne(x: real, n: nat)
    requires x >= 1.0
    ensures Pow(x, n) >= 1.0
  {
    if n > 0 {
      PowAtLeastOne(x, n - 1);
      var p := Pow(x, n - 1);
      assert x * p - p == (x - 1.0) * p;
      assert (x - 1.0) * p >= 0.0;
    }
  }

  lemma PowAboveOne(x: real, n: nat)
    requires x > 1.0 && n > 0
    ensures Pow(x, n) > 1.0
  {
    PowAtLeastOne(x, n - 1);
    var p := Pow(x, n - 1);
    assert x * p - p == (x - 1.0) * p;
    assert (x - 1.0) * p > 0.0;
  }

  /**
   * The annuity formula is defined for every positive rate and term, and
   * undefined (a division by zero) when the rate or the term is zero.
   */
  lemma AnnuityDefinedness(principal: real, rate: real, n: nat)
    ensures rate > 0.0 && n > 0 ==> AnnuityPayment(principal, rate, n).Some?
    ensures rate == 0.0 || n == 0 ==> AnnuityPayment(principal, rate, n).None?
  {
    if rate > 0.0 && n > 0 {
      PowAboveOne(1.0 + rate, n);
    }
    if rate == 0.0 {
      PowOfOne(n);
    }
  }

  /** Closed form of the balance, multiplied through by the rate. */
  lemma {:induction false} BalanceClosedForm(principal: real, rate: real, payment: real, k: nat)
    ensures rate * Balance(principal, rate, payment, k)
         == rate * principal * Pow(1.0 + rate, k) - payment * (Pow(1.0 + rate, k) - 1.0)
  {
    if k > 0 {
      BalanceClosedForm(principal, rate, payment, k - 1);
      BalanceClosedFormStep(principal, rate, payment, k);
    }
  }

  lemma BalanceClosedFormStep(principal: real, rate: real, payment: real, k: nat)
    requires k > 0
    requires rate * Balance(principal, rate, payment, k - 1)
          == rate * principal * Pow(1.0 + rate, k - 1) - payment * (Pow(1.0 + rate, k - 1) - 1.0)
    ensures rate * Balance(principal, rate, payment, k)
         == rate * principal * Pow(1.0 + rate, k) - payment * (Pow(1.0 + rate, k) - 1.0)
  {
    BalanceStep(rate, principal, payment,
      Balance(principal, rate, payment, k - 1), Pow(1.0 + rate, k - 1),
      Balance(principal, rate, payment, k), Pow(1.0 + rate, k));
  }

  /** One month of the closed form, as pure algebra: b and g step to b' and g'. */
  lemma BalanceStep(rate: real, principal: real, payment: real, b: real, g: real, b': real, g': real)
    requires rate * b == rate * principal * g - payment * (g - 1.0)
    requires b' == b * (1.0 + rate) - payment && g' == (1.0 + rate) * g
    ensures rate * b' == rate * principal * g' - payment * (g' - 1.0)
  {
    var q := 1.0 + rate;
    assert (rate * b) * q == (rate * principal * g - payment * (g - 1.0)) * q;
    assert rate * (b * q - payment) == (rate * b) * q - rate * payment;
  }

  /**
   * A payment that solves the annuity equation m·((1+r)^n − 1) = P·r·(1+r)^n,
   * paid every month, leaves nothing owing after n months.
   */
  lemma AnnuityClearsLoan(principal: real, rate: real, n: nat, m: real)
    requires Pow(1.0 + rate, n) != 1.0
    requires m * (Pow(1.0 + rate, n) - 1.0) == principal * rate * Pow(1.0 + rate, n)
    ensures Balance(principal, rate, m, n) == 0.0
  {
    if rate == 0.0 {
      PowOfOne(n);
      assert false;
    }
    BalanceClosedForm(principal, rate, m, n);
    ClearsAlgebra(rate, principal, m, Pow(1.0 + rate, n), Balance(principal, rate, m, n));
  }

  /**
   * Conversely, a constant payment that leaves nothing owing after n months
   * is the annuity payment: the formula is the only such payment.
   */
  lemma ClearingPaymentIsAnnuity(principal: real, rate: real, n: nat, m: real)
    requires Pow(1.0 + rate, n) != 1.0
    requires Balance(principal, rate, m, n) == 0.0
    ensures AnnuityPayment(principal, rate, n) == Some(m)
  {
    BalanceClosedForm(principal, rate, m, n);
    var g := Pow(1.0 + rate, n);
    var p := AnnuityPayment(principal, rate, n);
    assert p.Some?;
    SameQuotient(g - 1.0, principal * rate * g, p.value, m);
  }

  /** Two solutions of x·d = c with d non-zero are equal. */
  lemma SameQuotient(d: real, c: real, x: real, y: real)
    requires d != 0.0
    requires x * d == c && y * d == c
    ensures x == y
  {
    assert (x - y) * d == 0.0;
  }

  lemma ClearsAlgebra(rate: real, principal: real, m: real, g: real, b: real)
    requires rate != 0.0
    requires m * (g - 1.0) == principal * rate * g
    requires rate * b == rate * principal * g - m * (g - 1.0)
    ensures b == 0.0
  {
    assert rate * b == 0.0;
  }

  /** Bernoulli-style bound: (1+r)^n − 1 ≤ r·n·(1+r)^n for r ≥ 0. */
  lemma {:induction false} GrowthBound(rate: real, n: nat)
    requires rate >= 0.0
    ensures Pow(1.0 + rate, n) - 1.0 <= rate * (n as real) * Pow(1.0 + rate, n)
  {
    if n > 0 {
      GrowthBound(rate, n - 1);
      GrowthBoundStep(rate, n);
    }
  }

  lemma GrowthBoundStep(rate: real, n: nat)
    requires rate >= 0.0 && n > 0
    requires Pow(1.0 + rate, n - 1) - 1.0 <= rate * ((n - 1) as real) * Pow(1.0 + rate, n - 1)
    ensures Pow(1.0 + rate, n) - 1.0 <= rate * (n as real) * Pow(1.0 + rate, n)
  {
    PowAtLeastOne(1.0 + rate, n);
    GrowthStep(rate, (n - 1) as real, Pow(1.0 + rate, n - 1), Pow(1.0 + rate, n));
  }

  lemma GrowthStep(rate: real, k: real, g: real, g': real)
    requires rate >= 0.0 && k >= 0.0 && g' >= 1.0
    requires g' == (1.0 + rate) * g
    requires g - 1.0 <= rate * k * g
    ensures g' - 1.0 <= rate * (k + 1.0) * g'
  {
    assert g' - 1.0 == (1.0 + rate) * (g - 1.0) + rate;
    ScaleBound(1.0 + rate, g - 1.0, rate * k * g);
    assert (1.0 + rate) * (rate * k * g) == rate * k * g';
    assert rate * (g' - 1.0) >= 0.0;
  }

  lemma ScaleBound(c: real, x: real, y: real)
    requires c >= 0.0 && x <= y
    ensures c * x <= c * y
  {
    assert c * y - c * x == c * (y - x);
  }

  /**
   * For a non-negative principal and a positive rate, the annuity payment
   * is at least the interest-only payment, and the payments over the term
   * add up to at least the principal.
   */
  lemma AnnuityCoversPrincipal(principal: real, rate: real, n: nat, m: real)
    requires principal >= 0.0 && rate > 0.0
    requires Pow(1.0 + rate, n) != 1.0
    requires m * (Pow(1.0 + rate, n) - 1.0) == principal * rate * Pow(1.0 + rate, n)
    ensures m >= principal * rate
    ensures m * (n as real) >= principal
  {
    PowAtLeastOne(1.0 + rate, n);
    GrowthBound(rate, n);
    CoversAlgebra(principal, rate, n as real, m, Pow(1.0 + rate, n));
  }

  lemma CoversAlgebra(principal: real, rate: real, n: real, m: real, g: real)
    requires principal >= 0.0 && rate > 0.0 && n >= 0.0 && g > 1.0
    requires m * (g - 1.0) == principal * rate * g
    requires g - 1.0 <= rate * n * g
    ensures m >= principal * rate
    ensures m * n >= principal
  {
    var d := g - 1.0;
    assert (m - principal * rate) * d == principal * rate;
    assert principal * d <= principal * (rate * n * g);
    assert (m * n - principal) * d == principal * (rate * n * g) - principal * d;
  }

  /** Paying only the interest each month leaves the principal outstanding. */
  lemma {:induction false} InterestOnlyKeepsBalance(principal: real, rate: real, k: nat)
    ensures Balance(principal, rate, principal * rate, k) == principal
  {
    if k > 0 {
      InterestOnlyKeepsBalance(principal, rate, k - 1);
    }
  }

  /**
   * In interest-only mode the total is the monthly payments plus the
   * balance still owed at the end of a whole number of months.
   */
  lemma InterestOnlyRepaysBalloon(principal: real, years: real, annualPercent: real)
    requires IsWholeCount(years * 12.0)
    ensures var r := Calculate(principal, years, annualPercent, Interest);
      var n := WholeCount(years * 12.0);
      r.totalRepayment
        == r.monthlyPayment * (n as real) + Balance(principal, MonthlyRate(annualPercent), r.monthlyPayment, n)
  {
    var rate := MonthlyRate(annualPercent);
    var n := WholeCount(years * 12.0);
    InterestOnlyKeepsBalance(principal, rate, n);
    var r := Calculate(principal, years, annualPercent, Interest);
    assert r.monthlyPayment == principal * rate;
    assert r.totalRepayment == principal + r.monthlyPayment * (n as real);
  }

  /** A repayment mortgage costs at least what was borrowed. */
  lemma RepaymentTotalCoversPrincipal(principal: real, years: real, annualPercent: real)
    requires IsWholeCount(years * 12.0)
    requires principal >= 0.0 && annualPercent > 0.0
    ensures var r := Calculate(principal, years, annualPercent, Repayment);
      r.Figures? ==>
        r.totalRepayment >= principal &&
        r.monthlyPayment >= principal * MonthlyRate(annualPercent)
  {
    var rate := MonthlyRate(annualPercent);
    var n := WholeCount(years * 12.0);
    match AnnuityPayment(principal, rate, n)
    case None =>
    case Some(m) =>
      AnnuityCoversPrincipal(principal, rate, n, m);
  }
}
