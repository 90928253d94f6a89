/**
 * The loan arithmetic behind calculateMonthlyPayment and
 * calculateAmortization (src/data/va-loan.ts): the month-by-month balance
 * recurrence, its closed form, and the level (annuity) payment that brings
 * the balance to exactly 0 after the last month.
 */
module Annuity {
  import opened JsNumber

  /**
   * The level payment that retires `principal` in n monthly payments at
   * monthly rate r: principal / n without interest, otherwise the annuity
   * principal * r * (1 + r)^n / ((1 + r)^n - 1).
   */
  function LevelPayment(principal: real, r: real, n: nat): real
    requires n > 0 && (r == 0.0 || Pow(1.0 + r, n) != 1.0)
  {
    if r == 0.0 then principal / n as real
    else Annuity(principal, r, Pow(1.0 + r, n))
  }

  /** The annuity payment principal * r * Q / (Q - 1) for the compound factor Q = (1 + r)^n. */
  function Annuity(principal: real, r: real, bigQ: real): real
    requires bigQ != 1.0
  {
    principal * (r * bigQ) / (bigQ - 1.0)
  }

  /** One month of the loan: the month's interest is added and the payment subtracted. */
  function NextBalance(b: real, r: real, payment: real): real
  {
    b - (payment - b * r)
  }

  /** The running balance after k payments of `payment` at monthly rate r. */
  function Balance(principal: real, r: real, payment: real, k: nat): real
  {
    if k == 0 then principal else NextBalance(Balance(principal, r, payment, k - 1), r, payment)
  }

  /** One more payment moves the balance on by one month. */
  lemma BalanceNext(principal: real, r: real, payment: real, k: nat)
    ensures Balance(principal, r, payment, k + 1) == NextBalance(Balance(principal, r, payment, k), r, payment)
  {
  }

  /** 1 + q + ... + q^(k-1) */
  function Geometric(q: real, k: nat): real
  {
    if k == 0 then 0.0 else Geometric(q, k - 1) * q + 1.0
  }

  lemma GeometricStep(g: real, q: real, p: real)
    requires g * (q - 1.0) == p - 1.0
    ensures (g * q + 1.0) * (q - 1.0) == q * p - 1.0
  {
    assert (g * q + 1.0) * (q - 1.0) == q * (g * (q - 1.0)) + q - 1.0;
  }

  lemma {:induction false} GeometricClosedForm(q: real, k: nat)
    ensures Geometric(q, k) * (q - 1.0) == Pow(q, k) - 1.0
  {
    if k > 0 {
      GeometricClosedForm(q, k - 1);
      GeometricStep(Geometric(q, k - 1), q, Pow(q, k - 1));
    }
  }

  /** One month at rate r scales the balance by q = 1 + r and takes off the payment. */
  lemma NextBalanceScaled(b: real, r: real, q: real, payment: real)
    requires q == 1.0 + r
    ensures NextBalance(b, r, payment) == b * q - payment
  {
  }

  lemma Regroup(principal: real, payment: real, q: real, p: real, g: real)
    ensures (principal * p - payment * g) * q - payment == principal * (q * p) - payment * (g * q + 1.0)
  {
  }

  /** The closed form carries over from k - 1 months to k. */
  lemma ClosedFormStep(principal: real, r: real, q: real, payment: real, k: nat)
    requires q == 1.0 + r && k > 0
    requires Balance(principal, r, payment, k - 1) == principal * Pow(q, k - 1) - payment * Geometric(q, k - 1)
    ensures Balance(principal, r, payment, k) == principal * Pow(q, k) - payment * Geometric(q, k)
  {
    var b := Balance(principal, r, payment, k - 1);
    var p := Pow(q, k - 1);
    var g := Geometric(q, k - 1);
    NextBalanceScaled(b, r, q, payment);
    Regroup(principal, payment, q, p, g);
    assert Balance(principal, r, payment, k) == principal * (q * p) - payment * (g * q + 1.0);
  }

  /**
   * After k months the balance is the compounded principal less the
   * compounded payments: P * q^k - payment * (1 + q + ... + q^(k-1)), q = 1 + r.
   */
  lemma {:induction false} BalanceClosedForm(principal: real, r: real, q: real, payment: real, k: nat)
    requires q == 1.0 + r
    ensures Balance(principal, r, payment, k) == principal * Pow(q, k) - payment * Geometric(q, k)
  {
    if k > 0 {
      BalanceClosedForm(principal, r, q, payment, k - 1);
      ClosedFormStep(principal, r, q, payment, k);
    }
  }

  /** With Q = q^n and g = 1 + q + ... + q^(n-1), the annuity payment exactly retires P * Q. */
  lemma AnnuityAlgebra(principal: real, r: real, q: real, bigQ: real, g: real)
    requires q == 1.0 + r && r != 0.0 && bigQ != 1.0 && g * (q - 1.0) == bigQ - 1.0
    ensures principal * bigQ - Annuity(principal, r, bigQ) * g == 0.0
  {
    var payment := Annuity(principal, r, bigQ);
    assert g * r == bigQ - 1.0;
    assert payment * (bigQ - 1.0) == principal * (r * bigQ);
    assert (payment * g - principal * bigQ) * r == payment * (g * r) - principal * bigQ * r;
    assert (payment * g - principal * bigQ) * r == 0.0;
  }

  /** The level payment retires the loan: the balance after the last of the n payments is 0. */
  lemma LevelPaymentRetiresLoan(principal: real, r: real, n: nat)
    requires n > 0 && (r == 0.0 || Pow(1.0 + r, n) != 1.0)
    ensures Balance(principal, r, LevelPayment(principal, r, n), n) == 0.0
  {
    if r == 0.0 {
      EvenSplitRetiresLoan(principal, n);
    } else {
      AnnuityRetiresLoan(principal, r, n);
    }
  }

  /** Without interest, n payments of principal / n leave nothing owed. */
  lemma EvenSplitRetiresLoan(principal: real, n: nat)
    requires n > 0
    ensures Balance(principal, 0.0, principal / n as real, n) == 0.0
  {
    var pay := principal / n as real;
    BalanceClosedForm(principal, 0.0, 1.0, pay, n);
    OneToTheN(n);
    GeometricOfOne(n);
    assert pay * n as real == principal;
  }

  /** With interest, n annuity payments leave nothing owed. */
  lemma AnnuityRetiresLoan(principal: real, r: real, n: nat)
    requires r != 0.0 && Pow(1.0 + r, n) != 1.0
    ensures Balance(principal, r, Annuity(principal, r, Pow(1.0 + r, n)), n) == 0.0
  {
    GeometricClosedForm(1.0 + r, n);
    AnnuityAlgebra(principal, r, 1.0 + r, Pow(1.0 + r, n), Geometric(1.0 + r, n));
    BalanceClosedForm(principal, r, 1.0 + r, Annuity(principal, r, Pow(1.0 + r, n)), n);
  }

  lemma {:induction false} OneToTheN(n: nat)
    ensures Pow(1.0, n) == 1.0
  {
    if n > 0 {
      OneToTheN(n - 1);
    }
  }

  lemma {:induction false} GeometricOfOne(n: nat)
    ensures Geometric(1.0, n) == n as real
  {
    if n > 0 {
      GeometricOfOne(n - 1);
    }
  }

  /** Geometric(q, k + 1) == Geometric(q, k) + q^k */
  lemma {:induction false} GeometricPowSum(q: real, k: nat)
    ensures Geometric(q, k + 1) == Geometric(q, k) + Pow(q, k)
  {
    if k > 0 {
      GeometricPowSum(q, k - 1);
      assert Pow(q, k) == Pow(q, k - 1) * q;
    }
  }

}
