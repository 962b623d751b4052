/**
 * The monthly recurrences shared by the four calculators, over exact reals.
 *
 * Growth:       b := b * (1 + r) + c        (investment and savings balances)
 * Amortization: b := b - (pmt - b * r)      (loan and mortgage balances)
 *
 * The amortization step is the growth step with contribution -pmt, and the
 * fixed-rate annuity payment is exactly the payment that brings the balance
 * to zero after n months.
 */
module Growth {

  /** `annualPercent / 100 / 12`: twelve months at the rate make the annual rate. */
  function MonthlyRate(annualPercent: real): (r: real)
    ensures r * 12.0 * 100.0 == annualPercent
  {
    annualPercent / 100.0 / 12.0
  }

  lemma MonthlyRatePositive(annualPercent: real)
    ensures MonthlyRate(annualPercent) > 0.0 <==> annualPercent > 0.0
  {
  }

  /** `Math.pow(x, n)` for a natural exponent. */
  function Pow(x: real, n: nat): real {
    if n == 0 then 1.0 else x * Pow(x, n - 1)
  }

  lemma {:induction false} PowAboveOne(x: real, n: nat)
    requires x > 1.0 && n > 0
    ensures Pow(x, n) > 1.0
  {
    if n > 1 {
      PowAboveOne(x, n - 1);
      var p := Pow(x, n - 1);
      assert x * p > x * 1.0 by {
        assert x * (p - 1.0) > 0.0;
      }
    }
  }

  /** The balance after n monthly steps b := b * (1 + r) + c, from b0. */
  function Grow(b0: real, r: real, c: real, n: nat): real {
    if n == 0 then b0 else Grow(b0, r, c, n - 1) * (1.0 + r) + c
  }

  /** One monthly step of the growth recurrence on the running balance. */
  method GrowStep(ghost b0: real, r: real, c: real, ghost n: nat, balance0: real) returns (balance: real)
    requires balance0 == Grow(b0, r, c, n)
    ensures balance == Grow(b0, r, c, n + 1)
  {
    balance := balance0 * (1.0 + r) + c;
  }

  /** At rate 0 the balance is the start plus n contributions. */
  lemma {:induction false} GrowAtZeroRate(b0: real, c: real, n: nat)
    ensures Grow(b0, 0.0, c, n) == b0 + (n as real) * c
  {
    if n > 0 {
      GrowAtZeroRate(b0, c, n - 1);
      assert ((n - 1) as real) * c + c == (n as real) * c;
    }
  }

  /** Running m steps and then n more is running m + n steps. */
  lemma {:induction false} GrowCompose(b0: real, r: real, c: real, m: nat, n: nat)
    ensures Grow(Grow(b0, r, c, m), r, c, n) == Grow(b0, r, c, m + n)
  {
    if n > 0 {
      GrowCompose(b0, r, c, m, n - 1);
    }
  }

  /**
   * The closed form of the recurrence, multiplied through by r:
   * r * b_n == r * b0 * (1+r)^n + c * ((1+r)^n - 1).
   */
  lemma {:induction false} GrowClosedForm(b0: real, r: real, c: real, n: nat)
    ensures r * Grow(b0, r, c, n) == r * b0 * Pow(1.0 + r, n) + c * (Pow(1.0 + r, n) - 1.0)
  {
    if n == 0 {
      ClosedFormBase(b0, r, c, Grow(b0, r, c, 0), Pow(1.0 + r, 0));
    } else {
      GrowClosedForm(b0, r, c, n - 1);
      var g, x, g', x' := Grow(b0, r, c, n - 1), Pow(1.0 + r, n - 1), Grow(b0, r, c, n), Pow(1.0 + r, n);
      assert g' == g * (1.0 + r) + c;
      assert x' == (1.0 + r) * x;
      ClosedFormStep(b0, r, c, g, x, g', x');
    }
  }

  /** The closed form at n = 0, with the unknowns named. */
  lemma ClosedFormBase(b0: real, r: real, c: real, g: real, x: real)
    requires g == b0 && x == 1.0
    ensures r * g == r * b0 * x + c * (x - 1.0)
  {
  }

  /** The algebra of one step of the closed form, with the unknowns named. */
  lemma ClosedFormStep(b0: real, r: real, c: real, g: real, x: real, g': real, x': real)
    requires r * g == r * b0 * x + c * (x - 1.0)
    requires g' == g * (1.0 + r) + c && x' == (1.0 + r) * x
    ensures r * g' == r * b0 * x' + c * (x' - 1.0)
  {
    calc {
      r * (g * (1.0 + r) + c);
      (r * g) * (1.0 + r) + r * c;
      (r * b0 * x + c * (x - 1.0)) * (1.0 + r) + r * c;
    }
  }

  /** The loan balance after k months paying pmt at monthly rate r. */
  function AmortBalance(p: real, r: real, pmt: real, k: nat): real {
    if k == 0 then p
    else
      var b := AmortBalance(p, r, pmt, k - 1);
      b - (pmt - b * r)
  }

  /** The interest accrued over months 1..k: the sum of balance * r before each payment. */
  function CumInterest(p: real, r: real, pmt: real, k: nat): real {
    if k == 0 then 0.0 else CumInterest(p, r, pmt, k - 1) + AmortBalance(p, r, pmt, k - 1) * r
  }

  /** One more payment: the balance loses the payment less the interest, and the interest accrues. */
  lemma AmortStep(p: real, r: real, pmt: real, k: nat)
    ensures AmortBalance(p, r, pmt, k + 1) == AmortBalance(p, r, pmt, k) - (pmt - AmortBalance(p, r, pmt, k) * r)
    ensures CumInterest(p, r, pmt, k + 1) == CumInterest(p, r, pmt, k) + AmortBalance(p, r, pmt, k) * r
  {
  }

  /** An amortization step is a growth step with contribution -pmt. */
  lemma {:induction false} AmortIsGrowth(p: real, r: real, pmt: real, k: nat)
    ensures AmortBalance(p, r, pmt, k) == Grow(p, r, -pmt, k)
  {
    if k > 0 {
      AmortIsGrowth(p, r, pmt, k - 1);
    }
  }

  /**
   * After k payments, the interest accrued equals what was paid minus the
   * principal repaid: CumInterest(k) == k * pmt - (p - balance(k)).
   */
  lemma {:induction false} InterestIsPaidMinusRepaid(p: real, r: real, pmt: real, k: nat)
    ensures CumInterest(p, r, pmt, k) == Paid(pmt, k) - (p - AmortBalance(p, r, pmt, k))
  {
    if k > 0 {
      InterestIsPaidMinusRepaid(p, r, pmt, k - 1);
      PaidStep(pmt, k - 1);
    }
  }

  /** What n payments of pmt add up to: `pmt * n`. */
  function Paid(pmt: real, n: int): real {
    pmt * (n as real)
  }

  lemma PaidStep(pmt: real, n: int)
    ensures Paid(pmt, n + 1) == Paid(pmt, n) + pmt
  {
  }

  /** `(p * x * r) / (x - 1)` with `x = (1 + r)^n`: the fixed monthly payment. */
  function AnnuityPayment(p: real, r: real, n: nat): (pmt: real)
    requires r > 0.0 && n > 0
    ensures p > 0.0 ==> pmt > 0.0
    ensures pmt * (Pow(1.0 + r, n) - 1.0) == p * Pow(1.0 + r, n) * r
  {
    PowAboveOne(1.0 + r, n);
    var x := Pow(1.0 + r, n);
    PositiveProduct(p, x, r);
    (p * x * r) / (x - 1.0)
  }

  lemma PositiveProduct(a: real, b: real, c: real)
    ensures a > 0.0 && b > 0.0 && c > 0.0 ==> a * b * c > 0.0
  {
    if a > 0.0 && b > 0.0 && c > 0.0 {
      assert a * b > 0.0;
    }
  }

  /**
   * Paying the annuity payment for n months leaves a balance of exactly 0,
   * for any principal.
   */
  lemma AnnuityPaysOff(p: real, r: real, n: nat)
    requires r > 0.0 && n > 0
    ensures AmortBalance(p, r, AnnuityPayment(p, r, n), n) == 0.0
  {
    var pmt := AnnuityPayment(p, r, n);
    var x := Pow(1.0 + r, n);
    AmortIsGrowth(p, r, pmt, n);
    GrowClosedForm(p, r, -pmt, n);
    ScaledZero(r, Grow(p, r, -pmt, n), p, x, pmt);
  }

  /** The algebra that closes the annuity argument, with the unknowns named. */
  lemma ScaledZero(r: real, b: real, p: real, x: real, pmt: real)
    requires r > 0.0
    requires r * b == r * p * x + -pmt * (x - 1.0)
    requires pmt * (x - 1.0) == p * x * r
    ensures b == 0.0
  {
    assert r * b == 0.0;
  }

  /** Over a fully repaid loan the interest is everything paid beyond the principal. */
  lemma AnnuityTotalInterest(p: real, r: real, n: nat)
    requires r > 0.0 && n > 0
    ensures CumInterest(p, r, AnnuityPayment(p, r, n), n) == Paid(AnnuityPayment(p, r, n), n) - p
  {
    AnnuityPaysOff(p, r, n);
    InterestIsPaidMinusRepaid(p, r, AnnuityPayment(p, r, n), n);
  }

  /**
   * The annuity payment on a positive principal is positive, repays the loan
   * in n months, and over them accrues as interest everything paid beyond the
   * principal.
   */
  lemma AnnuityFacts(p: real, r: real, n: nat)
    requires p > 0.0 && r > 0.0 && n > 0
    ensures var pmt := AnnuityPayment(p, r, n);
      && pmt > 0.0
      && AmortBalance(p, r, pmt, n) == 0.0
      && CumInterest(p, r, pmt, n) == Paid(pmt, n) - p
  {
    AnnuityPaysOff(p, r, n);
    AnnuityTotalInterest(p, r, n);
  }

  /** The annuity payment exceeds the first month's interest on a positive principal. */
  lemma AnnuityAboveInterest(p: real, r: real, n: nat)
    requires p > 0.0 && r > 0.0 && n > 0
    ensures AnnuityPayment(p, r, n) > p * r
  {
    var pmt := AnnuityPayment(p, r, n);
    var x := Pow(1.0 + r, n);
    PowAboveOne(1.0 + r, n);
    assert (pmt - p * r) * (x - 1.0) == p * r;
    assert p * r > 0.0;
  }

  /**
   * When the payment exceeds the interest on the principal, each payment
   * lowers the balance, and the balance never rises above the principal.
   */
  lemma {:induction false} AmortDecreasing(p: real, r: real, pmt: real, k: nat)
    requires r >= 0.0 && pmt > p * r
    ensures AmortBalance(p, r, pmt, k + 1) < AmortBalance(p, r, pmt, k) <= p
  {
    if k > 0 {
      AmortDecreasing(p, r, pmt, k - 1);
    }
    var b := AmortBalance(p, r, pmt, k);
    assert (p - b) * r >= 0.0;
  }

  lemma {:induction false} AmortNonIncreasing(p: real, r: real, pmt: real, k: nat, m: nat)
    requires r >= 0.0 && pmt > p * r && k <= m
    ensures AmortBalance(p, r, pmt, m) <= AmortBalance(p, r, pmt, k)
    decreases m - k
  {
    if k < m {
      AmortDecreasing(p, r, pmt, k);
      AmortNonIncreasing(p, r, pmt, k + 1, m);
    }
  }

  /**
   * Under the annuity payment the balance stays between 0 and the principal
   * for the whole term, so clamping it at 0 changes nothing.
   */
  lemma AnnuityBalanceInRange(p: real, r: real, n: nat, k: nat)
    requires p > 0.0 && r > 0.0 && n > 0 && k <= n
    ensures 0.0 <= AmortBalance(p, r, AnnuityPayment(p, r, n), k) <= p
  {
    var pmt := AnnuityPayment(p, r, n);
    AnnuityAboveInterest(p, r, n);
    AnnuityPaysOff(p, r, n);
    AmortNonIncreasing(p, r, pmt, k, n);
    AmortNonIncreasing(p, r, pmt, 0, k);
  }

  /**
   * With a non-negative rate, start and contribution, the balance is at least
   * the start plus the contributions.
   */
  lemma {:induction false} GrowAtLeastContributions(b0: real, r: real, c: real, n: nat)
    requires r >= 0.0 && b0 >= 0.0 && c >= 0.0
    ensures Grow(b0, r, c, n) >= b0 + (n as real) * c
  {
    if n > 0 {
      GrowAtLeastContributions(b0, r, c, n - 1);
      var g := Grow(b0, r, c, n - 1);
      assert g >= 0.0;
      assert g * r >= 0.0;
      assert ((n - 1) as real) * c + c == (n as real) * c;
    }
  }

  /** `Math.max(0, x)`. */
  function Max0(x: real): (m: real)
    ensures m >= 0.0 && m >= x
    ensures m == x || m == 0.0
  {
    if x > 0.0 then x else 0.0
  }
}
