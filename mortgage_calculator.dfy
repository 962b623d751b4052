/**
 * The mortgage calculator: the monthly payment on the loan amount less the
 * down payment, its totals, and a year-by-year balance table. Its state is
 * the component's state; a recalculation whose inputs fail the guard leaves
 * the previous results in place.
 */
module MortgageCalculator {
  import opened Growth

  /** One point of the chart: the position at the end of a year. */
  datatype YearRow = YearRow(year: int, balance: real, totalPaid: real, totalInterestPaid: real)

  /** The row for year y: the opening balance for year 0, otherwise after 12 * y payments. */
  function YearRowAt(p: real, r: real, pmt: real, y: nat): YearRow {
    if y == 0 then YearRow(0, p, 0.0, 0.0)
    else YearRow(y, Max0(AmortBalance(p, r, pmt, 12 * y)), Paid(pmt, 12 * y), CumInterest(p, r, pmt, 12 * y))
  }

  /** The rows for years 0..term. */
  function YearlySchedule(p: real, r: real, pmt: real, term: nat): (rows: seq<YearRow>)
    ensures |rows| == term + 1
    ensures forall y :: 0 <= y <= term ==> rows[y] == YearRowAt(p, r, pmt, y)
  {
    seq(term + 1, y requires 0 <= y <= term => YearRowAt(p, r, pmt, y))
  }

  /**
   * The table loop: year 0 records the opening balance, and each later year
   * makes twelve payments, carrying the balance, the total paid and the
   * interest paid, and records the year's end.
   */
  method AmortizationByYear(p: real, monthlyRate: real, monthly: real, term: int) returns (data: seq<YearRow>)
    requires term > 0
    ensures data == YearlySchedule(p, monthlyRate, monthly, term)
  {
    data := [];
    var balance := p;
    var totalPaid := 0.0;
    var totalInterestPaid := 0.0;
    ghost var months: nat := 0;
    var year := 0;
    while year <= term
      invariant 0 <= year <= term + 1
      invariant year > 0 ==> months == 12 * (year - 1)
      invariant balance == AmortBalance(p, monthlyRate, monthly, months)
      invariant totalPaid == Paid(monthly, months)
      invariant totalInterestPaid == CumInterest(p, monthlyRate, monthly, months)
      invariant year == 0 ==> months == 0
      invariant |data| == year
      invariant forall y :: 0 <= y < year ==> data[y] == YearRowAt(p, monthlyRate, monthly, y)
    {
      if year == 0 {
        data := data + [YearRow(year, balance, 0.0, 0.0)];
        year := year + 1;
        continue;
      }
      balance, totalPaid, totalInterestPaid := PayYear(p, monthlyRate, monthly, months, balance, totalPaid, totalInterestPaid);
      months := months + 12;
      assert months == 12 * year;
      data := data + [YearRow(year, Max0(balance), totalPaid, totalInterestPaid)];
      year := year + 1;
    }
  }

  /** The twelve payments of one year, starting after k payments. */
  method PayYear(p: real, monthlyRate: real, monthly: real, ghost k: nat,
                 balance0: real, totalPaid0: real, totalInterestPaid0: real)
    returns (balance: real, totalPaid: real, totalInterestPaid: real)
    requires balance0 == AmortBalance(p, monthlyRate, monthly, k)
    requires totalPaid0 == Paid(monthly, k)
    requires totalInterestPaid0 == CumInterest(p, monthlyRate, monthly, k)
    ensures balance == AmortBalance(p, monthlyRate, monthly, k + 12)
    ensures totalPaid == Paid(monthly, k + 12)
    ensures totalInterestPaid == CumInterest(p, monthlyRate, monthly, k + 12)
  {
    balance, totalPaid, totalInterestPaid := balance0, totalPaid0, totalInterestPaid0;
    ghost var n := k;
    var month := 1;
    while month <= 12
      invariant 1 <= month <= 13 && n == k + month - 1
      invariant balance == AmortBalance(p, monthlyRate, monthly, n)
      invariant totalPaid == Paid(monthly, n)
      invariant totalInterestPaid == CumInterest(p, monthlyRate, monthly, n)
    {
      balance, totalPaid, totalInterestPaid := PayMonth(p, monthlyRate, monthly, n, balance, totalPaid, totalInterestPaid);
      n := n + 1;
      month := month + 1;
    }
  }

  /** One month's payment: the interest on the balance is paid, the rest of the payment reduces it. */
  method PayMonth(ghost p: real, r: real, pmt: real, ghost n: nat,
                  balance0: real, totalPaid0: real, totalInterestPaid0: real)
    returns (balance: real, totalPaid: real, totalInterestPaid: real)
    requires balance0 == AmortBalance(p, r, pmt, n)
    requires totalPaid0 == Paid(pmt, n)
    requires totalInterestPaid0 == CumInterest(p, r, pmt, n)
    ensures balance == AmortBalance(p, r, pmt, n + 1)
    ensures totalPaid == Paid(pmt, n + 1)
    ensures totalInterestPaid == CumInterest(p, r, pmt, n + 1)
  {
    AmortStep(p, r, pmt, n);
    PaidStep(pmt, n);
    var interestPayment := balance0 * r;
    var principalPayment := pmt - interestPayment;
    balance := balance0 - principalPayment;
    totalPaid := totalPaid0 + pmt;
    totalInterestPaid := totalInterestPaid0 + interestPayment;
  }

  predicate PaymentDefined(loanAmount: real, downPayment: real, interestRate: real, term: int) {
    loanAmount - downPayment > 0.0 && MonthlyRate(interestRate) > 0.0 && term * 12 > 0
  }

  class MortgageCalculator {
    var monthlyPayment: real
    var totalInterest: real
    var totalCost: real
    var principal: real
    var amortizationData: seq<YearRow>

    constructor()
      ensures monthlyPayment == 0.0 && totalInterest == 0.0 && totalCost == 0.0 && principal == 0.0
      ensures amortizationData == []
    {
      monthlyPayment := 0.0;
      totalInterest := 0.0;
      totalCost := 0.0;
      principal := 0.0;
      amortizationData := [];
    }

    /**
     * `calculateMortgage`: with a positive principal, rate and term, stores the
     * annuity payment for term * 12 months, its totals and the yearly table;
     * otherwise changes nothing.
     */
    method CalculateMortgage(loanAmount: real, downPayment: real, interestRate: real, term: int)
      modifies this
      ensures !PaymentDefined(loanAmount, downPayment, interestRate, term) ==>
        && monthlyPayment == old(monthlyPayment) && totalInterest == old(totalInterest)
        && totalCost == old(totalCost) && principal == old(principal)
        && amortizationData == old(amortizationData)
      ensures PaymentDefined(loanAmount, downPayment, interestRate, term) ==>
        && principal == loanAmount - downPayment
        && monthlyPayment == AnnuityPayment(principal, MonthlyRate(interestRate), term * 12)
        && totalCost == Paid(monthlyPayment, term * 12)
        && totalInterest == totalCost - principal
        && amortizationData == YearlySchedule(principal, MonthlyRate(interestRate), monthlyPayment, term)
    {
      var p := loanAmount - downPayment;
      var monthlyRate := interestRate / 100.0 / 12.0;
      var payments := term * 12;
      if p > 0.0 && monthlyRate > 0.0 && payments > 0 {
        var monthly := AnnuityPayment(p, monthlyRate, payments);
        monthlyPayment := monthly;
        totalInterest := Paid(monthly, payments) - p;
        totalCost := Paid(monthly, payments);
        principal := p;
        amortizationData := AmortizationByYear(p, monthlyRate, monthly, term);
      }
    }
  }

  /**
   * The yearly table under the computed payment: it starts at the principal
   * with nothing paid; in every year the balance lies between 0 and the
   * principal (so the clamp at 0 changes nothing) and the total paid is the
   * interest paid plus the principal repaid; and the final year ends at a
   * balance of 0 having paid the total cost, of which the total interest is
   * interest.
   */
  lemma YearlyScheduleFacts(p: real, interestRate: real, term: int)
    requires p > 0.0 && MonthlyRate(interestRate) > 0.0 && term > 0
    ensures var r := MonthlyRate(interestRate);
      var pmt := AnnuityPayment(p, r, term * 12);
      var rows := YearlySchedule(p, r, pmt, term);
      && rows[0] == YearRow(0, p, 0.0, 0.0)
      && (forall y :: 0 <= y <= term ==>
            && rows[y].year == y
            && 0.0 <= rows[y].balance <= p
            && rows[y].totalPaid == rows[y].totalInterestPaid + (p - rows[y].balance))
      && rows[term].balance == 0.0
      && rows[term].totalPaid == Paid(pmt, term * 12)
      && rows[term].totalInterestPaid == Paid(pmt, term * 12) - p
  {
    var r := MonthlyRate(interestRate);
    var n := term * 12;
    var pmt := AnnuityPayment(p, r, n);
    var rows := YearlySchedule(p, r, pmt, term);
    forall y | 0 <= y <= term
      ensures && rows[y].year == y
              && 0.0 <= rows[y].balance <= p
              && rows[y].totalPaid == rows[y].totalInterestPaid + (p - rows[y].balance)
    {
      if y > 0 {
        AnnuityBalanceInRange(p, r, n, 12 * y);
        InterestIsPaidMinusRepaid(p, r, pmt, 12 * y);
      }
    }
    AnnuityPaysOff(p, r, n);
    AnnuityTotalInterest(p, r, n);
  }
}
