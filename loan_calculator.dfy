/**
 * The loan calculator: the fixed monthly payment with its totals, and the
 * amortization table that lists every third month and the final month.
 */
module LoanCalculator {
  import opened Growth

  datatype LoanSummary = LoanSummary(monthlyPayment: real, totalPayments: real, totalInterest: real)

  predicate PaymentDefined(loanAmount: real, interestRate: real, loanTerm: int) {
    loanAmount > 0.0 && MonthlyRate(interestRate) > 0.0 && loanTerm > 0
  }

  /**
   * The payment effect. When the amount, the monthly rate and the term are
   * all positive, the payment is the annuity payment that repays the loan in
   * loanTerm months; otherwise (a zero rate included) every figure is 0.
   */
  function CalculateLoan(loanAmount: real, interestRate: real, loanTerm: int): (s: LoanSummary)
    ensures !PaymentDefined(loanAmount, interestRate, loanTerm) ==> s == LoanSummary(0.0, 0.0, 0.0)
    ensures PaymentDefined(loanAmount, interestRate, loanTerm) ==>
      && s.monthlyPayment > 0.0
      && AmortBalance(loanAmount, MonthlyRate(interestRate), s.monthlyPayment, loanTerm) == 0.0
      && s.totalPayments == Paid(s.monthlyPayment, loanTerm)
      && s.totalInterest == s.totalPayments - loanAmount
      && s.totalInterest == CumInterest(loanAmount, MonthlyRate(interestRate), s.monthlyPayment, loanTerm)
  {
    var monthlyRate := MonthlyRate(interestRate);
    if loanAmount > 0.0 && monthlyRate > 0.0 && loanTerm > 0 then
      var monthly := AnnuityPayment(loanAmount, monthlyRate, loanTerm);
      AnnuityFacts(loanAmount, monthlyRate, loanTerm);
      LoanSummary(monthly, Paid(monthly, loanTerm), Paid(monthly, loanTerm) - loanAmount)
    else
      LoanSummary(0.0, 0.0, 0.0)
  }

  datatype AmortizationRow = AmortizationRow(
    month: int,
    payment: real,
    principal: real,
    interest: real,
    totalInterest: real,
    balance: real)

  /** The table row for month m (m >= 1) of a loan paid at pmt per month. */
  function RowAt(loanAmount: real, r: real, pmt: real, m: nat): AmortizationRow
    requires m >= 1
  {
    var interest := AmortBalance(loanAmount, r, pmt, m - 1) * r;
    AmortizationRow(m, pmt, pmt - interest, interest,
      CumInterest(loanAmount, r, pmt, m), Max0(AmortBalance(loanAmount, r, pmt, m)))
  }

  /** Whether month is listed in a table of loanTerm months. */
  predicate Listed(month: int, loanTerm: int) {
    month % 3 == 0 || month == loanTerm
  }

  /** The rows listed among months 1..upTo, in month order. */
  function Schedule(loanAmount: real, r: real, pmt: real, loanTerm: int, upTo: nat): seq<AmortizationRow>
  {
    if upTo == 0 then []
    else
      Schedule(loanAmount, r, pmt, loanTerm, upTo - 1)
      + (if Listed(upTo, loanTerm) then [RowAt(loanAmount, r, pmt, upTo)] else [])
  }

  /**
   * `generateAmortizationData`: walks the months 1..loanTerm carrying the
   * balance and the accrued interest, and keeps the listed months' rows.
   */
  method GenerateAmortizationData(loanAmount: real, interestRate: real, loanTerm: int, monthlyPayment: real)
    returns (data: seq<AmortizationRow>)
    ensures data == Schedule(loanAmount, MonthlyRate(interestRate), monthlyPayment, loanTerm,
                             if loanTerm > 0 then loanTerm else 0)
  {
    var monthlyRate := interestRate / 100.0 / 12.0;
    var balance := loanAmount;
    var totalInterest := 0.0;
    data := [];
    var month := 1;
    while month <= loanTerm
      invariant 1 <= month <= (if loanTerm > 0 then loanTerm else 0) + 1
      invariant monthlyRate == MonthlyRate(interestRate)
      invariant balance == AmortBalance(loanAmount, monthlyRate, monthlyPayment, month - 1)
      invariant totalInterest == CumInterest(loanAmount, monthlyRate, monthlyPayment, month - 1)
      invariant data == Schedule(loanAmount, monthlyRate, monthlyPayment, loanTerm, month - 1)
    {
      var interestPayment := balance * monthlyRate;
      var principalPayment := monthlyPayment - interestPayment;
      totalInterest := totalInterest + interestPayment;
      balance := balance - principalPayment;
      assert balance == AmortBalance(loanAmount, monthlyRate, monthlyPayment, month);
      assert totalInterest == CumInterest(loanAmount, monthlyRate, monthlyPayment, month);
      if month % 3 == 0 || month == loanTerm {
        var row := AmortizationRow(month, monthlyPayment, principalPayment, interestPayment,
                                   totalInterest, Max0(balance));
        assert row == RowAt(loanAmount, monthlyRate, monthlyPayment, month);
        data := data + [row];
      }
      month := month + 1;
    }
  }

  /**
   * A row of the table splits the payment into principal + interest, its
   * interest is the prior balance times the rate, its accrued interest is
   * everything paid beyond the principal repaid, and its balance is the
   * running balance clamped at 0.
   */
  lemma RowAtFacts(loanAmount: real, r: real, pmt: real, m: nat)
    requires m >= 1
    ensures var row := RowAt(loanAmount, r, pmt, m);
      && row.month == m
      && row.payment == pmt
      && row.principal + row.interest == pmt
      && row.interest == AmortBalance(loanAmount, r, pmt, m - 1) * r
      && row.totalInterest == Paid(pmt, m) - (loanAmount - AmortBalance(loanAmount, r, pmt, m))
      && row.balance >= 0.0
  {
    InterestIsPaidMinusRepaid(loanAmount, r, pmt, m);
  }

  /** A table of rows, each for a listed month among 1..upTo and holding that month's row. */
  predicate RowsListed(rows: seq<AmortizationRow>, loanAmount: real, r: real, pmt: real, loanTerm: int, upTo: nat) {
    forall i :: 0 <= i < |rows| ==>
      && 1 <= rows[i].month <= upTo
      && Listed(rows[i].month, loanTerm)
      && rows[i] == RowAt(loanAmount, r, pmt, rows[i].month)
  }

  /** The rows' months increase. */
  predicate MonthsIncrease(rows: seq<AmortizationRow>) {
    forall i, j :: 0 <= i < j < |rows| ==> rows[i].month < rows[j].month
  }

  /** Every listed month among 1..upTo has a row. */
  predicate MonthsCovered(rows: seq<AmortizationRow>, loanTerm: int, upTo: nat) {
    forall m :: 1 <= m <= upTo && Listed(m, loanTerm) ==>
      exists i :: 0 <= i < |rows| && rows[i].month == m
  }

  /**
   * The table holds exactly the listed months among 1..upTo, each once, in
   * increasing order, each with its month's row.
   */
  lemma {:induction false} ScheduleRows(loanAmount: real, r: real, pmt: real, loanTerm: int, upTo: nat)
    ensures var rows := Schedule(loanAmount, r, pmt, loanTerm, upTo);
      && RowsListed(rows, loanAmount, r, pmt, loanTerm, upTo)
      && MonthsIncrease(rows)
      && MonthsCovered(rows, loanTerm, upTo)
  {
    if upTo > 0 {
      ScheduleRows(loanAmount, r, pmt, loanTerm, upTo - 1);
      var prev := Schedule(loanAmount, r, pmt, loanTerm, upTo - 1);
      var rows := Schedule(loanAmount, r, pmt, loanTerm, upTo);
      if Listed(upTo, loanTerm) {
        var last := RowAt(loanAmount, r, pmt, upTo);
        assert last.month == upTo;
        assert rows == prev + [last];
        AppendRow(prev, last, loanAmount, r, pmt, loanTerm, upTo);
      } else {
        assert rows == prev;
        assert MonthsCovered(rows, loanTerm, upTo) by {
          forall m | 1 <= m <= upTo && Listed(m, loanTerm)
            ensures exists i :: 0 <= i < |rows| && rows[i].month == m
          {
            assert m < upTo;
          }
        }
      }
    }
  }

  /** Appending the row of the next listed month keeps the three table properties. */
  lemma AppendRow(prev: seq<AmortizationRow>, last: AmortizationRow,
                  loanAmount: real, r: real, pmt: real, loanTerm: int, upTo: nat)
    requires upTo >= 1 && Listed(upTo, loanTerm) && last == RowAt(loanAmount, r, pmt, upTo) && last.month == upTo
    requires RowsListed(prev, loanAmount, r, pmt, loanTerm, upTo - 1)
    requires MonthsIncrease(prev) && MonthsCovered(prev, loanTerm, upTo - 1)
    ensures var rows := prev + [last];
      && RowsListed(rows, loanAmount, r, pmt, loanTerm, upTo)
      && MonthsIncrease(rows)
      && MonthsCovered(rows, loanTerm, upTo)
  {
    var rows := prev + [last];
    forall i | 0 <= i < |rows|
      ensures && 1 <= rows[i].month <= upTo
              && Listed(rows[i].month, loanTerm)
              && rows[i] == RowAt(loanAmount, r, pmt, rows[i].month)
    {
      if i < |prev| {
        assert rows[i] == prev[i];
      }
    }
    forall i, j | 0 <= i < j < |rows| ensures rows[i].month < rows[j].month {
      assert rows[i] == prev[i];
      if j < |prev| {
        assert rows[j] == prev[j];
      }
    }
    forall m | 1 <= m <= upTo && Listed(m, loanTerm)
      ensures exists i :: 0 <= i < |rows| && rows[i].month == m
    {
      if m < upTo {
        var i :| 0 <= i < |prev| && prev[i].month == m;
        assert rows[i] == prev[i];
      } else {
        assert rows[|prev|].month == m;
      }
    }
  }

  /**
   * With the payment CalculateLoan computes, the table ends with the final
   * month, whose balance is exactly 0 and whose accrued interest is the
   * reported total interest.
   */
  lemma FinalRowPaysOff(loanAmount: real, interestRate: real, loanTerm: int)
    requires PaymentDefined(loanAmount, interestRate, loanTerm)
    ensures var s := CalculateLoan(loanAmount, interestRate, loanTerm);
      var rows := Schedule(loanAmount, MonthlyRate(interestRate), s.monthlyPayment, loanTerm, loanTerm);
      && |rows| > 0
      && rows[|rows| - 1].month == loanTerm
      && rows[|rows| - 1].balance == 0.0
      && rows[|rows| - 1].totalInterest == s.totalInterest
  {
  }
}
