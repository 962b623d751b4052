/**
 * The Summary page's figures: monthly income (with a twelfth of the bonus),
 * the six standard expense categories, the three standard loan EMIs, the
 * resulting savings, and the chart lists that keep only positive entries in
 * a fixed category order.
 */
module Summary {
  import opened Js
  import opened FinanceData
  import Advisory

  /** Salary, additional income and a twelfth of the annual bonus: a year of it is the annual income. */
  function MonthlyIncome(d: Data): (income: real)
    ensures income * 12.0 == Advisory.AnnualIncome(d)
  {
    Amount(d.income, "monthlySalary") + Amount(d.income, "additionalIncome")
      + Amount(d.income, "annualBonus") / 12.0
  }

  /** The expense keys the page reads; custom expense keys are not among them. */
  const ExpenseKeys: seq<string> :=
    ["housing", "utilities", "groceries", "transportation", "entertainment", "miscellaneous"]

  const LoanKeys: seq<string> := ["personal", "home", "vehicle"]

  const InvestmentKeys: seq<string> :=
    ["stocks", "mutualFunds", "bonds", "realEstate", "retirement", "crypto"]

  /** The six standard expenses: 0 without an expense section, never negative when none of them is. */
  function MonthlyExpenses(d: Data): (total: real)
    ensures d.expenses.None? ==> total == 0.0
    ensures (forall k :: k in ExpenseKeys ==> Amount(d.expenses, k) >= 0.0) ==> total >= 0.0
  {
    assert ExpenseKeys[0] in ExpenseKeys && ExpenseKeys[1] in ExpenseKeys && ExpenseKeys[2] in ExpenseKeys;
    assert ExpenseKeys[3] in ExpenseKeys && ExpenseKeys[4] in ExpenseKeys && ExpenseKeys[5] in ExpenseKeys;
    Amount(d.expenses, "housing") + Amount(d.expenses, "utilities") + Amount(d.expenses, "groceries")
      + Amount(d.expenses, "transportation") + Amount(d.expenses, "entertainment")
      + Amount(d.expenses, "miscellaneous")
  }

  /** `data.loans?.[key]?.emiPerMonth || 0`. */
  function LoanEmi(d: Data, key: string): (e: real)
    ensures d.loans.None? ==> e == 0.0
    ensures d.loans.Some? && !HasKey(d.loans.value, key) ==> e == 0.0
    ensures d.loans.Some? && Get(d.loans.value, key).Some? ==> e == Get(d.loans.value, key).value.emiPerMonth
  {
    match d.loans
    case None => 0.0
    case Some(o) =>
      match Get(o, key)
      case None => 0.0
      case Some(l) => l.emiPerMonth
  }

  /** The EMIs of the three standard loans: 0 without a loan section, never negative when none of them is. */
  function TotalEmis(d: Data): (total: real)
    ensures d.loans.None? ==> total == 0.0
    ensures (forall k :: k in LoanKeys ==> LoanEmi(d, k) >= 0.0) ==> total >= 0.0
  {
    assert LoanKeys[0] in LoanKeys && LoanKeys[1] in LoanKeys && LoanKeys[2] in LoanKeys;
    LoanEmi(d, "personal") + LoanEmi(d, "home") + LoanEmi(d, "vehicle")
  }

  /** What is left of the income after expenses and EMIs; the three parts make up the income. */
  function MonthlySavings(d: Data): (s: real)
    ensures s + MonthlyExpenses(d) + TotalEmis(d) == MonthlyIncome(d)
    ensures s < MonthlyIncome(d) <==> MonthlyExpenses(d) + TotalEmis(d) > 0.0
  {
    MonthlyIncome(d) - MonthlyExpenses(d) - TotalEmis(d)
  }

  /** The Summary income is the Advisory income plus a twelfth of the bonus. */
  lemma IncomeAddsBonusShare(d: Data)
    ensures MonthlyIncome(d) == Advisory.MonthlyIncome(d) + Amount(d.income, "annualBonus") / 12.0
  {
  }

  /** A named chart entry. */
  datatype Slice = Slice(name: string, value: real)

  function SliceSum(s: seq<Slice>): real {
    if s == [] then 0.0 else s[0].value + SliceSum(s[1..])
  }

  lemma {:induction false} SliceSumAppend(a: seq<Slice>, b: seq<Slice>)
    ensures SliceSum(a + b) == SliceSum(a) + SliceSum(b)
  {
    if a == [] {
      assert a + b == b;
    } else {
      assert (a + b)[1..] == a[1..] + b;
      SliceSumAppend(a[1..], b);
    }
  }

  /** `filter(item => item.value > 0)`. */
  function KeepPositive(s: seq<Slice>): (r: seq<Slice>)
    ensures |r| <= |s|
    ensures forall x :: x in r <==> x in s && x.value > 0.0
  {
    if s == [] then []
    else if s[0].value > 0.0 then [s[0]] + KeepPositive(s[1..])
    else KeepPositive(s[1..])
  }

  /** The filter keeps the order: filtering a concatenation filters each part. */
  lemma {:induction false} KeepPositiveAppend(a: seq<Slice>, b: seq<Slice>)
    ensures KeepPositive(a + b) == KeepPositive(a) + KeepPositive(b)
  {
    if a == [] {
      assert a + b == b;
    } else {
      assert (a + b)[1..] == a[1..] + b;
      KeepPositiveAppend(a[1..], b);
    }
  }

  /** Dropping the entries that are not positive drops nothing from a sum of non-negative values. */
  lemma {:induction false} KeepPositiveSum(s: seq<Slice>)
    requires forall i :: 0 <= i < |s| ==> s[i].value >= 0.0
    ensures SliceSum(KeepPositive(s)) == SliceSum(s)
  {
    if s != [] {
      KeepPositiveSum(s[1..]);
    }
  }

  const ExpenseNames: seq<string> :=
    ["Housing", "Utilities", "Groceries", "Transport", "Entertainment", "Misc"]

  function ExpenseSlices(d: Data): (s: seq<Slice>)
    ensures |s| == |ExpenseKeys|
    ensures forall i :: 0 <= i < |s| ==> s[i] == Slice(ExpenseNames[i], Amount(d.expenses, ExpenseKeys[i]))
  {
    seq(|ExpenseKeys|, i requires 0 <= i < |ExpenseKeys| =>
      Slice(ExpenseNames[i], Amount(d.expenses, ExpenseKeys[i])))
  }

  function ExpenseBreakdown(d: Data): seq<Slice> {
    KeepPositive(ExpenseSlices(d))
  }

  /** `data.investments?.[key]` as an optional record. */
  function InvestmentAt(d: Data, key: string): Option<Investment> {
    match d.investments
    case None => None
    case Some(o) => Get(o, key)
  }

  /** `data.investments?.[key]?.value || 0`. */
  function InvestmentValue(d: Data, key: string): real {
    match InvestmentAt(d, key)
    case None => 0.0
    case Some(i) => i.value
  }

  /** `data.investments?.[key]?.monthlyContribution || 0`, or the monthly income when asked for. */
  function InvestmentFlow(d: Data, key: string, income: bool): real {
    match InvestmentAt(d, key)
    case None => 0.0
    case Some(i) => if income then i.monthlyIncome.GetOr(0.0) else i.monthlyContribution.GetOr(0.0)
  }

  const InvestmentNames: seq<string> :=
    ["Stocks", "Mutual Funds", "Bonds", "Real Estate", "Retirement", "Crypto"]

  function InvestmentSlices(d: Data): (s: seq<Slice>)
    ensures |s| == |InvestmentKeys|
    ensures forall i :: 0 <= i < |s| ==> s[i] == Slice(InvestmentNames[i], InvestmentValue(d, InvestmentKeys[i]))
  {
    seq(|InvestmentKeys|, i requires 0 <= i < |InvestmentKeys| =>
      Slice(InvestmentNames[i], InvestmentValue(d, InvestmentKeys[i])))
  }

  /** The monthly flow of each kind: its contribution, except real estate, which gives its income. */
  function FlowSlices(d: Data): (s: seq<Slice>)
    ensures |s| == |InvestmentKeys|
    ensures forall i :: 0 <= i < |s| && InvestmentKeys[i] != "realEstate" ==>
      s[i] == Slice(InvestmentNames[i], InvestmentFlow(d, InvestmentKeys[i], false))
    ensures s[3] == Slice("Real Estate", InvestmentFlow(d, "realEstate", true))
  {
    seq(|InvestmentKeys|, i requires 0 <= i < |InvestmentKeys| =>
      Slice(InvestmentNames[i], InvestmentFlow(d, InvestmentKeys[i], InvestmentKeys[i] == "realEstate")))
  }

  function InvestmentBreakdown(d: Data): seq<Slice> {
    KeepPositive(InvestmentSlices(d))
  }

  function MonthlyInvestments(d: Data): seq<Slice> {
    KeepPositive(FlowSlices(d))
  }

  /** With no negative amounts, the expense chart adds up to the monthly expenses. */
  lemma ExpenseBreakdownTotal(d: Data)
    requires forall k :: k in ExpenseKeys ==> Amount(d.expenses, k) >= 0.0
    ensures SliceSum(ExpenseBreakdown(d)) == MonthlyExpenses(d)
  {
    var s := ExpenseSlices(d);
    forall i | 0 <= i < |s| ensures s[i].value >= 0.0 {
      assert ExpenseKeys[i] in ExpenseKeys;
    }
    KeepPositiveSum(s);
    SixSlices(s);
  }

  lemma SixSlices(s: seq<Slice>)
    requires |s| == 6
    ensures SliceSum(s) == s[0].value + s[1].value + s[2].value + s[3].value + s[4].value + s[5].value
  {
    assert SliceSum(s[5..]) == s[5].value + SliceSum(s[6..]);
    assert SliceSum(s[4..]) == s[4].value + SliceSum(s[5..]);
    assert SliceSum(s[3..]) == s[3].value + SliceSum(s[4..]);
    assert SliceSum(s[2..]) == s[2].value + SliceSum(s[3..]);
    assert SliceSum(s[1..]) == s[1].value + SliceSum(s[2..]);
  }

  /**
   * Storing an expense under a key that is not one of the six standard ones
   * changes neither the monthly expenses nor the expense chart.
   */
  lemma CustomExpenseIgnored(d: Data, o: Obj<real>, key: string, v: real)
    requires d.expenses == Some(o) && UniqueKeys(o)
    requires key !in ExpenseKeys
    ensures var d' := d.(expenses := Some(Put(o, key, v)));
      MonthlyExpenses(d') == MonthlyExpenses(d) && ExpenseBreakdown(d') == ExpenseBreakdown(d)
  {
    var d' := d.(expenses := Some(Put(o, key, v)));
    forall i | 0 <= i < |ExpenseKeys|
      ensures Amount(d'.expenses, ExpenseKeys[i]) == Amount(d.expenses, ExpenseKeys[i])
    {
      GetPut(o, key, v, ExpenseKeys[i]);
    }
    SlicesFromAmounts(d, d');
    TotalFromAmounts(d, d');
  }

  /** The expense chart depends only on the six standard amounts. */
  lemma SlicesFromAmounts(d: Data, d': Data)
    requires forall i :: 0 <= i < |ExpenseKeys| ==> Amount(d'.expenses, ExpenseKeys[i]) == Amount(d.expenses, ExpenseKeys[i])
    ensures ExpenseSlices(d') == ExpenseSlices(d)
  {
  }

  /** The monthly expenses depend only on the six standard amounts. */
  lemma TotalFromAmounts(d: Data, d': Data)
    requires forall i :: 0 <= i < |ExpenseKeys| ==> Amount(d'.expenses, ExpenseKeys[i]) == Amount(d.expenses, ExpenseKeys[i])
    ensures MonthlyExpenses(d') == MonthlyExpenses(d)
  {
    assert ExpenseKeys[0] == "housing" && ExpenseKeys[1] == "utilities" && ExpenseKeys[2] == "groceries";
    assert ExpenseKeys[3] == "transportation" && ExpenseKeys[4] == "entertainment" && ExpenseKeys[5] == "miscellaneous";
  }

  /** Likewise a loan under a custom key does not change the EMI total. */
  lemma CustomLoanIgnored(d: Data, o: Obj<Loan>, key: string, l: Loan)
    requires d.loans == Some(o) && UniqueKeys(o)
    requires key !in LoanKeys
    ensures TotalEmis(d.(loans := Some(Put(o, key, l)))) == TotalEmis(d)
  {
    var d' := d.(loans := Some(Put(o, key, l)));
    forall k | k in LoanKeys ensures LoanEmi(d', k) == LoanEmi(d, k) {
      GetPut(o, key, l, k);
    }
    assert LoanKeys[0] in LoanKeys && LoanKeys[1] in LoanKeys && LoanKeys[2] in LoanKeys;
  }
}
