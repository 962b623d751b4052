/**
 * The Advisory page's own logic: the financial metrics computed from the
 * profile, the email check for the report, the country lookup, and the cap
 * on chat questions.
 */
module Advisory {
  import opened Js
  import opened Strings
  import opened FinanceData

  // ---------------------------------------------------------------- metrics

  /** How yearsToFire is obtained: 0, or `ceil(log(ratio) / log(1.07))` of a ratio. */
  datatype FireYears = NoFireYears | CeilLog107(ratio: real)

  datatype Analysis = Analysis(
    debtToIncome: real,
    savingsRate: real,
    insuranceCoverage: real,
    emergencyFundMonths: real,
    fireNumber: real,
    yearsToFire: FireYears,
    investmentDiversification: real,
    totalPortfolioValue: real,
    monthlyInvestments: real)

  /** The number of investment kinds the score counts as full diversification. */
  const MaxTypes: int := 6

  /** Salary plus additional income; the bonus is not part of it. */
  function MonthlyIncome(d: Data): real {
    Amount(d.income, "monthlySalary") + Amount(d.income, "additionalIncome")
  }

  function AnnualIncome(d: Data): real {
    MonthlyIncome(d) * 12.0 + Amount(d.income, "annualBonus")
  }

  /** Every expense value, custom keys included. */
  function MonthlyExpenses(d: Data): real {
    Sum(Values(EntriesOf(d.expenses)))
  }

  function EmiList(loans: Obj<Loan>): (r: seq<real>)
    ensures |r| == |loans|
  {
    if loans == [] then [] else [loans[0].1.emiPerMonth] + EmiList(loans[1..])
  }

  /** The EMIs of every loan, custom loans included. */
  function TotalMonthlyEmis(d: Data): real {
    Sum(EmiList(EntriesOf(d.loans)))
  }

  function PortfolioValue(investments: Obj<Investment>): real {
    if investments == [] then 0.0
    else investments[0].1.value + PortfolioValue(investments[1..])
  }

  /** Contribution plus income of one investment, each 0 when absent. */
  function Flow(i: Investment): real {
    i.monthlyContribution.GetOr(0.0) + i.monthlyIncome.GetOr(0.0)
  }

  function MonthlyFlows(investments: Obj<Investment>): real {
    if investments == [] then 0.0
    else Flow(investments[0].1) + MonthlyFlows(investments[1..])
  }

  /** The number of investments with a positive value. */
  function CountPositive(investments: Obj<Investment>): (n: nat)
    ensures n <= |investments|
  {
    if investments == [] then 0
    else (if investments[0].1.value > 0.0 then 1 else 0) + CountPositive(investments[1..])
  }

  function LifeCoverage(d: Data): real {
    match d.insurance
    case None => 0.0
    case Some(ins) => ins.life.coverage
  }

  /**
   * `monthlyExpenses > 0 ? ceil(log(fireNumber / (assets || 1)) / log(1.07)) : 0`:
   * no years without expenses; otherwise the ratio of the FIRE number to the
   * assets, where assets of exactly 0 count as 1.
   */
  function YearsToFire(monthlyExpenses: real, fireNumber: real, assets: real): (y: FireYears)
    ensures monthlyExpenses <= 0.0 <==> y.NoFireYears?
    ensures monthlyExpenses > 0.0 && assets == 0.0 ==> y.ratio == fireNumber
    ensures monthlyExpenses > 0.0 && assets != 0.0 ==> y.ratio * assets == fireNumber
  {
    if monthlyExpenses > 0.0 then
      CeilLog107(fireNumber / (if assets != 0.0 then assets else 1.0))
    else
      NoFireYears
  }

  /** `part / whole * 100` when the whole is positive, otherwise 0. */
  function Percent(part: real, whole: real): (r: real)
    ensures whole <= 0.0 ==> r == 0.0
    ensures whole > 0.0 ==> r * whole == part * 100.0
  {
    if whole > 0.0 then part / whole * 100.0 else 0.0
  }

  /** `part / whole` when the whole is positive, otherwise 0. */
  function Ratio(part: real, whole: real): (r: real)
    ensures whole <= 0.0 ==> r == 0.0
    ensures whole > 0.0 ==> r * whole == part
  {
    if whole > 0.0 then part / whole else 0.0
  }

  /** The totals `calculateMetrics` gathers from the profile before it divides. */
  datatype Totals = Totals(
    monthlyIncome: real,
    annualIncome: real,
    monthlyExpenses: real,
    monthlyEmis: real,
    lifeCoverage: real,
    currentSavings: real,
    portfolioValue: real,
    kinds: nat,
    monthlyInvestments: real)

  function TotalsOf(d: Data): Totals {
    var investments := EntriesOf(d.investments);
    Totals(MonthlyIncome(d), AnnualIncome(d), MonthlyExpenses(d), TotalMonthlyEmis(d), LifeCoverage(d),
           Amount(d.income, "currentSavings"), PortfolioValue(investments), CountPositive(investments),
           MonthlyFlows(investments))
  }

  /**
   * The ratios of `calculateMetrics`: each is 0 when its denominator is not
   * positive, and otherwise multiplies back to its numerator; the FIRE number
   * is 25 years of expenses; the diversification score is the share of six
   * kinds held with a positive value, which exceeds 100 with more than six.
   */
  function Metrics(t: Totals): (a: Analysis)
    ensures t.monthlyIncome <= 0.0 ==> a.debtToIncome == 0.0 && a.savingsRate == 0.0
    ensures t.monthlyIncome > 0.0 ==>
      && a.debtToIncome * t.monthlyIncome == t.monthlyEmis * 100.0
      && a.savingsRate * t.monthlyIncome == (t.monthlyIncome - t.monthlyExpenses - t.monthlyEmis) * 100.0
    ensures t.annualIncome <= 0.0 ==> a.insuranceCoverage == 0.0
    ensures t.annualIncome > 0.0 ==> a.insuranceCoverage * t.annualIncome == t.lifeCoverage
    ensures t.monthlyExpenses <= 0.0 ==> a.emergencyFundMonths == 0.0
    ensures t.monthlyExpenses > 0.0 ==> a.emergencyFundMonths * t.monthlyExpenses == t.currentSavings
    ensures a.fireNumber == t.monthlyExpenses * 300.0
    ensures a.yearsToFire == YearsToFire(t.monthlyExpenses, a.fireNumber, t.currentSavings + t.portfolioValue)
    ensures a.investmentDiversification * (MaxTypes as real) == (t.kinds as real) * 100.0
    ensures a.totalPortfolioValue == t.portfolioValue
    ensures a.monthlyInvestments == t.monthlyInvestments
  {
    var fireNumber := t.monthlyExpenses * 12.0 * 25.0;
    Analysis(
      Percent(t.monthlyEmis, t.monthlyIncome),
      Percent(t.monthlyIncome - t.monthlyExpenses - t.monthlyEmis, t.monthlyIncome),
      Ratio(t.lifeCoverage, t.annualIncome),
      Ratio(t.currentSavings, t.monthlyExpenses),
      fireNumber,
      YearsToFire(t.monthlyExpenses, fireNumber, t.currentSavings + t.portfolioValue),
      Percent(t.kinds as real, MaxTypes as real),
      t.portfolioValue,
      t.monthlyInvestments)
  }

  /** `calculateMetrics`: the ratios of the profile's totals. */
  function CalculateMetrics(d: Data): Analysis {
    Metrics(TotalsOf(d))
  }

  /**
   * With a positive income, the debt ratio, the savings rate and the expense
   * share of income add up to 100 percent.
   */
  lemma RatiosAddUp(t: Totals)
    requires t.monthlyIncome > 0.0
    ensures var a := Metrics(t);
      a.debtToIncome + a.savingsRate + t.monthlyExpenses / t.monthlyIncome * 100.0 == 100.0
  {
    var a := Metrics(t);
    SharesOfIncome(t.monthlyIncome, t.monthlyExpenses, t.monthlyEmis, a.debtToIncome, a.savingsRate);
  }

  lemma SharesOfIncome(income: real, expenses: real, emis: real, debt: real, saving: real)
    requires income > 0.0
    requires debt * income == emis * 100.0
    requires saving * income == (income - expenses - emis) * 100.0
    ensures debt + saving + expenses / income * 100.0 == 100.0
  {
    var share := expenses / income * 100.0;
    assert share * income == expenses * 100.0;
    calc {
      (debt + saving + share) * income;
      debt * income + saving * income + share * income;
      { assert debt * income == emis * 100.0; }
      emis * 100.0 + saving * income + share * income;
      { assert saving * income == (income - expenses - emis) * 100.0; }
      emis * 100.0 + (income - expenses - emis) * 100.0 + share * income;
      emis * 100.0 + (income - expenses - emis) * 100.0 + expenses * 100.0;
      100.0 * income;
    }
  }

  /** A withdrawal of 4 percent a year from the FIRE number pays a year of expenses. */
  lemma FireNumberFourPercentRule(t: Totals)
    ensures Metrics(t).fireNumber * 0.04 == t.monthlyExpenses * 12.0
  {
  }

  /**
   * The score counts every positive investment (TotalsOf counts custom ones
   * too), so it is 0 with none, 100 with exactly six, and above 100 with more
   * than six.
   */
  lemma DiversificationScore(t: Totals)
    ensures var s := Metrics(t).investmentDiversification;
      && (t.kinds == 0 ==> s == 0.0)
      && (t.kinds == MaxTypes ==> s == 100.0)
      && (t.kinds > MaxTypes ==> s > 100.0)
  {
  }

  /**
   * Nothing clamps the ratios: with a positive income the savings rate is
   * negative exactly when expenses and EMIs exceed the income, and the debt
   * ratio passes 100 exactly when the EMIs alone exceed it.
   */
  lemma OverspentProfile(t: Totals)
    requires t.monthlyIncome > 0.0
    ensures Metrics(t).savingsRate < 0.0 <==> t.monthlyExpenses + t.monthlyEmis > t.monthlyIncome
    ensures Metrics(t).debtToIncome > 100.0 <==> t.monthlyEmis > t.monthlyIncome
  {
    var a := Metrics(t);
    SignOfQuotient(a.savingsRate, t.monthlyIncome, (t.monthlyIncome - t.monthlyExpenses - t.monthlyEmis) * 100.0);
    SignOfQuotient(a.debtToIncome - 100.0, t.monthlyIncome, (t.monthlyEmis - t.monthlyIncome) * 100.0);
  }

  /** A quotient by a positive number has the sign of the dividend. */
  lemma SignOfQuotient(q: real, d: real, n: real)
    requires d > 0.0 && q * d == n
    ensures q < 0.0 <==> n < 0.0
    ensures q > 0.0 <==> n > 0.0
  {
    if q < 0.0 {
      assert q * d < 0.0 * d;
    } else if q > 0.0 {
      assert q * d > 0.0 * d;
    }
  }

  /**
   * Adding an investment under a new key adds its value to the portfolio, its
   * flows to the monthly investments, and one kind to the count when its value
   * is positive.
   */
  lemma {:induction false} AddInvestment(investments: Obj<Investment>, key: string, inv: Investment)
    ensures PortfolioValue(investments + [(key, inv)]) == PortfolioValue(investments) + inv.value
    ensures MonthlyFlows(investments + [(key, inv)]) == MonthlyFlows(investments) + Flow(inv)
    ensures CountPositive(investments + [(key, inv)])
            == CountPositive(investments) + (if inv.value > 0.0 then 1 else 0)
  {
    if investments == [] {
      assert investments + [(key, inv)] == [(key, inv)];
    } else {
      assert (investments + [(key, inv)])[1..] == investments[1..] + [(key, inv)];
      AddInvestment(investments[1..], key, inv);
    }
  }

  // ------------------------------------------------------------------ email

  predicate IsLetter(c: char) { IsUpper(c) || IsLower(c) }

  /** `[a-zA-Z0-9._-]` */
  predicate IsLocalChar(c: char) { IsLetter(c) || IsDigit(c) || c == '.' || c == '_' || c == '-' }

  /** `[a-zA-Z0-9.-]` */
  predicate IsDomainChar(c: char) { IsLetter(c) || IsDigit(c) || c == '.' || c == '-' }

  predicate AllLocal(s: string) { forall i :: 0 <= i < |s| ==> IsLocalChar(s[i]) }
  predicate AllDomain(s: string) { forall i :: 0 <= i < |s| ==> IsDomainChar(s[i]) }
  predicate AllLetters(s: string) { forall i :: 0 <= i < |s| ==> IsLetter(s[i]) }

  /** s splits at '@' position i and '.' position j as the pattern's three parts. */
  predicate EmailSplit(s: string, at: int, dot: int) {
    && 1 <= at && at + 2 <= dot && dot + 3 <= |s|
    && s[at] == '@' && s[dot] == '.'
    && AllLocal(s[..at]) && AllDomain(s[at + 1..dot]) && AllLetters(s[dot + 1..])
  }

  /** The language of `^[a-zA-Z0-9._-]+@[a-zA-Z0-9.-]+\.[a-zA-Z]{2,}$`. */
  ghost predicate EmailPattern(s: string) {
    exists at, dot :: EmailSplit(s, at, dot)
  }

  /**
   * `isValidEmail`: the '@' is the first one, the last '.' starts a suffix of
   * at least two letters, and the parts between use the allowed characters.
   */
  function IsValidEmail(s: string): (ok: bool)
    ensures ok ==> EmailPattern(s)
  {
    var at := IndexOf(s, '@');
    var dot := LastIndexOf(s, '.');
    EmailSplit(s, at, dot)
  }

  /** The check accepts exactly the strings of the pattern. */
  lemma IsValidEmailIff(s: string)
    ensures IsValidEmail(s) <==> EmailPattern(s)
  {
    if EmailPattern(s) {
      var at, dot :| EmailSplit(s, at, dot);
      assert '@' !in s[..at] by {
        forall k | 0 <= k < at ensures s[..at][k] != '@' {
          assert IsLocalChar(s[..at][k]);
        }
      }
      IndexOfIsFirst(s, '@', at);
      LastIndexOfIsLast(s, '.', dot);
    }
  }

  // ---------------------------------------------------------------- country

  /** `COUNTRY_CODES`. */
  const CountryCodes: Obj<string> := [
    ("US", "United States"), ("UK", "United Kingdom"), ("CA", "Canada"),
    ("AU", "Australia"), ("SG", "Singapore"), ("IN", "India"),
    ("UAE", "United Arab Emirates"), ("CHN", "China"), ("RUS", "Russia")]

  /** `COUNTRY_CODES[code] || 'United States'`. */
  function CountryName(code: string): (name: string)
    ensures !HasKey(CountryCodes, code) ==> name == "United States"
    ensures HasKey(CountryCodes, code) ==> (code, name) in CountryCodes
    ensures name in Values(CountryCodes)
  {
    match Get(CountryCodes, code)
    case None => "United States"
    case Some(n) => if n != "" then n else "United States"
  }

  // ------------------------------------------------------------------- chat

  /** The number of questions a session may ask. */
  const MaxQuestions: int := 10

  datatype Role = UserRole | AssistantRole

  datatype Message = Message(role: Role, content: string)

  const UserIdErrorMessage: string :=
    "Unable to process your request due to a user identification issue. Please refresh the page and try again."

  function CountUserMessages(messages: seq<Message>): (n: nat)
    ensures n <= |messages|
  {
    if messages == [] then 0
    else CountUserMessages(messages[..|messages| - 1]) + (if messages[|messages| - 1].role == UserRole then 1 else 0)
  }

  /**
   * The chat state. The question counter never passes the cap, and every user
   * message on screen was counted.
   */
  class AdvisoryChat {
    var questionCount: int
    var messages: seq<Message>

    predicate Valid()
      reads this
    {
      0 <= CountUserMessages(messages) <= questionCount <= MaxQuestions
    }

    constructor()
      ensures questionCount == 0 && messages == []
      ensures Valid()
    {
      questionCount := 0;
      messages := [];
    }

    /**
     * `handleSendMessage` up to the request: nothing at the cap; otherwise one
     * more question, then either the missing-user reply or the user's message.
     */
    method HandleSendMessage(message: string, userId: string)
      modifies this
      ensures old(questionCount) >= MaxQuestions ==>
        questionCount == old(questionCount) && messages == old(messages)
      ensures old(questionCount) < MaxQuestions ==> questionCount == old(questionCount) + 1
      ensures old(questionCount) < MaxQuestions && userId == "" ==>
        messages == old(messages) + [Message(AssistantRole, UserIdErrorMessage)]
      ensures old(questionCount) < MaxQuestions && userId != "" ==>
        messages == old(messages) + [Message(UserRole, message)]
      ensures old(Valid()) ==> Valid()
    {
      if questionCount >= MaxQuestions {
        return;
      }
      questionCount := questionCount + 1;
      if userId == "" {
        messages := messages + [Message(AssistantRole, UserIdErrorMessage)];
        return;
      }
      messages := messages + [Message(UserRole, message)];
    }
  }
}
