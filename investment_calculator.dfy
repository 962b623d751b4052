/**
 * The investment growth calculator: the future value of a starting sum with
 * a fixed monthly contribution, the contributions and the growth, and the
 * yearly chart series.
 */
module InvestmentCalculator {
  import opened Growth

  datatype InvestmentSummary = InvestmentSummary(futureValue: real, totalContributions: real, totalInterest: real)

  function NonNeg(n: int): nat {
    if n > 0 then n else 0
  }

  /**
   * The growth effect: years * 12 monthly steps b := b * (1 + r) + c from the
   * initial investment (none when that count is not positive), the money put
   * in, and the difference.
   */
  method CalculateGrowth(initialInvestment: real, monthlyContribution: real, annualReturn: real, years: int)
    returns (s: InvestmentSummary)
    ensures s.futureValue == Grow(initialInvestment, MonthlyRate(annualReturn), monthlyContribution, NonNeg(years * 12))
    ensures s.totalContributions == initialInvestment + monthlyContribution * ((years * 12) as real)
    ensures s.totalInterest == s.futureValue - s.totalContributions
  {
    var monthlyRate := annualReturn / 100.0 / 12.0;
    var months := years * 12;
    var fv := initialInvestment;
    var i := 0;
    while i < months
      invariant 0 <= i <= NonNeg(months)
      invariant fv == Grow(initialInvestment, monthlyRate, monthlyContribution, i)
    {
      fv := fv * (1.0 + monthlyRate) + monthlyContribution;
      i := i + 1;
    }
    var totalCont := initialInvestment + monthlyContribution * (months as real);
    s := InvestmentSummary(fv, totalCont, fv - totalCont);
  }

  /** With no return, the future value is exactly the money put in. */
  lemma ZeroReturnNoInterest(initialInvestment: real, monthlyContribution: real, years: nat)
    ensures var fv := Grow(initialInvestment, MonthlyRate(0.0), monthlyContribution, years * 12);
      && fv == initialInvestment + monthlyContribution * ((years * 12) as real)
      && fv - (initialInvestment + monthlyContribution * ((years * 12) as real)) == 0.0
  {
    GrowAtZeroRate(initialInvestment, monthlyContribution, years * 12);
  }

  /**
   * With a non-negative return, starting sum and contribution, the future
   * value is at least the money put in, so the growth shown is never negative.
   */
  lemma NonNegativeReturnGrows(initialInvestment: real, monthlyContribution: real, annualReturn: real, years: nat)
    requires annualReturn >= 0.0 && initialInvestment >= 0.0 && monthlyContribution >= 0.0
    ensures Grow(initialInvestment, MonthlyRate(annualReturn), monthlyContribution, years * 12)
            >= initialInvestment + monthlyContribution * ((years * 12) as real)
  {
    GrowAtLeastContributions(initialInvestment, MonthlyRate(annualReturn), monthlyContribution, years * 12);
  }

  datatype GrowthData = GrowthData(yearLabels: seq<int>, valueData: seq<real>, contributionData: seq<real>)

  /**
   * `generateGrowthData`: labels 0..years, and for each year the value and the
   * money put in after 12 * year months, built one year at a time from the
   * previous year's entry.
   */
  method GenerateGrowthData(initialInvestment: real, monthlyContribution: real, annualReturn: real, years: int)
    returns (d: GrowthData)
    ensures |d.yearLabels| == NonNeg(years + 1)
    ensures forall i :: 0 <= i < |d.yearLabels| ==> d.yearLabels[i] == i
    ensures |d.valueData| == |d.contributionData| == NonNeg(years) + 1
    ensures forall y :: 0 <= y < |d.valueData| ==>
      d.valueData[y] == Grow(initialInvestment, MonthlyRate(annualReturn), monthlyContribution, 12 * y)
    ensures forall y :: 0 <= y < |d.contributionData| ==>
      d.contributionData[y] == Grow(initialInvestment, 0.0, monthlyContribution, 12 * y)
  {
    var monthlyRate := annualReturn / 100.0 / 12.0;
    var yearLabels := seq(NonNeg(years + 1), i => i);
    var valueData := [initialInvestment];
    var contributionData := [initialInvestment];
    var year := 1;
    while year <= years
      invariant 1 <= year <= NonNeg(years) + 1
      invariant |valueData| == |contributionData| == year
      invariant forall y :: 0 <= y < year ==>
        valueData[y] == Grow(initialInvestment, monthlyRate, monthlyContribution, 12 * y)
      invariant forall y :: 0 <= y < year ==>
        contributionData[y] == Grow(initialInvestment, 0.0, monthlyContribution, 12 * y)
    {
      var fv := valueData[year - 1];
      var contTotal := contributionData[year - 1];
      var month := 0;
      while month < 12
        invariant 0 <= month <= 12
        invariant fv == Grow(valueData[year - 1], monthlyRate, monthlyContribution, month)
        invariant contTotal == Grow(contributionData[year - 1], 0.0, monthlyContribution, month)
      {
        fv := fv * (1.0 + monthlyRate) + monthlyContribution;
        contTotal := contTotal + monthlyContribution;
        month := month + 1;
      }
      GrowCompose(initialInvestment, monthlyRate, monthlyContribution, 12 * (year - 1), 12);
      GrowCompose(initialInvestment, 0.0, monthlyContribution, 12 * (year - 1), 12);
      valueData := valueData + [fv];
      contributionData := contributionData + [contTotal];
      year := year + 1;
    }
    d := GrowthData(yearLabels, valueData, contributionData);
  }

  /**
   * The chart agrees with the summary: the money put in by year y is the
   * initial investment plus 12 * y contributions, and the last value is the
   * future value.
   */
  lemma GrowthDataMatchesSummary(initialInvestment: real, monthlyContribution: real, annualReturn: real, years: nat, y: nat)
    requires y <= years
    ensures Grow(initialInvestment, 0.0, monthlyContribution, 12 * y)
            == initialInvestment + ((12 * y) as real) * monthlyContribution
    ensures Grow(initialInvestment, MonthlyRate(annualReturn), monthlyContribution, 12 * years)
            == Grow(initialInvestment, MonthlyRate(annualReturn), monthlyContribution, NonNeg(years * 12))
  {
    GrowAtZeroRate(initialInvestment, monthlyContribution, 12 * y);
  }
}
