/**
 * The savings goal calculator: the balance after a number of months, the
 * number of months needed to reach a target (searched up to 600 months), the
 * interest earned, and the monthly chart series.
 */
module SavingsCalculator {
  import opened Growth

  /** The search cap: 50 years of months. */
  const MaxMonths: nat := 600

  function NonNeg(n: int): nat {
    if n > 0 then n else 0
  }

  /**
   * k is the search's answer: the first month whose balance reaches the
   * target, or MaxMonths when none before it does.
   */
  predicate IsMonthsToTarget(b0: real, r: real, c: real, target: real, k: int) {
    && 0 <= k <= MaxMonths
    && (forall j :: 0 <= j < k ==> Grow(b0, r, c, j) < target)
    && (k < MaxMonths ==> Grow(b0, r, c, k) >= target)
  }

  /**
   * `calculateSavings`: the balance after `months` monthly steps, and the
   * capped search for the first month at which the balance reaches the target.
   */
  method CalculateSavings(initialDeposit: real, monthlyContribution: real, interestRate: real,
                          targetAmount: real, months: int)
    returns (finalBalance: real, monthsToTarget: int)
    ensures finalBalance == Grow(initialDeposit, MonthlyRate(interestRate), monthlyContribution, NonNeg(months))
    ensures IsMonthsToTarget(initialDeposit, MonthlyRate(interestRate), monthlyContribution, targetAmount, monthsToTarget)
    ensures initialDeposit >= targetAmount ==> monthsToTarget == 0
  {
    var monthlyRate := interestRate / 100.0 / 12.0;
    var balance := initialDeposit;
    var i := 0;
    while i < months
      invariant 0 <= i <= NonNeg(months)
      invariant balance == Grow(initialDeposit, monthlyRate, monthlyContribution, i)
    {
      balance := GrowStep(initialDeposit, monthlyRate, monthlyContribution, i, balance);
      i := i + 1;
    }
    finalBalance := balance;

    balance := initialDeposit;
    var targetMonths := 0;
    while balance < targetAmount && targetMonths < 600
      invariant 0 <= targetMonths <= MaxMonths
      invariant balance == Grow(initialDeposit, monthlyRate, monthlyContribution, targetMonths)
      invariant forall j :: 0 <= j < targetMonths ==> Grow(initialDeposit, monthlyRate, monthlyContribution, j) < targetAmount
      decreases MaxMonths - targetMonths
    {
      balance := GrowStep(initialDeposit, monthlyRate, monthlyContribution, targetMonths, balance);
      targetMonths := targetMonths + 1;
    }
    monthsToTarget := targetMonths;
  }

  /** The search has one answer. */
  lemma MonthsToTargetUnique(b0: real, r: real, c: real, target: real, k1: int, k2: int)
    requires IsMonthsToTarget(b0, r, c, target, k1) && IsMonthsToTarget(b0, r, c, target, k2)
    ensures k1 == k2
  {
  }

  /**
   * With a non-negative rate, deposit and contribution, the target is reached
   * no later than by the contributions alone: if j <= 600 months of deposits
   * cover the target, the answer is at most j.
   */
  lemma ContributionsBoundMonths(b0: real, r: real, c: real, target: real, k: int, j: nat)
    requires r >= 0.0 && b0 >= 0.0 && c >= 0.0
    requires IsMonthsToTarget(b0, r, c, target, k)
    requires j <= MaxMonths && b0 + (j as real) * c >= target
    ensures k <= j
  {
    GrowAtLeastContributions(b0, r, c, j);
  }

  /**
   * The interest earned shown beside the balance: the final balance less the
   * deposit and the contributions. It is 0 at a zero rate and never negative
   * at a non-negative rate with non-negative amounts.
   */
  function InterestEarned(finalBalance: real, initialDeposit: real, monthlyContribution: real, months: int): real {
    finalBalance - initialDeposit - monthlyContribution * (months as real)
  }

  lemma InterestEarnedBounds(initialDeposit: real, monthlyContribution: real, interestRate: real, months: nat)
    ensures InterestEarned(Grow(initialDeposit, MonthlyRate(0.0), monthlyContribution, months),
                           initialDeposit, monthlyContribution, months) == 0.0
    ensures interestRate >= 0.0 && initialDeposit >= 0.0 && monthlyContribution >= 0.0 ==>
      InterestEarned(Grow(initialDeposit, MonthlyRate(interestRate), monthlyContribution, months),
                     initialDeposit, monthlyContribution, months) >= 0.0
  {
    GrowAtZeroRate(initialDeposit, monthlyContribution, months);
    if interestRate >= 0.0 && initialDeposit >= 0.0 && monthlyContribution >= 0.0 {
      GrowAtLeastContributions(initialDeposit, MonthlyRate(interestRate), monthlyContribution, months);
    }
  }

  datatype SavingsData = SavingsData(monthLabels: seq<int>, balanceData: seq<real>, contributionsData: seq<real>)

  /**
   * `generateSavingsData`: labels 0..months, and for each month the balance
   * and the money put in so far, both starting at the deposit.
   */
  method GenerateSavingsData(initialDeposit: real, monthlyContribution: real, interestRate: real, months: int)
    returns (d: SavingsData)
    ensures |d.monthLabels| == NonNeg(months + 1)
    ensures forall i :: 0 <= i < |d.monthLabels| ==> d.monthLabels[i] == i
    ensures |d.balanceData| == |d.contributionsData| == NonNeg(months) + 1
    ensures forall i :: 0 <= i < |d.balanceData| ==>
      d.balanceData[i] == Grow(initialDeposit, MonthlyRate(interestRate), monthlyContribution, i)
    ensures forall i :: 0 <= i < |d.contributionsData| ==>
      d.contributionsData[i] == initialDeposit + Paid(monthlyContribution, i)
  {
    var monthlyRate := interestRate / 100.0 / 12.0;
    var monthLabels := seq(NonNeg(months + 1), i => i);
    var balanceData := [initialDeposit];
    var contributionsData := [initialDeposit];
    var balance := initialDeposit;
    var contributions := initialDeposit;
    var i := 1;
    while i <= months
      invariant 1 <= i <= NonNeg(months) + 1
      invariant |balanceData| == |contributionsData| == i
      invariant balance == Grow(initialDeposit, monthlyRate, monthlyContribution, i - 1)
      invariant contributions == initialDeposit + Paid(monthlyContribution, i - 1)
      invariant forall j :: 0 <= j < i ==> balanceData[j] == Grow(initialDeposit, monthlyRate, monthlyContribution, j)
      invariant forall j :: 0 <= j < i ==> contributionsData[j] == initialDeposit + Paid(monthlyContribution, j)
    {
      contributions := Contribute(initialDeposit, monthlyContribution, i - 1, contributions);
      balance := GrowStep(initialDeposit, monthlyRate, monthlyContribution, i - 1, balance);
      balanceData := balanceData + [balance];
      contributionsData := contributionsData + [contributions];
      i := i + 1;
    }
    d := SavingsData(monthLabels, balanceData, contributionsData);
  }

  /** One more month's contribution on the money put in so far. */
  method Contribute(ghost deposit: real, c: real, ghost n: nat, total0: real) returns (total: real)
    requires total0 == deposit + Paid(c, n)
    ensures total == deposit + Paid(c, n + 1)
  {
    PaidStep(c, n);
    total := total0 + c;
  }
}
