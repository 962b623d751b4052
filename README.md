# Personal finance planner: a verified model of its core

This project models, in Dafny, the logic at the heart of a React
personal-finance web application:

- the four calculators (loan, mortgage, investment growth, savings), over
  exact real arithmetic;
- the advisory page's financial ratios, its email check, its country lookup
  and its chat question cap;
- the summary page's totals and chart breakdowns;
- the six intake forms (personal, income, expense, loan, investment,
  insurance) and the shared "add custom field" box;
- the finance, user and email stores;
- the blog editor's validation, the blog management list, the articles
  filter, the navigation highlight test, and the CSV formatter.

JavaScript objects are modelled as insertion-ordered association lists
(`Js.Obj`). This matches JavaScript's property order for every key that is
not an array index; JavaScript lists integer-like keys such as "2024" first,
in numeric order, which the model does not (see Left out below). `o[k]`,
`o[k] = v` and `{...a, ...b}` are defined on `Js.Obj` and their laws
proved. `Number(text)` is a concrete reader of decimal text
(`Numbers.Number`). A standard numeric input holds the stored number it was
opened with (`existingData?.x || ''`) until the user types in it, and from
then on the typed text (`Numbers.Input`). Only custom entries are opened on
`value.toString()`, which is a parameter `toStr`; the custom-entry round trips
assume explicitly that it reads back.

Each form's local state and each store is a class whose methods are the
handlers. Each method's contract states the new state through a
specification function, and the laws of those functions are proved as
lemmas: round trips such as reopening a form and submitting it untouched,
idempotence of adds and deletes, preservation of distinct names, and
agreement of a loop with its recurrence.

## Model

| member | source | states |
|---|---|---|
| Growth.GrowClosedForm | src/components/calculators/InvestmentCalculator.tsx:19-21 | n steps of b := b(1+r)+c satisfy r·b_n = r·b0·(1+r)^n + c·((1+r)^n − 1) |
| Growth.MonthlyRate | src/components/calculators/InvestmentCalculator.tsx:15 | twelve monthly rates, times 100, give back the annual percentage |
| Growth.MonthlyRatePositive | src/components/calculators/LoanCalculator.tsx:14-17 | the monthly rate is positive exactly when the annual percentage is |
| Growth.AmortNonIncreasing | src/components/calculators/LoanCalculator.tsx:40-44 | when the payment exceeds the interest on the principal, the balance at a later month is never higher |
| Growth.AnnuityPayment | src/components/calculators/LoanCalculator.tsx:18-19 | positive on a positive principal, and payment·((1+r)^n − 1) = P·(1+r)^n·r |
| Growth.GrowAtZeroRate | src/components/calculators/InvestmentCalculator.tsx:19-27 | at rate 0 the balance is the start plus n contributions |
| Growth.GrowCompose | src/components/calculators/InvestmentCalculator.tsx:37-46 | m steps followed by n steps are m+n steps, so a yearly chart continues the monthly recurrence |
| Growth.GrowStep | src/components/calculators/InvestmentCalculator.tsx:20 | one loop step moves the balance from Grow(n) to Grow(n+1) |
| Growth.GrowAtLeastContributions | src/components/calculators/SavingsCalculator.tsx:19-22 | with a non-negative rate, start and contribution, the balance is at least start plus contributions |
| Growth.AmortIsGrowth | src/components/calculators/LoanCalculator.tsx:40-44 | a loan balance after k payments is the growth recurrence with contribution −payment |
| Growth.AmortStep | src/components/calculators/LoanCalculator.tsx:40-44 | one payment lowers the balance by the payment less the interest, and the interest accrues |
| Growth.InterestIsPaidMinusRepaid | src/components/calculators/LoanCalculator.tsx:40-44 | accrued interest after k months equals k·payment minus the principal repaid |
| Growth.AnnuityPaysOff | src/components/calculators/LoanCalculator.tsx:18-19 | paying (P·x·r)/(x−1) for n months leaves a balance of exactly 0 |
| Growth.AnnuityTotalInterest | src/components/calculators/LoanCalculator.tsx:20-22 | over a repaid loan the interest accrued is everything paid beyond the principal |
| Growth.AnnuityFacts | src/components/calculators/MortgageCalculator.tsx:33-38 | on a positive principal the annuity payment is positive, repays in n months and its interest is total paid minus principal |
| Growth.AnnuityAboveInterest | src/components/calculators/LoanCalculator.tsx:18-19 | the annuity payment exceeds the first month's interest |
| Growth.AmortDecreasing | src/components/calculators/LoanCalculator.tsx:39-44 | when the payment exceeds the interest on the principal the balance falls every month and never rises above the principal |
| Growth.AnnuityBalanceInRange | src/components/calculators/LoanCalculator.tsx:53 | under the annuity payment the balance stays within [0, principal], so the clamp at 0 never changes it |
| LoanCalculator.CalculateLoan | src/components/calculators/LoanCalculator.tsx:13-29 | all zero unless amount, rate and term are positive; otherwise the payment repays the loan and the totals are payment·n and payment·n − amount |
| Growth.Max0 | src/components/calculators/LoanCalculator.tsx:53 | the result is non-negative, at least x, and equal to x or 0 |
| LoanCalculator.GenerateAmortizationData | src/components/calculators/LoanCalculator.tsx:32-59 | the loop's rows are the specification schedule of every third month plus the last |
| LoanCalculator.RowAtFacts | src/components/calculators/LoanCalculator.tsx:40-52 | principal + interest = payment, interest = prior balance·rate, accrued interest = paid − principal repaid, balance clamped at 0 |
| LoanCalculator.ScheduleRows | src/components/calculators/LoanCalculator.tsx:39-46 | the table lists exactly the months divisible by 3 and the last month, once each, in increasing order |
| LoanCalculator.FinalRowPaysOff | src/components/calculators/LoanCalculator.tsx:18-53 | with the computed payment the last row has balance 0 and accrued interest equal to the reported total interest |
| MortgageCalculator.YearlySchedule | src/components/calculators/MortgageCalculator.tsx:47-72 | term+1 rows, row y being the state after 12·y payments |
| MortgageCalculator.AmortizationByYear | src/components/calculators/MortgageCalculator.tsx:42-72 | the nested loop builds exactly the yearly schedule |
| MortgageCalculator.PayYear | src/components/calculators/MortgageCalculator.tsx:58-64 | twelve payments move balance, total paid and interest paid from month k to month k+12 |
| MortgageCalculator.PayMonth | src/components/calculators/MortgageCalculator.tsx:59-63 | one payment moves balance, total paid and interest paid from month n to n+1 |
| MortgageCalculator.MortgageCalculator.CalculateMortgage | src/components/calculators/MortgageCalculator.tsx:27-76 | with a positive principal, rate and term stores payment, totals and yearly table; otherwise leaves every field unchanged |
| MortgageCalculator.YearlyScheduleFacts | src/components/calculators/MortgageCalculator.tsx:47-72 | year 0 is the principal with nothing paid; each year's balance is in [0, principal]; total paid = 12·y·payment = interest paid + principal repaid; the last balance is 0 |
| MortgageCalculator.MortgageCalculator.constructor | src/components/calculators/MortgageCalculator.tsx:19-23 | every result starts at 0 and the schedule empty |
| InvestmentCalculator.CalculateGrowth | src/components/calculators/InvestmentCalculator.tsx:14-28 | future value is years·12 steps of the recurrence; contributions = initial + c·months; interest = the difference |
| InvestmentCalculator.ZeroReturnNoInterest | src/components/calculators/InvestmentCalculator.tsx:19-27 | with a zero return the future value equals the contributions |
| InvestmentCalculator.NonNegativeReturnGrows | src/components/calculators/InvestmentCalculator.tsx:19-27 | with non-negative inputs the future value is at least the contributions |
| InvestmentCalculator.GenerateGrowthData | src/components/calculators/InvestmentCalculator.tsx:31-51 | labels 0..years; value and contribution of year y are those after 12·y months |
| InvestmentCalculator.GrowthDataMatchesSummary | src/components/calculators/InvestmentCalculator.tsx:23-47 | the chart's contributions are initial + 12·y·c and its last value is the future value |
| SavingsCalculator.CalculateSavings | src/components/calculators/SavingsCalculator.tsx:15-33 | the final balance is the recurrence after `months` steps; monthsToTarget is the first month reaching the target, capped at 600; 0 when the deposit already reaches it |
| SavingsCalculator.MonthsToTargetUnique | src/components/calculators/SavingsCalculator.tsx:26-31 | the search's answer is unique |
| SavingsCalculator.ContributionsBoundMonths | src/components/calculators/SavingsCalculator.tsx:26-31 | if the deposits alone reach the target within j months, the answer is at most j |
| SavingsCalculator.InterestEarnedBounds | src/components/calculators/SavingsCalculator.tsx:472 | the interest shown is 0 at a zero rate and non-negative with non-negative inputs |
| SavingsCalculator.GenerateSavingsData | src/components/calculators/SavingsCalculator.tsx:39-57 | labels 0..months; balance i is the recurrence after i months; contributions i = deposit + i·c |
| SavingsCalculator.Contribute | src/components/calculators/SavingsCalculator.tsx:50 | one step of the running contributions |
| Advisory.EmiList | src/pages/Advisory.tsx:201-204 | one EMI per loan, custom loans included |
| Advisory.CountPositive | src/pages/Advisory.tsx:217 | at most the number of investments |
| Advisory.YearsToFire | src/pages/Advisory.tsx:222-229 | no years without expenses; otherwise the log ratio is FIRE number over assets, with assets of exactly 0 replaced by 1 |
| Advisory.Percent | src/pages/Advisory.tsx:232-233 | 0 when the whole is not positive, else it multiplies back to part·100 |
| Advisory.Ratio | src/pages/Advisory.tsx:234-235 | 0 when the whole is not positive, else it multiplies back to the part |
| Advisory.Metrics | src/pages/Advisory.tsx:198-242 | every ratio of calculateMetrics with its zero guard, FIRE number = 300 months of expenses, diversification = kinds/6·100 |
| Advisory.RatiosAddUp | src/pages/Advisory.tsx:232-233 | with positive income, debt ratio + savings rate + expense share = 100 |
| Advisory.SharesOfIncome | src/pages/Advisory.tsx:232-233 | the algebra behind RatiosAddUp for any income, expenses and EMIs |
| Advisory.FireNumberFourPercentRule | src/pages/Advisory.tsx:222 | 4% of the FIRE number is a year of expenses |
| Advisory.DiversificationScore | src/pages/Advisory.tsx:217-219 | 0 with no positive investment, 100 with six, above 100 with more than six |
| Advisory.OverspentProfile | src/pages/Advisory.tsx:232-233 | nothing clamps the ratios: with positive income the savings rate is negative exactly when expenses plus EMIs exceed income, and the debt ratio passes 100 exactly when EMIs exceed income |
| Advisory.AddInvestment | src/pages/Advisory.tsx:207-219 | a new investment adds its value, its flows and at most one kind to the totals |
| Advisory.IsValidEmailIff | src/pages/Advisory.tsx:132-135 | the check accepts exactly `^[a-zA-Z0-9._-]+@[a-zA-Z0-9.-]+\.[a-zA-Z]{2,}$` |
| Advisory.IsValidEmail | src/pages/Advisory.tsx:132-135 | an accepted address is of the pattern (the converse is IsValidEmailIff) |
| Advisory.CountryName | src/pages/Advisory.tsx:359 | an unknown code gives "United States"; a known one its listed name |
| Advisory.CountUserMessages | src/pages/Advisory.tsx:427-428 | never more than the number of messages |
| Advisory.AdvisoryChat.constructor | src/pages/Advisory.tsx:106-110 | no questions asked and no messages |
| Advisory.AdvisoryChat.HandleSendMessage | src/pages/Advisory.tsx:408-428 | nothing at the cap of 10; otherwise one more question and either the missing-user reply or the user's message; the count never passes the cap |
| Summary.LoanEmi | src/pages/Summary.tsx:37-39 | 0 without the loan, else its EMI |
| Summary.MonthlySavings | src/pages/Summary.tsx:41 | savings + expenses + EMIs = income; savings fall short of income exactly when expenses and EMIs are positive |
| Summary.IncomeAddsBonusShare | src/pages/Summary.tsx:26-28 | the summary's income is the advisory income plus a twelfth of the bonus |
| Summary.MonthlyIncome | src/pages/Summary.tsx:26-28 | twelve months of it are the advisory page's annual income, bonus included |
| Summary.MonthlyExpenses | src/pages/Summary.tsx:30-35 | 0 without an expense section; never negative when none of the six amounts is |
| Summary.TotalEmis | src/pages/Summary.tsx:37-39 | 0 without a loan section; never negative when none of the three EMIs is |
| Summary.KeepPositive | src/pages/Summary.tsx:50 | keeps exactly the entries with a positive value |
| Summary.KeepPositiveAppend | src/pages/Summary.tsx:43-50 | the filter keeps the fixed category order |
| Summary.KeepPositiveSum | src/pages/Summary.tsx:43-50 | with no negative values, filtering does not change the sum |
| Summary.SliceSumAppend | src/pages/Summary.tsx:284 | the sum of a concatenation is the sum of its parts |
| Summary.ExpenseSlices | src/pages/Summary.tsx:43-49 | the six standard expenses in fixed order |
| Summary.InvestmentSlices | src/pages/Summary.tsx:59-65 | the six investment values in fixed order |
| Summary.FlowSlices | src/pages/Summary.tsx:68-74 | each investment's contribution, except real estate which gives its income |
| Summary.ExpenseBreakdownTotal | src/pages/Summary.tsx:30-50 | with no negative amounts, the expense chart adds up to the monthly expenses |
| Summary.SixSlices | src/pages/Summary.tsx:30-35 | a six-slice sum written out |
| Summary.CustomExpenseIgnored | src/pages/Summary.tsx:30-35 | an expense under a non-standard key changes neither the total nor the chart |
| Summary.SlicesFromAmounts | src/pages/Summary.tsx:43-49 | the expense chart depends only on the six standard amounts |
| Summary.TotalFromAmounts | src/pages/Summary.tsx:30-35 | the monthly expenses depend only on the six standard amounts |
| Summary.CustomLoanIgnored | src/pages/Summary.tsx:37-39 | a loan under a custom key does not change the EMI total |
| Numbers.Number | src/pages/ExpenseDetailsForm.tsx:60 | blank text reads as 0 |
| Numbers.NumberOfDigits | src/pages/ExpenseDetailsForm.tsx:60 | digit text reads as the number it spells |
| Numbers.NumberOrZero | src/pages/ExpenseDetailsForm.tsx:72 | NaN becomes 0, a number stays |
| Numbers.ShowAmount | src/pages/ExpenseDetailsForm.tsx:20 | the input is filled exactly when the amount is not 0; a stored 0 opens empty |
| Numbers.ShowAmountRoundTrip | src/pages/ExpenseDetailsForm.tsx:20-72 | every stored amount, opened and left untouched, reads back as itself |
| Numbers.InputOrZero | src/pages/ExpenseDetailsForm.tsx:72 | a held number is itself; typed text is `Number(..) \|\| 0` |
| Numbers.NatToString | src/pages/LoanDetailsForm.tsx:111 | non-empty decimal digits |
| Numbers.NatToStringValue | src/pages/LoanDetailsForm.tsx:111 | the digits spell the number |
| Numbers.NatToStringRoundTrip | src/pages/LoanDetailsForm.tsx:111 | reading the text back gives the number |
| Numbers.NatToStringInjective | src/pages/LoanDetailsForm.tsx:111 | distinct indices give distinct `custom_<index>` texts |
| Strings.ToLower | src/pages/Articles.tsx:154 | same length, letters lower-cased |
| Strings.TrimStart | src/pages/ExpenseDetailsForm.tsx:88 | a suffix of the text, not starting with white space, empty only for all-white-space text |
| Strings.TrimEnd | src/pages/ExpenseDetailsForm.tsx:88 | a prefix of the text, not ending with white space |
| Strings.TrimEmptyIff | src/components/AddCustomField.tsx:20 | text trims to "" exactly when it is all white space |
| Strings.Trim | src/components/AddCustomField.tsx:20 | a trimmed text neither starts nor ends with white space |
| Strings.ReplaceSpaceRunsNoSpaces | src/pages/ExpenseDetailsForm.tsx:57 | a key never contains white space |
| Strings.ReplaceSpaceRunsIdentity | src/pages/ExpenseDetailsForm.tsx:57 | text without white space is unchanged |
| Strings.ReplaceOneSpace | src/pages/ExpenseDetailsForm.tsx:57 | two words joined by one space are joined by the separator |
| Strings.ToLowerCapitalize | src/pages/ExpenseDetailsForm.tsx:37 | lower-casing undoes capitalisation |
| Strings.UnderscoreRoundTrip | src/pages/ExpenseDetailsForm.tsx:37 | '_' to ' ' and back gives the key |
| Strings.TitleCaseRoundTrip | src/pages/ExpenseDetailsForm.tsx:37-57 | a stored key shown as Title Case and keyed again gives the same key |
| Strings.TitleCase | src/pages/ExpenseDetailsForm.tsx:37 | same length as the key, and equal to the key with '_' read as ' ' up to the case of letters |
| Strings.SnakeKey | src/pages/ExpenseDetailsForm.tsx:57 | the stored key never holds white space |
| Strings.IndexOf | src/pages/PersonalDetailsForm.tsx:58 | the first position of c, or −1 exactly when c is absent |
| Strings.LastIndexOf | src/pages/Advisory.tsx:133 | the last position of c, or −1 exactly when c is absent |
| Strings.IndexOfIsFirst | src/pages/PersonalDetailsForm.tsx:58 | a position holding c with no c before it is the one found |
| Strings.LastIndexOfIsLast | src/pages/Advisory.tsx:133 | a position holding c with no c after it is the one found |
| Js.Get | src/pages/ExpenseDetailsForm.tsx:66 | the value of the first entry with the key, None exactly when absent |
| Js.Put | src/pages/ExpenseDetailsForm.tsx:66 | an existing key is replaced in place, a new key appended |
| Js.PutKeepsUnique | src/pages/ExpenseDetailsForm.tsx:66 | assigning a key keeps the keys distinct |
| Js.GetPut | src/pages/ExpenseDetailsForm.tsx:66 | after `o[k] = v`, k reads v and other keys read as before |
| Js.Merge | src/pages/ExpenseDetailsForm.tsx:71-79 | `{...a, ...b}` keeps distinct keys |
| Js.GetMerge | src/pages/ExpenseDetailsForm.tsx:71-79 | a key of the spread reads b's value when b has it, else a's |
| Js.GetPutAll | src/pages/ExpenseDetailsForm.tsx:52-68 | after assignments in order, each key reads its last assignment |
| Js.PresentHas | src/pages/ExpenseDetailsForm.tsx:54 | every present value is collected |
| Js.PresentFrom | src/pages/ExpenseDetailsForm.tsx:54 | every collected value is present |
| Js.SumAppend | src/pages/Advisory.tsx:201-204 | the sum of a concatenation is the sum of its parts |
| CustomFields.AcceptedLabelKey | src/pages/ExpenseDetailsForm.tsx:37-57 | an accepted label's key has no white space, capitals or "__", so the Title Case round trip keeps it |
| CustomFields.AppendName | src/pages/ExpenseDetailsForm.tsx:86-99 | an appended name is taken afterwards and distinct names stay distinct |
| CustomFields.AddField | src/pages/ExpenseDetailsForm.tsx:86-99 | a name matching a label (lower-cased, trimmed) leaves the list; any other is appended with an empty value |
| CustomFields.AddFieldIdempotent | src/pages/ExpenseDetailsForm.tsx:86-99 | adding the same name twice is adding it once |
| CustomFields.AddFieldKeepsDistinct | src/pages/ExpenseDetailsForm.tsx:86-99 | distinct labels stay distinct |
| CustomFields.CustomData | src/pages/ExpenseDetailsForm.tsx:52-68 | the reduction result has distinct keys |
| CustomFields.CustomDataStep | src/pages/ExpenseDetailsForm.tsx:54-66 | a kept field is put under its key; an empty or NaN field changes nothing |
| CustomFields.KeptFieldWrites | src/pages/ExpenseDetailsForm.tsx:54-66 | every kept field makes its assignment |
| CustomFields.WritesFromKeptFields | src/pages/ExpenseDetailsForm.tsx:54-66 | every assignment comes from a kept field |
| CustomFields.CustomDataGet | src/pages/ExpenseDetailsForm.tsx:52-68 | each key reads its last kept field's amount; no stored key has white space |
| CustomFields.ReduceCustomFields | src/pages/ExpenseDetailsForm.tsx:52-68 | the loop computes the specified reduction |
| CustomFields.ReduceStep | src/pages/ExpenseDetailsForm.tsx:54-66 | one reducer call is one step of the specification |
| CustomFields.StandardEntries | src/pages/ExpenseDetailsForm.tsx:72-77 | one entry per standard key, in form order, with `Number(..) || 0` |
| CustomFields.FormRecordGet | src/pages/ExpenseDetailsForm.tsx:71-79 | the record starts with the standard keys; a standard key reads its value unless a custom key overrides it; custom keys read their amount |
| CustomFields.InitFields | src/pages/ExpenseDetailsForm.tsx:33-39 | every non-standard stored entry, in order, labelled in Title Case |
| CustomFields.InitThenReduce | src/pages/ExpenseDetailsForm.tsx:33-68 | loading and reducing again stores every custom amount under its own key |
| CustomFields.InitFieldsAvoidStandard | src/pages/ExpenseDetailsForm.tsx:33-39 | the loaded custom fields never write to a standard key |
| AmountForms.StandardKeys | src/pages/ExpenseDetailsForm.tsx:33 | the standard keys are distinct |
| AmountForms.RequiredFields | src/pages/ExpenseDetailsForm.tsx:101 | required positions are standard fields |
| AmountForms.InitialInput | src/pages/ExpenseDetailsForm.tsx:20-25 | the stored number, or empty without a stored section, for an absent key and for a stored 0 |
| AmountForms.InitialInputs | src/pages/ExpenseDetailsForm.tsx:19-26 | one opening input per standard key, in form order |
| AmountForms.AmountForm.constructor | src/pages/ExpenseDetailsForm.tsx:19-46 | each input shows its stored amount; the custom fields are loaded from the stored record |
| AmountForms.AmountForm.SetValue | src/pages/ExpenseDetailsForm.tsx:113 | only that input changes |
| AmountForms.AmountForm.SetCustomValue | src/pages/ExpenseDetailsForm.tsx:155-158 | only that custom field's value changes |
| AmountForms.AmountForm.HandleAddCustomField | src/pages/ExpenseDetailsForm.tsx:86-99 | the custom fields become AddField of the old ones |
| AmountForms.AmountForm.HandleSubmit | src/pages/ExpenseDetailsForm.tsx:50-83 | the record goes to the expense (or income) section and nothing else changes |
| AmountForms.AmountForm.IsValid | src/pages/ExpenseDetailsForm.tsx:101 | the expense form needs housing, utilities and groceries filled; the income form salary and savings |
| AmountForms.RecordFields | src/pages/IncomeDetailsForm.tsx:69-76 | standard fields read their converted text unless overridden; custom keys read their last kept field |
| AmountForms.ReopenKeepsCustomAmounts | src/pages/IncomeDetailsForm.tsx:29-76 | reopening and submitting untouched stores every custom amount back under its key |
| AmountForms.ReopenKeepsStandardAmounts | src/pages/ExpenseDetailsForm.tsx:19-79 | reopening and submitting untouched stores every standard amount back, and 0 for a standard key the section lacks |
| AmountForms.ReopenKeepsKey | src/pages/IncomeDetailsForm.tsx:19-76 | the same for any distinct list of standard keys |
| AmountForms.StoredInputReadsBack | src/pages/ExpenseDetailsForm.tsx:20-72 | the input a stored key opens with reads back as its amount, or 0 when the key is absent |
| FieldBox.CheckLabel | src/components/AddCustomField.tsx:19-29 | empty exactly when the trim is empty; accepted exactly when the trim matches `^[a-zA-Z0-9 ]+$`, with the trimmed label |
| FieldBox.TrimTwice | src/components/AddCustomField.tsx:32 | trimming is idempotent |
| FieldBox.AcceptedLabelShape | src/components/AddCustomField.tsx:26-32 | the label handed on is non-empty, starts and ends with a letter or digit, and is accepted unchanged again |
| FieldBox.BlankLabelRefused | src/components/AddCustomField.tsx:20-23 | an all-white-space label is refused as empty |
| FieldBox.AcceptedLabelKeyed | src/components/AddCustomField.tsx:32 | the stored key of an accepted label is key-shaped and survives the Title Case round trip |
| FieldBox.AddCustomField.Open | src/components/AddCustomField.tsx:43 | the box opens; label and error stay |
| FieldBox.AddCustomField.constructor | src/components/AddCustomField.tsx:9-11 | the box is closed, with no label and no error |
| FieldBox.AddCustomField.SetLabel | src/components/AddCustomField.tsx:62 | only the label changes |
| FieldBox.AddCustomField.Cancel | src/components/AddCustomField.tsx:81 | the box closes; label and error stay |
| FieldBox.AddCustomField.HandleSubmit | src/components/AddCustomField.tsx:13-37 | refused labels show their message and keep the box; an accepted label is handed on trimmed, clearing text and error and closing |
| LoanForm.MarkRequired | src/pages/LoanDetailsForm.tsx:83 | the message is added under the loan, other keys and fields unchanged |
| LoanForm.MarkIfBlankGet | src/pages/LoanDetailsForm.tsx:82-90 | a blank field adds the message under its loan; nothing else changes |
| LoanForm.WithFieldInput | src/pages/LoanDetailsForm.tsx:207-211 | replacing a field changes that field and no other |
| LoanForm.ValidateLoanData | src/pages/LoanDetailsForm.tsx:74-94 | the errors keep distinct keys |
| LoanForm.ValidateKeys | src/pages/LoanDetailsForm.tsx:78-91 | touches only its own loan, keeps every key, gives the loan a key exactly when it had one or is partly filled |
| LoanForm.ValidateMessages | src/pages/LoanDetailsForm.tsx:81-91 | each blank field of a partly filled loan gets the message; others keep their old message |
| LoanForm.EntriesUnique | src/pages/LoanDetailsForm.tsx:100-113 | every visited loan has its own error key |
| LoanForm.AllErrorsHasKey | src/pages/LoanDetailsForm.tsx:96-114 | a key has errors exactly when it had them before or a loan under it is partly filled |
| LoanForm.AllErrors | src/pages/LoanDetailsForm.tsx:96-114 | the errors of validating the loans in turn, each from the previous errors |
| LoanForm.PreviousErrorsPersist | src/pages/LoanDetailsForm.tsx:78 | a previous error is never dropped, so a failed form fails every later check |
| LoanForm.FirstCheck | src/pages/LoanDetailsForm.tsx:96-117 | from no errors the check passes exactly when every loan is blank or complete |
| LoanForm.FirstCheckMessages | src/pages/LoanDetailsForm.tsx:96-117 | from no errors each loan shows the messages of validating it alone |
| LoanForm.FirstCheckFieldMessages | src/pages/LoanDetailsForm.tsx:81-91 | on a first check exactly the blank fields of a partly filled loan show the message |
| LoanForm.CustomLoansDataStep | src/pages/LoanDetailsForm.tsx:124-138 | a filled loan is put under its key; a blank one changes nothing |
| LoanForm.LoanWritesFromFilled | src/pages/LoanDetailsForm.tsx:125-136 | every assignment comes from a non-blank loan |
| LoanForm.FilledLoanWrites | src/pages/LoanDetailsForm.tsx:125-136 | every non-blank loan makes its assignment |
| LoanForm.CustomLoansGet | src/pages/LoanDetailsForm.tsx:123-139 | each key reads its last loan; blank loans store nothing; no key has white space |
| LoanForm.ReduceCustomLoans | src/pages/LoanDetailsForm.tsx:123-139 | the loop computes the specified reduction |
| LoanForm.ReduceStep | src/pages/LoanDetailsForm.tsx:124-138 | one reducer call is one step of the specification |
| LoanForm.StandardThenCustom | src/pages/LoanDetailsForm.tsx:141-158 | the spread starts with the three standard keys; custom keys override |
| LoanForm.LoanRecordGet | src/pages/LoanDetailsForm.tsx:141-158 | standard loans read their form values unless overridden; custom keys read their last loan |
| LoanForm.AddLoanOnce | src/pages/LoanDetailsForm.tsx:165-189 | after an add the name is refused; distinct names stay distinct |
| LoanForm.AddLoan | src/pages/LoanDetailsForm.tsx:165-189 | a refused name leaves the list; any other is appended as a blank loan |
| LoanForm.CapitalizedStandardRefused | src/pages/LoanDetailsForm.tsx:167-173 | a standard loan type in any capitalisation is refused |
| LoanForm.InitialFields | src/pages/LoanDetailsForm.tsx:29-45 | a loan opens on its stored numbers, with an empty input for an absent or zero field |
| LoanForm.InitLoans | src/pages/LoanDetailsForm.tsx:53-63 | the non-standard stored loans in Title Case |
| LoanForm.CheckLoans | src/pages/LoanDetailsForm.tsx:96-114 | the two loops compute the specified error object |
| LoanForm.LoanForm.IsFormValid | src/pages/LoanDetailsForm.tsx:96-117 | stores the merged errors and returns true exactly when there are none |
| LoanForm.LoanForm.constructor | src/pages/LoanDetailsForm.tsx:29-63 | the standard loans open on their stored numbers, the custom loans are loaded, and there are no errors |
| LoanForm.LoanForm.HandleSubmit | src/pages/LoanDetailsForm.tsx:119-163 | stores the loan record only when the check passes |
| LoanForm.LoanForm.HandleAddCustomLoan | src/pages/LoanDetailsForm.tsx:165-189 | a refused name leaves the list; any other is appended blank |
| LoanForm.LoanForm.SetStandardField | src/pages/LoanDetailsForm.tsx:205-340 | only that field of that standard loan changes, to the typed text |
| LoanForm.LoanForm.SetCustomField | src/pages/LoanDetailsForm.tsx:353-392 | only that field of that custom loan changes, to the typed text |
| LoanForm.FixedFormStillFails | src/pages/LoanDetailsForm.tsx:78 | completing a partly filled loan does not clear its errors: the second check still fails |
| InvestmentForm.StandardInvestmentsDistinct | src/pages/InvestmentDetailsForm.tsx:52 | the six standard keys are distinct |
| InvestmentForm.IncomeOf | src/pages/InvestmentDetailsForm.tsx:104-107 | real estate carries an income and no contribution |
| InvestmentForm.ContributionOf | src/pages/InvestmentDetailsForm.tsx:92-95 | the others carry a contribution and no income |
| InvestmentForm.StandardInvestmentEntries | src/pages/InvestmentDetailsForm.tsx:91-115 | six entries with the standard keys in order |
| InvestmentForm.CustomInvestmentsDataStep | src/pages/InvestmentDetailsForm.tsx:75-88 | a filled investment is put under its key; a blank one changes nothing |
| InvestmentForm.InvestmentWritesFromFilled | src/pages/InvestmentDetailsForm.tsx:76-86 | every assignment comes from a non-blank investment |
| InvestmentForm.FilledInvestmentWrites | src/pages/InvestmentDetailsForm.tsx:76-86 | every non-blank investment makes its assignment |
| InvestmentForm.CustomInvestmentsGet | src/pages/InvestmentDetailsForm.tsx:74-89 | each key reads its last investment; blank ones store nothing; no key has white space |
| InvestmentForm.CustomInvestmentsContribute | src/pages/InvestmentDetailsForm.tsx:83-86 | custom investments are stored with a contribution, never an income |
| InvestmentForm.ReduceCustomInvestments | src/pages/InvestmentDetailsForm.tsx:74-89 | the loop computes the specified reduction |
| InvestmentForm.ReduceStep | src/pages/InvestmentDetailsForm.tsx:75-88 | one reducer call is one step of the specification |
| InvestmentForm.InvestmentRecordShape | src/pages/InvestmentDetailsForm.tsx:91-117 | the record starts with the six standard keys and has no key twice |
| InvestmentForm.InvestmentRecordCustom | src/pages/InvestmentDetailsForm.tsx:91-117 | a custom key reads its last custom investment |
| InvestmentForm.InvestmentRecordStandard | src/pages/InvestmentDetailsForm.tsx:91-117 | a standard key not overridden reads its form values |
| InvestmentForm.RealEstateHasIncome | src/pages/InvestmentDetailsForm.tsx:104-107 | unless overridden, real estate is stored with an income |
| InvestmentForm.AddInvestment | src/pages/InvestmentDetailsForm.tsx:124-148 | a refused name leaves the list; any other is appended blank |
| InvestmentForm.AddInvestmentOnce | src/pages/InvestmentDetailsForm.tsx:124-148 | after an add the name is refused; distinct names stay distinct |
| InvestmentForm.MutualFundsRefused | src/pages/InvestmentDetailsForm.tsx:129 | "Mutual Funds" is refused as the standard `mutualFunds` |
| InvestmentForm.TwoWordsRefused | src/pages/InvestmentDetailsForm.tsx:129 | two standard words joined by white space are refused |
| InvestmentForm.ShowMonthly | src/pages/InvestmentDetailsForm.tsx:23 | an absent or zero monthly amount opens empty, any other is held |
| InvestmentForm.InitialFields | src/pages/InvestmentDetailsForm.tsx:20-45 | a standard investment opens empty without a stored one |
| InvestmentForm.ReopenKeepsStandard | src/pages/InvestmentDetailsForm.tsx:20-117 | reopening and submitting untouched stores the standard investment back |
| InvestmentForm.ShowPresent | src/pages/InvestmentDetailsForm.tsx:59-60 | an absent amount opens empty; a present one as its printed text |
| InvestmentForm.InitInvestments | src/pages/InvestmentDetailsForm.tsx:52-61 | the non-standard stored investments in Title Case |
| InvestmentForm.InvestmentForm.constructor | src/pages/InvestmentDetailsForm.tsx:20-68 | the inputs show the stored investments |
| InvestmentForm.InvestmentForm.SetStandardValue | src/pages/InvestmentDetailsForm.tsx:164-172 | only that investment's value changes, to the typed text |
| InvestmentForm.InvestmentForm.SetStandardMonthly | src/pages/InvestmentDetailsForm.tsx:177-185 | only that investment's monthly amount changes, to the typed text |
| InvestmentForm.InvestmentForm.SetCustomValue | src/pages/InvestmentDetailsForm.tsx:363-369 | only that custom investment's value changes, to the typed text |
| InvestmentForm.InvestmentForm.SetCustomMonthly | src/pages/InvestmentDetailsForm.tsx:375-381 | only that custom investment's monthly amount changes, to the typed text |
| InvestmentForm.InvestmentForm.HandleSubmit | src/pages/InvestmentDetailsForm.tsx:72-122 | the record goes to the investments section and nothing else changes |
| InvestmentForm.InvestmentForm.HandleAddCustomInvestment | src/pages/InvestmentDetailsForm.tsx:124-148 | the list becomes AddInvestment of the old one |
| InsuranceForm.LowerNames | src/pages/InsuranceDetailsForm.tsx:71 | one lower-cased name per policy |
| InsuranceForm.CheckCustomInsurance | src/pages/InsuranceDetailsForm.tsx:53-91 | the first failing check in the handler's order (blank name, standard type, duplicate, no amount), else the policy to add |
| InsuranceForm.AddKeepsNamesDistinct | src/pages/InsuranceDetailsForm.tsx:71-89 | names stay distinct and a name just added is refused as a duplicate |
| InsuranceForm.AppendedNameExists | src/pages/InsuranceDetailsForm.tsx:89 | the appended name exists and new names keep distinctness |
| InsuranceForm.CapitalizedStandardRefused | src/pages/InsuranceDetailsForm.tsx:65-69 | a standard type in any capitalisation is refused |
| InsuranceForm.PaddedStandardAccepted | src/pages/InsuranceDetailsForm.tsx:65-69 | "health " with a trailing space passes the name checks, since the standard check does not trim |
| InsuranceForm.SpliceStart | src/pages/InsuranceDetailsForm.tsx:96 | where `splice(index, 1)` starts, negative indices counting from the end |
| InsuranceForm.RemoveAt | src/pages/InsuranceDetailsForm.tsx:94-98 | removes at most one policy |
| InsuranceForm.RemoveAtTakesOne | src/pages/InsuranceDetailsForm.tsx:94-98 | exactly one policy goes (none past the end); the rest keep their order |
| InsuranceForm.RemoveKeepsNamesDistinct | src/pages/InsuranceDetailsForm.tsx:94-98 | removing keeps names distinct |
| InsuranceForm.InitialStandard | src/pages/InsuranceDetailsForm.tsx:17-22 | empty inputs without a stored record |
| InsuranceForm.CoverOf | src/pages/InsuranceDetailsForm.tsx:35-38 | each amount is `Number(..) || 0` |
| InsuranceForm.ReopenKeepsInsurance | src/pages/InsuranceDetailsForm.tsx:17-49 | reopening and pressing next stores the same record |
| InsuranceForm.ShownCoverRoundTrip | src/pages/InsuranceDetailsForm.tsx:17-38 | the two inputs any stored cover opens with read back to the cover |
| InsuranceForm.InsuranceForm.constructor | src/pages/InsuranceDetailsForm.tsx:17-29 | the texts show the stored record; no custom policies or errors |
| InsuranceForm.InsuranceForm.SetStandardInput | src/pages/InsuranceDetailsForm.tsx:116-170 | only that input of that standard policy changes, to the typed text |
| InsuranceForm.InsuranceForm.HandleNext | src/pages/InsuranceDetailsForm.tsx:33-51 | the three standard policies go to the insurance section; nothing else changes |
| InsuranceForm.InsuranceForm.HandleAddCustomInsurance | src/pages/InsuranceDetailsForm.tsx:53-92 | both errors cleared, then the first failed check's error, or the policy appended and the draft cleared |
| InsuranceForm.InsuranceForm.Apply | src/pages/InsuranceDetailsForm.tsx:55-91 | the state updates for each outcome; names stay distinct |
| InsuranceForm.InsuranceForm.RemoveCustomInsurance | src/pages/InsuranceDetailsForm.tsx:94-98 | the list becomes RemoveAt of the old one |
| PersonalForm.MatchesEmailIff | src/pages/PersonalDetailsForm.tsx:58-59 | the test accepts exactly `^[^\s@]+@[^\s@]+\.[^\s@]+$` |
| PersonalForm.MatchesEmail | src/pages/PersonalDetailsForm.tsx:58-59 | an accepted address is of the pattern (the converse is MatchesEmailIff) |
| PersonalForm.SplitMatches | src/pages/PersonalDetailsForm.tsx:58-59 | any split of the pattern is found by the test |
| PersonalForm.AdvisoryEmailAccepted | src/pages/PersonalDetailsForm.tsx:58-59 | every address the advisory page accepts passes this form's test |
| PersonalForm.ValidateEmail | src/pages/PersonalDetailsForm.tsx:51-63 | either no error or the invalid-address message |
| PersonalForm.ValidateEmailIff | src/pages/PersonalDetailsForm.tsx:51-63 | no error exactly for an empty email or one of the pattern |
| PersonalForm.ShowNumber | src/pages/PersonalDetailsForm.tsx:42 | a stored NaN opens empty; a number opens as ShowAmount does |
| PersonalForm.InitialInputs | src/pages/PersonalDetailsForm.tsx:39-45 | empty inputs without stored details |
| PersonalForm.DetailsOf | src/pages/PersonalDetailsForm.tsx:79-85 | texts kept; age and dependents are `Number(..)` |
| PersonalForm.UpdatedUser | src/pages/PersonalDetailsForm.tsx:88-94 | same id and tracking id, the form's email unless empty, the form's name |
| PersonalForm.ShowNumberRoundTrip | src/pages/PersonalDetailsForm.tsx:42-84 | every stored number other than NaN reads back |
| PersonalForm.ReopenKeepsPersonal | src/pages/PersonalDetailsForm.tsx:39-85 | reopening and submitting untouched stores the same details whenever age and dependents are numbers |
| PersonalForm.ReopenZeroesNaNAge | src/pages/PersonalDetailsForm.tsx:42-82 | a stored NaN age comes back as 0 |
| PersonalForm.ReopenedValidity | src/pages/PersonalDetailsForm.tsx:39-103 | a reopened form can go on exactly when name and occupation are set and age and dependents are non-zero numbers, so 0 dependents must be retyped |
| PersonalForm.PersonalForm.HandleEmailChange | src/pages/PersonalDetailsForm.tsx:65-68 | the email and its error are updated together |
| PersonalForm.PersonalForm.constructor | src/pages/PersonalDetailsForm.tsx:39-49 | the inputs open on the stored details, with no email error |
| PersonalForm.PersonalForm.SetFullName | src/pages/PersonalDetailsForm.tsx:115 | only the name changes |
| PersonalForm.PersonalForm.SetAge | src/pages/PersonalDetailsForm.tsx:133 | only the age changes, to the typed text |
| PersonalForm.PersonalForm.SetOccupation | src/pages/PersonalDetailsForm.tsx:140 | only the occupation changes |
| PersonalForm.PersonalForm.SetDependents | src/pages/PersonalDetailsForm.tsx:148 | only the dependents change, to the typed text |
| PersonalForm.PersonalForm.HandleSubmit | src/pages/PersonalDetailsForm.tsx:70-97 | a bad email only shows its error; otherwise the details are stored and a current user takes email and name, keeping its id |
| PersonalForm.EmailChangeValidity | src/pages/PersonalDetailsForm.tsx:65-68 | after typing, no error exactly for an empty email or one of the pattern |
| FinanceStore.FinanceStore.SetPersonalDetails | src/store/financeStore.ts:44-45 | only the personal section changes |
| FinanceStore.FinanceStore.constructor | src/store/financeStore.ts:43 | the empty profile |
| FinanceStore.FinanceStore.SetIncomeDetails | src/store/financeStore.ts:46-47 | only the income section changes |
| FinanceStore.FinanceStore.SetExpenseDetails | src/store/financeStore.ts:48-49 | only the expenses section changes |
| FinanceStore.FinanceStore.SetLoanDetails | src/store/financeStore.ts:50-51 | only the loans section changes |
| FinanceStore.FinanceStore.SetInsuranceDetails | src/store/financeStore.ts:52-53 | only the insurance section changes |
| FinanceStore.FinanceStore.SetInvestmentDetails | src/store/financeStore.ts:54-55 | only the investments section changes |
| FinanceStore.FinanceStore.ResetData | src/store/financeStore.ts:56 | the empty profile |
| FinanceStore.SetTwiceIsSetOnce | src/store/financeStore.ts:46-47 | a usage example for the income section only: setting it twice with one value is setting it once |
| FinanceStore.ResetAfterSet | src/store/financeStore.ts:44-56 | a usage example: reset after SetPersonalDetails gives the empty profile |
| UserStore.UserStore.SetCurrentUser | src/store/userStore.ts:23 | the user is set and authenticated |
| UserStore.UserStore.constructor | src/store/userStore.ts:21-22 | no user and not authenticated |
| UserStore.UserStore.ClearCurrentUser | src/store/userStore.ts:24 | no user and not authenticated |
| UserStore.UserStore.Partialize | src/store/userStore.ts:29-32 | the user is persisted, the authentication flag never |
| UserStore.SetThenClear | src/store/userStore.ts:23-24 | set then clear returns to the initial state |
| EmailStore.Dedup | src/store/emailStore.ts:20 | no duplicates, the same elements, never longer |
| EmailStore.DedupAppend | src/store/emailStore.ts:20 | first occurrences in order: a further element is dropped when already seen, otherwise it goes to the end |
| EmailStore.DedupOfDistinct | src/store/emailStore.ts:20 | a list without duplicates is unchanged |
| EmailStore.WithEmail | src/store/emailStore.ts:19-21 | no duplicates, holds the email, nothing else new |
| EmailStore.WithEmailOnDistinct | src/store/emailStore.ts:19-21 | a present email changes nothing; a new one is appended at the end |
| EmailStore.WithEmailIdempotent | src/store/emailStore.ts:19-21 | adding twice is adding once |
| EmailStore.EmailStore.AddNewsletterEmail | src/store/emailStore.ts:19-21 | the newsletter list becomes WithEmail of the old; the other list is unchanged |
| EmailStore.EmailStore.constructor | src/store/emailStore.ts:16-17 | both lists empty |
| EmailStore.EmailStore.AddAdvisoryEmail | src/store/emailStore.ts:23-25 | the advisory list becomes WithEmail of the old; the other list is unchanged |
| BlogEditor.With | src/components/blog/BlogEditor.tsx:99 | only the named input changes |
| BlogEditor.BlankFieldsHas | src/components/blog/BlogEditor.tsx:45-50 | an input is blank exactly when its trim is empty |
| BlogEditor.CheckStep | src/components/blog/BlogEditor.tsx:45-50 | one `if` extends the checked inputs by one |
| BlogEditor.AllChecked | src/components/blog/BlogEditor.tsx:43-53 | after six checks the errors are exactly the blank inputs with their messages, empty exactly when none is blank |
| BlogEditor.CollectErrors | src/components/blog/BlogEditor.tsx:43-50 | the six checks cover every input |
| BlogEditor.CheckField | src/components/blog/BlogEditor.tsx:45-50 | one check covers one more input |
| BlogEditor.BlogEditor.ValidateForm | src/components/blog/BlogEditor.tsx:42-54 | errors exactly for the blank inputs, each with its message; true exactly when no input is blank |
| BlogEditor.BlogEditor.constructor | src/components/blog/BlogEditor.tsx:12-22 | every input empty, unpublished, no errors |
| BlogEditor.BlogEditor.HandleInputChange | src/components/blog/BlogEditor.tsx:95-105 | only that input changes; a shown error for it becomes ""; other errors and the keys stay |
| BlogManagement.WithoutPostHas | src/pages/BlogManagement.tsx:78 | a post survives exactly when it was listed with another id |
| BlogManagement.WithoutPost | src/pages/BlogManagement.tsx:78 | the posts kept all have another id, and a list without the id is unchanged |
| BlogManagement.WithoutPostAppend | src/pages/BlogManagement.tsx:78 | the filter keeps the order |
| BlogManagement.WithoutAbsentPost | src/pages/BlogManagement.tsx:78 | a list without the id is unchanged |
| BlogManagement.DeleteTwice | src/pages/BlogManagement.tsx:78 | deleting an id again changes nothing |
| BlogManagement.SetPublished | src/pages/BlogManagement.tsx:91-95 | same length, ids and titles; posts with the id get the flag, others keep theirs |
| BlogManagement.ToggleBack | src/pages/BlogManagement.tsx:91-95 | toggling and toggling back restores the list |
| BlogManagement.BlogManagement.HandleDeletePost | src/pages/BlogManagement.tsx:71-84 | nothing without confirmation; a failed call keeps the list; success removes that id's posts; each outcome's notice |
| BlogManagement.BlogManagement.constructor | src/pages/BlogManagement.tsx:10-15 | no posts, no notification, the editor closed on no post |
| BlogManagement.BlogManagement.HandleTogglePublish | src/pages/BlogManagement.tsx:86-105 | a failed call keeps the list; success sets the flag on that id's posts; each outcome's notice |
| BlogManagement.BlogManagement.HandleCreatePost | src/pages/BlogManagement.tsx:61-64 | the editor opens on no post |
| BlogManagement.BlogManagement.HandleEditPost | src/pages/BlogManagement.tsx:66-69 | the editor opens on the post |
| BlogManagement.BlogManagement.HandleEditorClose | src/pages/BlogManagement.tsx:124-129 | the editor closes; the list is reloaded exactly when a post was saved |
| Articles.FeaturedArticles | src/pages/Articles.tsx:147 | only featured articles of the list |
| Articles.RegularArticles | src/pages/Articles.tsx:148 | only non-featured articles of the list |
| Articles.FeaturedRegularPartition | src/pages/Articles.tsx:147-148 | the two lists hold each article exactly once |
| Articles.FilteredIff | src/pages/Articles.tsx:153-158 | shown exactly when regular and matching; order kept |
| Articles.Matches | src/pages/Articles.tsx:153-158 | a match is in the selected category or 'All' is selected; with an empty search the category alone decides |
| Articles.FilteredArticles | src/pages/Articles.tsx:153-158 | no more articles than the regular ones, and every one shown matches |
| Articles.EmptySearchShowsAll | src/pages/Articles.tsx:153-158 | no search and 'All' show every regular article |
| MainLayout.RootActiveOnlyOnRoot | src/layouts/MainLayout.tsx:50-51 | the dashboard link is highlighted on '/' only |
| MainLayout.IsActive | src/layouts/MainLayout.tsx:50-51 | a highlighted link's path is a prefix of the current path |
| MainLayout.PrefixActivates | src/layouts/MainLayout.tsx:50-51 | any text after a link's path highlights it, with no '/' boundary |
| MainLayout.ActiveItems | src/layouts/MainLayout.tsx:45-51 | exactly the positions of highlighted links |
| MainLayout.AtMostOneActive | src/layouts/MainLayout.tsx:21-26 | for any path at most one of the four links is highlighted |
| MainLayout.OneActive | src/layouts/MainLayout.tsx:153-154 | two different links are never highlighted together |
| MainLayout.MobileMenu.Toggle | src/layouts/MainLayout.tsx:135 | the menu button flips the menu |
| MainLayout.MobileMenu.constructor | src/layouts/MainLayout.tsx:16 | the menu starts closed |
| MainLayout.MobileMenu.FollowLink | src/layouts/MainLayout.tsx:158 | a menu link closes the menu |
| CsvFormat.CellTexts | src/utils/dataExport/formatters.ts:4-6 | one text per value, JSON for objects |
| CsvFormat.SplitJoin | src/utils/dataExport/formatters.ts:3 | joining with ',' is undone by splitting when no part holds ',' |
| CsvFormat.CsvRoundTrip | src/utils/dataExport/formatters.ts:1-9 | without ',' or newlines in keys and values: two lines, giving back the keys and the values, same column count |
| CsvFormat.FormatToCSV | src/utils/dataExport/formatters.ts:1-9 | when no key holds a newline, the text before the first newline is the keys joined with ',' |
| CsvFormat.EmptyRecordCsv | src/utils/dataExport/formatters.ts:8 | an empty record gives "\n" |
| CsvFormat.CommaInValueShiftsColumns | src/utils/dataExport/formatters.ts:4-6 | values are not quoted: a ',' in a value makes two columns under one key |

## Left out

- Floating point: all arithmetic is exact `real`. Rounding, `toFixed`, `toLocaleString` and `Intl.NumberFormat` are not modelled. The exact statements, such as a loan balance of exactly 0 after the last payment, hold of the formulas and not of their IEEE results.
- Advisory.YearsToFire: `Math.log` and `Math.ceil` are not modelled. The result records the ratio whose base-1.07 logarithm is rounded up.
- Numbers.Number: exponent forms, hexadecimal and `Infinity` read as NaN, unlike JavaScript's `Number`.
- Strings.ToLower: case mapping is ASCII-only.
- `value.toString()`, which opens a custom entry, is a parameter `toStr`. The custom-entry round trips (AmountForms.ReopenKeepsCustomAmounts, CustomFields.InitThenReduce) assume that it prints a non-empty text that reads back as the amount.
- Network, database and third-party calls are not modelled. This covers Supabase, Dexie, the blog service, the LLM advice request and chat saving, PDF generation, and authentication checks. Their success or failure is a parameter where a handler branches on it (BlogManagement). Otherwise they are omitted.
- React scheduling, effects and navigation are not modelled. State updates are taken as immediate. `navigate(..)` is a returned flag, or it is omitted.
- Loading effects are not modelled: the blog editor's post loading, the blog list's fetch and auth check, the personal form's guest-session creation with `uuid`, and the advisory page's data effects.
- `alert(..)` texts of the add handlers are not modelled; only the unchanged list is.
- Custom insurances are never stored by the insurance form's `handleNext`. The model shows this in `HandleNext`'s contract.
- BlogEditor.BlogEditor.ValidateForm: errors are a map keyed by input, so the key order of the error object is not modelled. `handleInputChange` accepts only the six inputs.
- AmountForms.AmountForm.SetCustomValue: the source mutates the custom field object in place (`updatedFields[index].value = value`), which aliases the previous state. The model assigns a new list.
- InvestmentForm.InvestmentForm.SetCustomValue and InvestmentForm.InvestmentForm.SetCustomMonthly: the source mutates the custom investment object in place (`updated[index].value = value` and `updated[index].monthlyContribution = value`), which aliases the previous state. The model assigns a new list.
- LoanForm.LoanForm.SetCustomField: the source mutates the custom loan object in place (`updated[index].totalAmount = value`, and likewise the other two fields), which aliases the previous state. The model assigns a new list.
- CustomFields.FormRecordGet: its clause that the record starts with the standard keys holds for the model's insertion order only. JavaScript enumerates integer-like keys first in numeric order, so a custom field labelled "2024" (accepted by the label check) comes first in `Object.entries` and in the CSV header. Lookups by key are unaffected.
- AmountForms.RecordFields: its clause that entry i carries the i-th standard key states insertion order. JavaScript lists an integer-like custom key such as "2024" before the standard keys. Lookups by key are unaffected.
- LoanForm.StandardThenCustom: the claim that the record starts with "personal", "home" and "vehicle" holds for insertion order. JavaScript lists an integer-like custom loan key first. Lookups by key are unaffected.
- LoanForm.LoanRecordGet: its position clause states insertion order. JavaScript lists integer-like keys first. Its lookups by key are unaffected.
- InvestmentForm.InvestmentRecordShape: "starts with the six standard keys" holds for insertion order. JavaScript lists an integer-like custom investment key first. Distinct keys and lookups by key are unaffected.
- Advisory.AdvisoryChat.HandleSendMessage: the request to the advisor and the assistant's reply are not modelled.
- The article data constant and article fields other than id, title, excerpt, category and flag are not modelled. Blog posts keep only id, title and published flag.
- JSON.stringify and String(..) in the CSV formatter are abstracted: each value carries its text. `formatToJSON` is not modelled.
- The JSX of every page is not modelled: layout, charts, icons and the mobile menu markup.
- src/types/finance.ts is not part of this model; the record shapes are taken from the forms and stores that build them.
