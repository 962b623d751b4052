/**
 * The insurance intake form: coverage and monthly premium of the health,
 * life and vehicle policies, and a list of custom policies the user can add
 * and remove. Adding checks the name (not blank, not a standard type, not a
 * name already in the list, compared lower-cased) and that at least one
 * amount is given. Submitting stores only the three standard policies: the
 * custom policies are never written to the profile.
 */
module InsuranceForm {
  import opened Js
  import opened Strings
  import opened Numbers
  import opened FinanceData
  import opened FinanceStore

  datatype CustomInsurance = CustomInsurance(name: string, coverage: real, premiumPerMonth: real)

  const StandardTypes: seq<string> := ["health", "life", "vehicle"]

  const BlankNameMessage: string := "Please enter an insurance name"

  const NoAmountMessage: string := "Please enter at least coverage amount or monthly premium"

  function StandardTypeMessage(name: string): string {
    "\"" + name + "\" is a standard insurance type. Please use the form fields above."
  }

  function DuplicateMessage(name: string): string {
    "Insurance named \"" + name + "\" already exists"
  }

  // ----------------------------------------------------------------- adding

  /** The lower-cased names of the custom policies, in order. */
  function LowerNames(policies: seq<CustomInsurance>): (r: seq<string>)
    ensures |r| == |policies|
    ensures forall i :: 0 <= i < |policies| ==> r[i] == ToLower(policies[i].name)
  {
    seq(|policies|, i requires 0 <= i < |policies| => ToLower(policies[i].name))
  }

  /** `customInsurances.some(i => i.name.toLowerCase() === name.toLowerCase())`. */
  predicate NameExists(policies: seq<CustomInsurance>, name: string) {
    ToLower(name) in LowerNames(policies)
  }

  /** What an add does: report an error about the name or the amounts, or add a policy. */
  datatype AddOutcome = NameError(message: string) | AmountError(message: string) | Added(policy: CustomInsurance)

  /** The name passes the three name checks. */
  predicate NameAccepted(policies: seq<CustomInsurance>, name: string) {
    Trim(name) != "" && ToLower(name) !in StandardTypes && !NameExists(policies, name)
  }

  /** The checks of `handleAddCustomInsurance`, in the order it makes them. */
  function CheckCustomInsurance(policies: seq<CustomInsurance>, name: string, coverage: string, premium: string)
    : (r: AddOutcome)
    ensures r.Added? <==> NameAccepted(policies, name) && (Truthy(coverage) || Truthy(premium))
    ensures r.AmountError? <==> NameAccepted(policies, name) && !Truthy(coverage) && !Truthy(premium)
    ensures r.Added? ==> r.policy.name == name
    ensures r.Added? ==> r.policy.coverage == NumberOrZero(coverage) && r.policy.premiumPerMonth == NumberOrZero(premium)
    ensures Trim(name) == "" ==> r == NameError(BlankNameMessage)
  {
    if Trim(name) == "" then NameError(BlankNameMessage)
    else if ToLower(name) in StandardTypes then NameError(StandardTypeMessage(name))
    else if NameExists(policies, name) then NameError(DuplicateMessage(name))
    else if !Truthy(coverage) && !Truthy(premium) then AmountError(NoAmountMessage)
    else Added(CustomInsurance(name, NumberOrZero(coverage), NumberOrZero(premium)))
  }

  /** The list after an add: the new policy appended, or the list unchanged. */
  function AfterAdd(policies: seq<CustomInsurance>, outcome: AddOutcome): seq<CustomInsurance> {
    if outcome.Added? then policies + [outcome.policy] else policies
  }

  /**
   * Adding keeps the lower-cased names distinct, and once a policy is added,
   * adding the same name again is refused as a duplicate.
   */
  lemma AddKeepsNamesDistinct(policies: seq<CustomInsurance>, name: string, coverage: string, premium: string,
                              coverage': string, premium': string)
    requires Distinct(LowerNames(policies))
    ensures var r := CheckCustomInsurance(policies, name, coverage, premium);
      && Distinct(LowerNames(AfterAdd(policies, r)))
      && (r.Added? ==> CheckCustomInsurance(AfterAdd(policies, r), name, coverage', premium') == NameError(DuplicateMessage(name)))
  {
    var r := CheckCustomInsurance(policies, name, coverage, premium);
    if r.Added? {
      AppendedNameExists(policies, r.policy);
    }
  }

  /** The appended policy's name exists, and a name that did not exist keeps the names distinct. */
  lemma AppendedNameExists(policies: seq<CustomInsurance>, policy: CustomInsurance)
    ensures NameExists(policies + [policy], policy.name)
    ensures Distinct(LowerNames(policies)) && !NameExists(policies, policy.name) ==>
      Distinct(LowerNames(policies + [policy]))
  {
    var names := LowerNames(policies);
    assert LowerNames(policies + [policy]) == names + [ToLower(policy.name)];
    if Distinct(names) && !NameExists(policies, policy.name) {
      DistinctAppend(names, ToLower(policy.name));
    }
  }

  /** A standard type in any mix of capitals is refused with the standard-type message. */
  lemma CapitalizedStandardRefused(policies: seq<CustomInsurance>, name: string, coverage: string, premium: string)
    requires ToLower(name) in StandardTypes
    ensures CheckCustomInsurance(policies, name, coverage, premium) == NameError(StandardTypeMessage(name))
  {
    StandardTypeStartsWord(ToLower(name));
    assert !IsSpace(ToLowerChar(name[0]));
    TrimEmptyIff(name);
  }

  /** Each standard type is a word: it is not empty and does not start with white space. */
  lemma StandardTypeStartsWord(t: string)
    requires t in StandardTypes
    ensures |t| > 0 && !IsSpace(t[0])
  {
  }

  /**
   * The standard-type check compares the name without trimming it: a
   * standard type with a space after it passes the name checks.
   */
  lemma PaddedStandardAccepted(coverage: string, premium: string)
    requires Truthy(coverage) || Truthy(premium)
    ensures CheckCustomInsurance([], "health" + " ", coverage, premium).Added?
  {
    PaddedHealthLower();
    var name := "health" + " ";
    assert name != StandardTypes[0] && name != StandardTypes[1] && name != StandardTypes[2];
    assert Trim(name) != "" by {
      TrimEmptyIff(name);
      assert !IsSpace(name[0]);
    }
  }

  lemma PaddedHealthLower()
    ensures ToLower("health" + " ") == "health" + " "
  {
  }

  // --------------------------------------------------------------- removing

  /** Where `splice(index, 1)` starts on a list of the given length. */
  function SpliceStart(len: nat, index: int): (start: nat)
    ensures start <= len
    ensures 0 <= index < len ==> start == index
    ensures index < 0 && len + index >= 0 ==> start == len + index
  {
    if index < 0 then (if len + index < 0 then 0 else len + index)
    else if index > len then len
    else index
  }

  /** `copy.splice(index, 1)`: the element at the start position removed, if there is one. */
  function RemoveAt(policies: seq<CustomInsurance>, index: int): (r: seq<CustomInsurance>)
    ensures var start := SpliceStart(|policies|, index);
      && (start < |policies| ==> r == policies[..start] + policies[start + 1..])
      && (start == |policies| ==> r == policies)
  {
    var start := SpliceStart(|policies|, index);
    if start < |policies| then policies[..start] + policies[start + 1..] else policies
  }

  /** Removing takes out exactly one policy (or none past the end) and keeps the others and their order. */
  lemma RemoveAtTakesOne(policies: seq<CustomInsurance>, index: int)
    ensures var start := SpliceStart(|policies|, index);
      && (start < |policies| ==>
            |RemoveAt(policies, index)| == |policies| - 1
            && multiset(RemoveAt(policies, index)) + multiset{policies[start]} == multiset(policies))
      && (start == |policies| ==> RemoveAt(policies, index) == policies)
  {
    var start := SpliceStart(|policies|, index);
    if start < |policies| {
      assert policies == policies[..start] + [policies[start]] + policies[start + 1..];
    }
  }

  /** Removing keeps the lower-cased names distinct. */
  lemma RemoveKeepsNamesDistinct(policies: seq<CustomInsurance>, index: int)
    requires Distinct(LowerNames(policies))
    ensures Distinct(LowerNames(RemoveAt(policies, index)))
  {
    var start := SpliceStart(|policies|, index);
    if start < |policies| {
      var names := LowerNames(policies);
      assert LowerNames(RemoveAt(policies, index)) == names[..start] + names[start + 1..];
      DistinctRemove(names, start);
    }
  }

  // ------------------------------------------------------------- submitting

  /** The coverage and premium inputs of one policy. */
  datatype PolicyInputs = PolicyInputs(coverage: Input, premium: Input)

  const BlankPolicy: PolicyInputs := PolicyInputs(EmptyInput, EmptyInput)

  /** The inputs of the three standard policies. */
  datatype StandardInputs = StandardInputs(health: PolicyInputs, life: PolicyInputs, vehicle: PolicyInputs)

  /** The three inputs of the add box. */
  datatype Draft = Draft(name: string, coverage: string, premium: string)

  const EmptyDraft: Draft := Draft("", "", "")

  /** `cover?.coverage || ''` and `cover?.premiumPerMonth || ''` for a stored policy. */
  function ShownInputs(c: Cover): PolicyInputs {
    PolicyInputs(ShowAmount(c.coverage), ShowAmount(c.premiumPerMonth))
  }

  /** The inputs the form opens with: the stored numbers, or empty without a stored record. */
  function InitialStandard(existing: Option<Insurance>): (t: StandardInputs)
    ensures existing.None? ==> t.health == t.life == t.vehicle == BlankPolicy
  {
    match existing
    case None => StandardInputs(BlankPolicy, BlankPolicy, BlankPolicy)
    case Some(i) => StandardInputs(ShownInputs(i.health), ShownInputs(i.life), ShownInputs(i.vehicle))
  }

  /** `{coverage: Number(..) || 0, premiumPerMonth: Number(..) || 0}`. */
  function CoverOf(t: PolicyInputs): (c: Cover)
    ensures c.coverage == InputOrZero(t.coverage) && c.premiumPerMonth == InputOrZero(t.premium)
  {
    Cover(InputOrZero(t.coverage), InputOrZero(t.premium))
  }

  /** The stored record: the three standard policies only. */
  function InsuranceOf(t: StandardInputs): Insurance {
    Insurance(CoverOf(t.health), CoverOf(t.life), CoverOf(t.vehicle))
  }

  /** Opening the form on a stored record and submitting it untouched stores the same record. */
  lemma ReopenKeepsInsurance(existing: Insurance)
    ensures InsuranceOf(InitialStandard(Some(existing))) == existing
  {
    ShownCoverRoundTrip(existing.health);
    ShownCoverRoundTrip(existing.life);
    ShownCoverRoundTrip(existing.vehicle);
  }

  /** The two inputs a stored cover opens with read back to the cover. */
  lemma ShownCoverRoundTrip(c: Cover)
    ensures CoverOf(ShownInputs(c)) == c
  {
    ShowAmountRoundTrip(c.coverage);
    ShowAmountRoundTrip(c.premiumPerMonth);
  }

  /** `{...inputs, [field]: x}` for the coverage (`premium` false) or the premium input. */
  function WithInput(p: PolicyInputs, premium: bool, x: Input): PolicyInputs {
    if premium then p.(premium := x) else p.(coverage := x)
  }

  /** The error shown under the name input after an add. */
  function NameErrorOf(outcome: AddOutcome): Option<string> {
    if outcome.NameError? then Some(outcome.message) else None
  }

  /** The error shown under the amount inputs after an add. */
  function AmountErrorOf(outcome: AddOutcome): Option<string> {
    if outcome.AmountError? then Some(outcome.message) else None
  }

  class InsuranceForm {
    var standard: StandardInputs
    var customInsurances: seq<CustomInsurance>
    var draft: Draft
    var nameError: Option<string>
    var amountError: Option<string>

    /** No two custom policies share a name, compared lower-cased. */
    predicate Valid()
      reads this
    {
      Distinct(LowerNames(customInsurances))
    }

    constructor(existing: Option<Insurance>)
      ensures Valid()
      ensures standard == InitialStandard(existing)
      ensures customInsurances == [] && draft == EmptyDraft && nameError.None? && amountError.None?
    {
      standard := InitialStandard(existing);
      customInsurances := [];
      draft := EmptyDraft;
      nameError := None;
      amountError := None;
    }

    /**
     * The `onChange` of a standard policy's coverage (`premium` false) or
     * premium input: from now on it holds the typed text.
     */
    method SetStandardInput(policy: string, premium: bool, text: string)
      requires Valid() && policy in StandardTypes
      modifies this
      ensures Valid()
      ensures standard.health == if policy == "health" then WithInput(old(standard.health), premium, Typed(text)) else old(standard.health)
      ensures standard.life == if policy == "life" then WithInput(old(standard.life), premium, Typed(text)) else old(standard.life)
      ensures standard.vehicle == if policy == "vehicle" then WithInput(old(standard.vehicle), premium, Typed(text)) else old(standard.vehicle)
      ensures customInsurances == old(customInsurances) && draft == old(draft)
      ensures nameError == old(nameError) && amountError == old(amountError)
    {
      if policy == "health" {
        standard := standard.(health := WithInput(standard.health, premium, Typed(text)));
      } else if policy == "life" {
        standard := standard.(life := WithInput(standard.life, premium, Typed(text)));
      } else {
        standard := standard.(vehicle := WithInput(standard.vehicle, premium, Typed(text)));
      }
    }

    /** `handleNext`: the three standard policies go to the insurance section; nothing else changes. */
    method HandleNext(store: FinanceStore)
      modifies store
      ensures store.data == old(store.data).(insurance := Some(InsuranceOf(standard)))
    {
      store.SetInsuranceDetails(InsuranceOf(standard));
    }

    /**
     * `handleAddCustomInsurance`: clears both errors, then either reports the
     * first failed check (CheckCustomInsurance makes them in the handler's
     * order) or appends the policy and clears the three inputs.
     */
    method HandleAddCustomInsurance()
      requires Valid()
      modifies this
      ensures Valid()
      ensures var r := CheckCustomInsurance(old(customInsurances), old(draft.name), old(draft.coverage), old(draft.premium));
        && customInsurances == AfterAdd(old(customInsurances), r)
        && nameError == NameErrorOf(r) && amountError == AmountErrorOf(r)
        && draft == (if r.Added? then EmptyDraft else old(draft))
      ensures standard == old(standard)
    {
      var outcome := CheckCustomInsurance(customInsurances, draft.name, draft.coverage, draft.premium);
      Apply(outcome);
    }

    /** The state updates of the add handler for a given outcome of its checks. */
    method Apply(outcome: AddOutcome)
      requires Valid()
      requires outcome.Added? ==> !NameExists(customInsurances, outcome.policy.name)
      modifies this
      ensures Valid()
      ensures customInsurances == AfterAdd(old(customInsurances), outcome)
      ensures nameError == NameErrorOf(outcome) && amountError == AmountErrorOf(outcome)
      ensures draft == (if outcome.Added? then EmptyDraft else old(draft))
      ensures standard == old(standard)
    {
      nameError := None;
      amountError := None;
      match outcome
      case NameError(message) =>
        nameError := Some(message);
      case AmountError(message) =>
        amountError := Some(message);
      case Added(policy) =>
        AppendedNameExists(customInsurances, policy);
        customInsurances := customInsurances + [policy];
        draft := EmptyDraft;
    }

    /** `removeCustomInsurance(index)`. */
    method RemoveCustomInsurance(index: int)
      requires Valid()
      modifies this
      ensures Valid()
      ensures customInsurances == RemoveAt(old(customInsurances), index)
      ensures standard == old(standard) && draft == old(draft)
      ensures nameError == old(nameError) && amountError == old(amountError)
    {
      RemoveKeepsNamesDistinct(customInsurances, index);
      customInsurances := RemoveAt(customInsurances, index);
    }
  }
}
