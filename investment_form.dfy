/**
 * The investment intake form: six standard investments (stocks, mutual funds,
 * bonds, real estate, retirement, crypto) and any number of custom ones. Each
 * holds the input of a current value and of a monthly amount, which is a
 * monthly income for real estate and a monthly contribution for every other
 * investment. Submitting stores `{standard..., ...customData}` into the
 * investments section of the profile.
 */
module InvestmentForm {
  import opened Js
  import opened Strings
  import opened Numbers
  import opened FinanceData
  import opened CustomFields
  import opened FinanceStore

  /** The two inputs of one investment; `monthly` is the income of real estate and the contribution of the others. */
  datatype InvestmentFields = InvestmentFields(value: Input, monthly: Input)

  datatype CustomInvestment = CustomInvestment(name: string, fields: InvestmentFields)

  const StandardInvestments: seq<string> := ["stocks", "mutualFunds", "bonds", "realEstate", "retirement", "crypto"]

  /** The standard names the add refuses, lower-cased and without white space. */
  const ReservedNames: seq<string> := ["stocks", "mutualfunds", "bonds", "realestate", "retirement", "crypto"]

  const RealEstate: nat := 3

  const Blank: InvestmentFields := InvestmentFields(EmptyInput, EmptyInput)

  lemma StandardInvestmentsDistinct()
    ensures Distinct(StandardInvestments)
    ensures StandardInvestments[RealEstate] == "realEstate"
  {
  }

  // ------------------------------------------------------------- submitting

  /** `{value: Number(..) || 0, monthlyIncome: Number(..) || 0}` for real estate. */
  function IncomeOf(f: InvestmentFields): (r: Investment)
    ensures r.monthlyContribution.None? && r.monthlyIncome == Some(InputOrZero(f.monthly))
    ensures r.value == InputOrZero(f.value)
  {
    Investment(InputOrZero(f.value), None, Some(InputOrZero(f.monthly)))
  }

  /** `{value: Number(..) || 0, monthlyContribution: Number(..) || 0}`. */
  function ContributionOf(f: InvestmentFields): (r: Investment)
    ensures r.monthlyIncome.None? && r.monthlyContribution == Some(InputOrZero(f.monthly))
    ensures r.value == InputOrZero(f.value)
  {
    Investment(InputOrZero(f.value), Some(InputOrZero(f.monthly)), None)
  }

  /** The record of the i-th standard investment: real estate has an income, the others a contribution. */
  function StandardOf(i: nat, f: InvestmentFields): Investment {
    if i == RealEstate then IncomeOf(f) else ContributionOf(f)
  }

  /** The six standard entries, in order. */
  function StandardInvestmentEntries(std: seq<InvestmentFields>): (r: Obj<Investment>)
    requires |std| == |StandardInvestments|
    ensures |r| == |StandardInvestments|
    ensures forall i :: 0 <= i < |r| ==> r[i] == (StandardInvestments[i], StandardOf(i, std[i]))
  {
    seq(|StandardInvestments|, i requires 0 <= i < |StandardInvestments| =>
      (StandardInvestments[i], StandardOf(i, std[i])))
  }

  /** A custom investment is stored unless both of its inputs are empty. */
  predicate AnyValue(f: InvestmentFields) {
    Filled(f.value) || Filled(f.monthly)
  }

  /** `acc[key] = {...}` for one custom investment, under its snake_case key. */
  function InvestmentWrite(c: CustomInvestment): (string, Investment) {
    (SnakeKey(c.name), ContributionOf(c.fields))
  }

  /** The assignment the reduction makes for a custom investment; a blank one makes none. */
  function Assignment(c: CustomInvestment): Option<(string, Investment)> {
    if AnyValue(c.fields) then Some(InvestmentWrite(c)) else None
  }

  function Assignments(invs: seq<CustomInvestment>): seq<Option<(string, Investment)>> {
    Map(invs, Assignment)
  }

  /** The assignments the reduction makes, in order. */
  function InvestmentWrites(invs: seq<CustomInvestment>): Obj<Investment> {
    Present(Assignments(invs))
  }

  function CustomInvestmentsData(invs: seq<CustomInvestment>): (r: Obj<Investment>)
    ensures UniqueKeys(r)
  {
    PutAll(InvestmentWrites(invs))
  }

  lemma InvestmentWritesAppend(invs: seq<CustomInvestment>, c: CustomInvestment)
    ensures InvestmentWrites(invs + [c])
      == InvestmentWrites(invs) + (if AnyValue(c.fields) then [InvestmentWrite(c)] else [])
  {
    assert Assignments(invs + [c]) == Assignments(invs) + [Assignment(c)];
    PresentAppend(Assignments(invs), Assignment(c));
  }

  /** One more custom investment: a filled-in one is put under its key, a blank one changes nothing. */
  lemma CustomInvestmentsDataStep(invs: seq<CustomInvestment>, c: CustomInvestment)
    ensures AnyValue(c.fields) ==>
      CustomInvestmentsData(invs + [c]) == Put(CustomInvestmentsData(invs), SnakeKey(c.name), ContributionOf(c.fields))
    ensures !AnyValue(c.fields) ==> CustomInvestmentsData(invs + [c]) == CustomInvestmentsData(invs)
  {
    InvestmentWritesAppend(invs, c);
    if AnyValue(c.fields) {
      PutAllAppend(InvestmentWrites(invs), InvestmentWrite(c));
    } else {
      assert InvestmentWrites(invs) + [] == InvestmentWrites(invs);
    }
  }

  /** Every assignment comes from a custom investment that is not blank. */
  lemma InvestmentWritesFromFilled(invs: seq<CustomInvestment>, w: (string, Investment))
    requires w in InvestmentWrites(invs)
    ensures exists i :: 0 <= i < |invs| && AnyValue(invs[i].fields) && w == InvestmentWrite(invs[i])
  {
    PresentFrom(Assignments(invs), w);
  }

  /** Every custom investment that is not blank makes its assignment. */
  lemma FilledInvestmentWrites(invs: seq<CustomInvestment>, i: int)
    requires 0 <= i < |invs| && AnyValue(invs[i].fields)
    ensures InvestmentWrite(invs[i]) in InvestmentWrites(invs)
  {
    PresentHas(Assignments(invs), i);
  }

  /**
   * Each key holds the investment of its last assignment; blank investments
   * store nothing, and no stored key has white space in it.
   */
  lemma CustomInvestmentsGet(invs: seq<CustomInvestment>, k: string)
    ensures Get(CustomInvestmentsData(invs), k) == LastWrite(InvestmentWrites(invs), k)
    ensures (forall i :: 0 <= i < |invs| ==> !AnyValue(invs[i].fields)) ==> CustomInvestmentsData(invs) == []
    ensures !NoSpaces(k) ==> !HasKey(CustomInvestmentsData(invs), k)
  {
    var w := InvestmentWrites(invs);
    GetPutAll(w, k);
    LastWriteSpec(w, k);
    if w != [] {
      InvestmentWritesFromFilled(invs, w[0]);
    }
    if !NoSpaces(k) {
      forall j | 0 <= j < |w| ensures w[j].0 != k {
        InvestmentWritesFromFilled(invs, w[j]);
        var i :| 0 <= i < |invs| && AnyValue(invs[i].fields) && w[j] == InvestmentWrite(invs[i]);
      }
    }
  }

  /** Every stored custom investment has a monthly contribution and no monthly income. */
  lemma CustomInvestmentsContribute(invs: seq<CustomInvestment>, k: string)
    requires HasKey(CustomInvestmentsData(invs), k)
    ensures Get(CustomInvestmentsData(invs), k).value.monthlyContribution.Some?
    ensures Get(CustomInvestmentsData(invs), k).value.monthlyIncome.None?
  {
    var w := InvestmentWrites(invs);
    GetPutAll(w, k);
    var j := LastWriteEntry(w, k);
    InvestmentWritesFromFilled(invs, w[j]);
  }

  /** `customInvestments.reduce(...)` with its accumulator object. */
  method ReduceCustomInvestments(invs: seq<CustomInvestment>) returns (acc: Obj<Investment>)
    ensures acc == CustomInvestmentsData(invs)
  {
    acc := [];
    var i := 0;
    while i < |invs|
      invariant 0 <= i <= |invs|
      invariant acc == CustomInvestmentsData(invs[..i])
    {
      PrefixStep(invs, i);
      acc := ReduceStep(invs[..i], acc, invs[i]);
      i := i + 1;
    }
    WholePrefix(invs);
  }

  /** The reducer's body for one investment: entries with both texts empty are skipped. */
  method ReduceStep(ghost done: seq<CustomInvestment>, acc0: Obj<Investment>, investment: CustomInvestment)
    returns (acc: Obj<Investment>)
    requires acc0 == CustomInvestmentsData(done)
    ensures acc == CustomInvestmentsData(done + [investment])
  {
    CustomInvestmentsDataStep(done, investment);
    acc := acc0;
    if AnyValue(investment.fields) {
      var key := SnakeKey(investment.name);
      acc := Put(acc, key, ContributionOf(investment.fields));
    }
  }

  /** `{stocks, mutualFunds, bonds, realEstate, retirement, crypto, ...customData}`. */
  function InvestmentRecord(std: seq<InvestmentFields>, invs: seq<CustomInvestment>): Obj<Investment>
    requires |std| == |StandardInvestments|
  {
    Merge(StandardInvestmentEntries(std), CustomInvestmentsData(invs))
  }

  lemma StandardEntriesUnique(std: seq<InvestmentFields>)
    requires |std| == |StandardInvestments|
    ensures UniqueKeys(StandardInvestmentEntries(std))
  {
    StandardInvestmentsDistinct();
  }

  /** The record starts with the six standard keys, in order, and has no key twice. */
  lemma InvestmentRecordShape(std: seq<InvestmentFields>, invs: seq<CustomInvestment>)
    requires |std| == |StandardInvestments|
    ensures var r := InvestmentRecord(std, invs);
      && UniqueKeys(r) && |r| >= |StandardInvestments|
      && forall i :: 0 <= i < |StandardInvestments| ==> r[i].0 == StandardInvestments[i]
  {
    StandardEntriesUnique(std);
  }

  /** A key some custom investment is stored under reads its last custom investment. */
  lemma InvestmentRecordCustom(std: seq<InvestmentFields>, invs: seq<CustomInvestment>, k: string)
    requires |std| == |StandardInvestments|
    requires HasKey(CustomInvestmentsData(invs), k)
    ensures Get(InvestmentRecord(std, invs), k) == LastWrite(InvestmentWrites(invs), k)
  {
    StandardEntriesUnique(std);
    GetMerge(StandardInvestmentEntries(std), CustomInvestmentsData(invs), k);
    GetPutAll(InvestmentWrites(invs), k);
  }

  /**
   * A standard investment no custom investment overrides reads its form
   * values: an income for real estate, a contribution for the others.
   */
  lemma InvestmentRecordStandard(std: seq<InvestmentFields>, invs: seq<CustomInvestment>, i: nat)
    requires |std| == |StandardInvestments| && i < |StandardInvestments|
    requires !HasKey(CustomInvestmentsData(invs), StandardInvestments[i])
    ensures Get(InvestmentRecord(std, invs), StandardInvestments[i]) == Some(StandardOf(i, std[i]))
  {
    var s := StandardInvestmentEntries(std);
    StandardEntriesUnique(std);
    GetMerge(s, CustomInvestmentsData(invs), StandardInvestments[i]);
    GetAt(s, i);
  }

  /** Unless a custom investment is keyed `realEstate`, real estate is stored with an income and no contribution. */
  lemma RealEstateHasIncome(std: seq<InvestmentFields>, invs: seq<CustomInvestment>)
    requires |std| == |StandardInvestments|
    ensures !HasKey(CustomInvestmentsData(invs), "realEstate") ==>
      Get(InvestmentRecord(std, invs), "realEstate")
        == Some(Investment(InputOrZero(std[RealEstate].value), None, Some(InputOrZero(std[RealEstate].monthly))))
  {
    StandardInvestmentsDistinct();
    if !HasKey(CustomInvestmentsData(invs), "realEstate") {
      InvestmentRecordStandard(std, invs, RealEstate);
    }
  }

  // ----------------------------------------------------------------- adding

  function InvestmentNames(invs: seq<CustomInvestment>): seq<string> {
    Map(invs, (v: CustomInvestment) => v.name)
  }

  /**
   * A name the add refuses: lower-cased, trimmed and stripped of white space
   * it is a standard investment, or lower-cased and trimmed it matches an
   * existing custom investment.
   */
  predicate Refused(invs: seq<CustomInvestment>, name: string) {
    ReplaceSpaceRuns(Normalize(name), "") in ReservedNames || NameTaken(InvestmentNames(invs), name)
  }

  /** `handleAddCustomInvestment`: a refused name leaves the list; any other is appended blank. */
  function AddInvestment(invs: seq<CustomInvestment>, name: string): (r: seq<CustomInvestment>)
    ensures Refused(invs, name) ==> r == invs
    ensures !Refused(invs, name) ==> r == invs + [CustomInvestment(name, Blank)]
  {
    if Refused(invs, name) then invs else invs + [CustomInvestment(name, Blank)]
  }

  /**
   * After an add the name is refused, so adding it again changes nothing,
   * and custom names that were distinct stay distinct.
   */
  lemma AddInvestmentOnce(invs: seq<CustomInvestment>, name: string)
    requires !Refused(invs, name)
    ensures Refused(AddInvestment(invs, name), name)
    ensures AddInvestment(AddInvestment(invs, name), name) == AddInvestment(invs, name)
    ensures Distinct(NormalizedNames(InvestmentNames(invs)))
      ==> Distinct(NormalizedNames(InvestmentNames(AddInvestment(invs, name))))
  {
    assert InvestmentNames(invs + [CustomInvestment(name, Blank)]) == InvestmentNames(invs) + [name];
    AppendName(InvestmentNames(invs), name);
  }

  /** "Mutual Funds" is refused: without its space it is the standard `mutualFunds`. */
  lemma MutualFundsRefused(invs: seq<CustomInvestment>)
    ensures Refused(invs, "Mutual Funds")
  {
    assert "Mutual Funds" == "Mutual" + " " + "Funds";
    TwoWordsRefused(invs);
  }

  /** The same, with the two words kept apart so that the text is not unfolded character by character. */
  lemma TwoWordsRefused(invs: seq<CustomInvestment>)
    ensures Refused(invs, "Mutual" + " " + "Funds")
  {
    LowerMutualFunds();
    TrimOfWord("mutual" + " " + "funds");
    ReplaceOneSpace("mutual", "funds", "");
    assert "mutual" + "" + "funds" == ReservedNames[1];
  }

  lemma LowerMutualFunds()
    ensures ToLower("Mutual" + " " + "Funds") == "mutual" + " " + "funds"
  {
  }

  // -------------------------------------------------------------- the form

  /** `existingData?.k?.monthly || ''` for a monthly amount that may be absent. */
  function ShowMonthly(amount: Option<real>): (x: Input)
    ensures amount.None? ==> x == EmptyInput
    ensures amount.Some? ==> x == ShowAmount(amount.value)
  {
    match amount
    case None => EmptyInput
    case Some(a) => ShowAmount(a)
  }

  /** The monthly amount of the i-th standard investment: its income for real estate, its contribution otherwise. */
  function MonthlyOf(i: nat, inv: Investment): Option<real> {
    if i == RealEstate then inv.monthlyIncome else inv.monthlyContribution
  }

  /** The two inputs a stored i-th standard investment opens with. */
  function ShownFields(i: nat, inv: Investment): InvestmentFields {
    InvestmentFields(ShowAmount(inv.value), ShowMonthly(MonthlyOf(i, inv)))
  }

  /** The two inputs of the i-th standard investment when the form opens. */
  function InitialFields(existing: Option<Obj<Investment>>, i: nat): (f: InvestmentFields)
    requires i < |StandardInvestments|
    ensures existing.None? ==> f == Blank
    ensures existing.Some? && HasKey(existing.value, StandardInvestments[i]) ==>
      f == ShownFields(i, Get(existing.value, StandardInvestments[i]).value)
  {
    match existing
    case None => Blank
    case Some(o) =>
      match Get(o, StandardInvestments[i])
      case None => Blank
      case Some(inv) => ShownFields(i, inv)
  }

  /**
   * Opening the form on a stored standard investment and submitting it
   * untouched stores it back, when it has the monthly amount its kind calls
   * for (and only that one).
   */
  lemma ReopenKeepsStandard(i: nat, inv: Investment)
    requires MonthlyOf(i, inv).Some?
    requires if i == RealEstate then inv.monthlyContribution.None? else inv.monthlyIncome.None?
    ensures StandardOf(i, ShownFields(i, inv)) == inv
  {
    ShowAmountRoundTrip(inv.value);
    ShowAmountRoundTrip(MonthlyOf(i, inv).value);
  }

  /** `value?.monthlyContribution?.toString() || ''`. */
  function ShowPresent(amount: Option<real>, toStr: real -> string): (x: Input)
    ensures amount.None? ==> x == EmptyInput
    ensures amount.Some? ==> x == Typed(toStr(amount.value))
  {
    match amount
    case None => EmptyInput
    case Some(a) => Typed(toStr(a))
  }

  /**
   * The custom investments the form shows for stored investments whose key is
   * not a standard one: the key in Title Case, the value and the monthly
   * contribution as text (a stored 0 shows as its text).
   */
  function InitInvestments(existing: Obj<Investment>, toStr: real -> string): (r: seq<CustomInvestment>)
    ensures |r| <= |existing|
    ensures forall c :: c in r ==> exists e :: e in existing && e.0 !in StandardInvestments && c.name == TitleCase(e.0)
  {
    if existing == [] then []
    else
      var e := existing[|existing| - 1];
      InitInvestments(existing[..|existing| - 1], toStr)
        + (if e.0 !in StandardInvestments then
             [CustomInvestment(TitleCase(e.0),
                               InvestmentFields(Typed(toStr(e.1.value)), ShowPresent(e.1.monthlyContribution, toStr)))]
           else [])
  }

  class InvestmentForm {
    /** The inputs of the six standard investments, in the order of StandardInvestments. */
    var standard: seq<InvestmentFields>
    var customInvestments: seq<CustomInvestment>

    predicate Valid()
      reads this
    {
      |standard| == |StandardInvestments|
    }

    constructor(existing: Option<Obj<Investment>>, toStr: real -> string)
      ensures Valid()
      ensures forall i :: 0 <= i < |standard| ==> standard[i] == InitialFields(existing, i)
      ensures customInvestments == match existing case None => [] case Some(o) => InitInvestments(o, toStr)
    {
      standard := seq(|StandardInvestments|, i requires 0 <= i < |StandardInvestments| => InitialFields(existing, i));
      customInvestments := match existing case None => [] case Some(o) => InitInvestments(o, toStr);
    }

    /** The `onChange` of a standard investment's current value: from now on it holds the typed text. */
    method SetStandardValue(i: nat, text: string)
      requires Valid() && i < |standard|
      modifies this
      ensures Valid() && customInvestments == old(customInvestments)
      ensures standard == old(standard)[i := old(standard)[i].(value := Typed(text))]
    {
      standard := standard[i := standard[i].(value := Typed(text))];
    }

    /** The `onChange` of a standard investment's monthly amount. */
    method SetStandardMonthly(i: nat, text: string)
      requires Valid() && i < |standard|
      modifies this
      ensures Valid() && customInvestments == old(customInvestments)
      ensures standard == old(standard)[i := old(standard)[i].(monthly := Typed(text))]
    {
      standard := standard[i := standard[i].(monthly := Typed(text))];
    }

    /** The `onChange` of a custom investment's current value. */
    method SetCustomValue(i: nat, text: string)
      requires i < |customInvestments|
      modifies this
      ensures standard == old(standard)
      ensures customInvestments == old(customInvestments)[i := old(customInvestments)[i].(fields :=
                                     old(customInvestments)[i].fields.(value := Typed(text)))]
    {
      customInvestments := customInvestments[i := customInvestments[i].(fields :=
                              customInvestments[i].fields.(value := Typed(text)))];
    }

    /** The `onChange` of a custom investment's monthly contribution. */
    method SetCustomMonthly(i: nat, text: string)
      requires i < |customInvestments|
      modifies this
      ensures standard == old(standard)
      ensures customInvestments == old(customInvestments)[i := old(customInvestments)[i].(fields :=
                                     old(customInvestments)[i].fields.(monthly := Typed(text)))]
    {
      customInvestments := customInvestments[i := customInvestments[i].(fields :=
                              customInvestments[i].fields.(monthly := Typed(text)))];
    }

    /** The record submit stores. */
    function Record(): Obj<Investment>
      reads this
      requires Valid()
    {
      InvestmentRecord(standard, customInvestments)
    }

    /** `handleSubmit`: the record goes to the investments section, and nothing else changes. */
    method HandleSubmit(store: FinanceStore)
      requires Valid()
      modifies store
      ensures store.data == old(store.data).(investments := Some(Record()))
    {
      var customData := ReduceCustomInvestments(customInvestments);
      var investmentData := Merge(StandardInvestmentEntries(standard), customData);
      store.SetInvestmentDetails(investmentData);
    }

    /** `handleAddCustomInvestment`. */
    method HandleAddCustomInvestment(name: string)
      modifies this
      ensures standard == old(standard)
      ensures customInvestments == AddInvestment(old(customInvestments), name)
    {
      // the reserved-name check, then the duplicate check
      if Refused(customInvestments, name) {
        return;
      }
      customInvestments := customInvestments + [CustomInvestment(name, Blank)];
    }
  }
}
