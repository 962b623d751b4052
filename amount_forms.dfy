/**
 * The expense and income intake forms. Both hold the input of a fixed list of
 * standard fields and a list of custom fields; both store
 * `{standard: Number(input) || 0, ...customData}` into their section of the
 * finance profile, and both can be submitted only when their required fields
 * are filled in. They differ in the standard fields, the required ones and
 * the section they write.
 */
module AmountForms {
  import opened Js
  import opened Strings
  import opened Numbers
  import opened FinanceData
  import opened CustomFields
  import opened FinanceStore

  datatype Kind = ExpenseForm | IncomeForm

  function StandardKeys(kind: Kind): (keys: seq<string>)
    ensures Distinct(keys)
  {
    match kind
    case ExpenseForm =>
      ["housing", "utilities", "groceries", "transportation", "entertainment", "miscellaneous"]
    case IncomeForm =>
      ["monthlySalary", "additionalIncome", "annualBonus", "currentSavings"]
  }

  /** Positions of the fields `isValid` requires: housing, utilities, groceries; salary and savings. */
  function RequiredFields(kind: Kind): (r: seq<nat>)
    ensures forall j :: j in r ==> j < |StandardKeys(kind)|
  {
    match kind
    case ExpenseForm => [0, 1, 2]
    case IncomeForm => [0, 3]
  }

  /**
   * `existingData?.[key] || ''`: the stored number itself, or the empty text
   * for an absent record, an absent key or a stored 0.
   */
  function InitialInput(existing: Option<Obj<real>>, key: string): (x: Input)
    ensures existing.None? ==> x == EmptyInput
    ensures existing.Some? && !HasKey(existing.value, key) ==> x == EmptyInput
    ensures existing.Some? && HasKey(existing.value, key) ==> x == ShowAmount(Get(existing.value, key).value)
  {
    match existing
    case None => EmptyInput
    case Some(o) =>
      match Get(o, key)
      case None => EmptyInput
      case Some(v) => ShowAmount(v)
  }

  /** The inputs of the standard fields when the form opens, in form order. */
  function InitialInputs(existing: Option<Obj<real>>, keys: seq<string>): (xs: seq<Input>)
    ensures |xs| == |keys|
    ensures forall i :: 0 <= i < |keys| ==> xs[i] == InitialInput(existing, keys[i])
  {
    seq(|keys|, i requires 0 <= i < |keys| => InitialInput(existing, keys[i]))
  }

  /** The custom fields the form starts with: the stored custom entries, if there are any. */
  function InitialCustomFields(kind: Kind, existing: Option<Obj<real>>, toStr: real -> string): seq<CustomField> {
    match existing
    case None => []
    case Some(o) => InitFields(o, StandardKeys(kind), toStr)
  }

  class AmountForm {
    const kind: Kind
    /** The input of each standard field, in the order of StandardKeys(kind). */
    var values: seq<Input>
    var customFields: seq<CustomField>

    predicate Valid()
      reads this
    {
      |values| == |StandardKeys(kind)|
    }

    constructor(kind: Kind, existing: Option<Obj<real>>, toStr: real -> string)
      ensures this.kind == kind && Valid()
      ensures values == InitialInputs(existing, StandardKeys(kind))
      ensures customFields == InitialCustomFields(kind, existing, toStr)
    {
      this.kind := kind;
      var keys := StandardKeys(kind);
      values := InitialInputs(existing, keys);
      customFields := InitialCustomFields(kind, existing, toStr);
    }

    /** The `onChange` of a standard field: from now on it holds the typed text. */
    method SetValue(i: nat, text: string)
      requires Valid() && i < |values|
      modifies this
      ensures Valid() && values == old(values)[i := Typed(text)] && customFields == old(customFields)
    {
      values := values[i := Typed(text)];
    }

    /** The `onChange` of a custom field's value. */
    method SetCustomValue(i: nat, text: string)
      requires i < |customFields|
      modifies this
      ensures values == old(values)
      ensures customFields == old(customFields)[i := CustomField(old(customFields)[i].name, text)]
    {
      customFields := customFields[i := CustomField(customFields[i].name, text)];
    }

    method HandleAddCustomField(name: string)
      modifies this
      ensures values == old(values)
      ensures customFields == AddField(old(customFields), name)
    {
      if !NameTaken(Labels(customFields), name) {
        customFields := customFields + [CustomField(name, "")];
      }
    }

    /**
     * `isValid`: every required field is filled in, which for the expense
     * form is housing, utilities and groceries, and for the income form
     * salary and savings.
     */
    predicate IsValid(): (valid: bool)
      reads this
      requires Valid()
      ensures kind == ExpenseForm ==> (valid <==> Filled(values[0]) && Filled(values[1]) && Filled(values[2]))
      ensures kind == IncomeForm ==> (valid <==> Filled(values[0]) && Filled(values[3]))
    {
      forall j :: j in RequiredFields(kind) ==> Filled(values[j])
    }

    /** The record submit stores. */
    function Record(): Obj<real>
      reads this
      requires Valid()
    {
      FormRecord(StandardKeys(kind), values, CustomData(customFields))
    }

    /**
     * `handleSubmit`, reachable only through a valid form: the record goes to
     * the form's own section of the profile, and nothing else changes.
     */
    method HandleSubmit(store: FinanceStore)
      requires Valid() && IsValid()
      modifies store
      ensures kind == ExpenseForm ==> store.data == old(store.data).(expenses := Some(Record()))
      ensures kind == IncomeForm ==> store.data == old(store.data).(income := Some(Record()))
    {
      var customData := ReduceCustomFields(customFields);
      var record := FormRecord(StandardKeys(kind), values, customData);
      if kind == ExpenseForm {
        store.SetExpenseDetails(record);
      } else {
        store.SetIncomeDetails(record);
      }
    }
  }

  /**
   * In the stored record every standard field reads as its converted text
   * unless a custom field with the same key overrides it, and every custom
   * key reads as its last kept custom field.
   */
  lemma RecordFields(kind: Kind, values: seq<Input>, fields: seq<CustomField>, k: string)
    requires |values| == |StandardKeys(kind)|
    ensures var r := FormRecord(StandardKeys(kind), values, CustomData(fields));
      && UniqueKeys(r)
      && (forall i :: 0 <= i < |values| ==> r[i].0 == StandardKeys(kind)[i])
      && (HasKey(CustomData(fields), k) ==> Get(r, k) == LastWrite(Writes(fields), k))
      && (forall i :: 0 <= i < |values| && StandardKeys(kind)[i] == k && !HasKey(CustomData(fields), k) ==>
            Get(r, k) == Some(InputOrZero(values[i])))
  {
    FormRecordGet(StandardKeys(kind), values, CustomData(fields), k);
    CustomDataGet(fields, k);
  }

  /**
   * Opening the form on a stored section and submitting it untouched stores
   * every custom amount back under its key, when the stored keys are shaped
   * as the form makes them and amounts print as text that reads back.
   */
  lemma ReopenKeepsCustomAmounts(kind: Kind, existing: Obj<real>, toStr: real -> string, k: string)
    requires UniqueKeys(existing)
    requires forall i :: 0 <= i < |existing| && existing[i].0 !in StandardKeys(kind) ==> IsKeyShaped(existing[i].0)
    requires forall i :: 0 <= i < |existing| ==>
      toStr(existing[i].1) != "" && Number(toStr(existing[i].1)) == Num(existing[i].1)
    requires k !in StandardKeys(kind) && HasKey(existing, k)
    ensures var values := InitialInputs(Some(existing), StandardKeys(kind));
      Get(FormRecord(StandardKeys(kind), values, CustomData(InitialCustomFields(kind, Some(existing), toStr))), k)
        == Get(existing, k)
  {
    var values := InitialInputs(Some(existing), StandardKeys(kind));
    var custom := CustomData(InitialCustomFields(kind, Some(existing), toStr));
    InitThenReduce(existing, StandardKeys(kind), toStr, k);
    FormRecordGet(StandardKeys(kind), values, custom, k);
  }

  /**
   * Opening the form on a stored section and submitting it untouched stores
   * every standard amount back, and 0 for a standard key the section lacks,
   * when the stored custom keys are shaped as the form makes them.
   */
  lemma ReopenKeepsStandardAmounts(kind: Kind, existing: Obj<real>, toStr: real -> string, i: nat)
    requires forall j :: 0 <= j < |existing| && existing[j].0 !in StandardKeys(kind) ==> IsKeyShaped(existing[j].0)
    requires i < |StandardKeys(kind)|
    ensures var values := InitialInputs(Some(existing), StandardKeys(kind));
      Get(FormRecord(StandardKeys(kind), values, CustomData(InitialCustomFields(kind, Some(existing), toStr))),
          StandardKeys(kind)[i])
        == Some(Get(existing, StandardKeys(kind)[i]).GetOr(0.0))
  {
    var keys := StandardKeys(kind);
    var custom := InitialCustomFields(kind, Some(existing), toStr);
    assert custom == InitFields(existing, keys, toStr);
    ReopenKeepsKey(existing, keys, toStr, i);
  }

  /** The same for any distinct list of standard keys. */
  lemma ReopenKeepsKey(existing: Obj<real>, keys: seq<string>, toStr: real -> string, i: nat)
    requires Distinct(keys)
    requires forall j :: 0 <= j < |existing| && existing[j].0 !in keys ==> IsKeyShaped(existing[j].0)
    requires i < |keys|
    ensures var values := InitialInputs(Some(existing), keys);
      Get(FormRecord(keys, values, CustomData(InitFields(existing, keys, toStr))), keys[i])
        == Some(Get(existing, keys[i]).GetOr(0.0))
  {
    var values := InitialInputs(Some(existing), keys);
    var custom := CustomData(InitFields(existing, keys, toStr));
    InitFieldsAvoidStandard(existing, keys, toStr, keys[i]);
    FormRecordGet(keys, values, custom, keys[i]);
    StoredInputReadsBack(existing, keys[i]);
  }

  /** The input a stored key opens with reads back as its amount, or 0 when the key is absent. */
  lemma StoredInputReadsBack(existing: Obj<real>, key: string)
    ensures InputOrZero(InitialInput(Some(existing), key)) == Get(existing, key).GetOr(0.0)
  {
    if HasKey(existing, key) {
      ShowAmountRoundTrip(Get(existing, key).value);
    }
  }
}
