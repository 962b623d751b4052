/**
 * The loan intake form: three standard loans and any number of custom loans,
 * each with a total amount, pending years and an EMI. A loan is either left
 * blank or filled in completely; the check builds an error object keyed by
 * loan (`personal`, `home`, `vehicle`, `custom_<index>`) with one message per
 * missing field.
 *
 * The check starts every loan from the errors of the previous check, so an
 * error once shown is never dropped: after one failed check the form fails
 * every later check. The model keeps that behaviour.
 */
module LoanForm {
  import opened Js
  import opened Strings
  import opened Numbers
  import opened FinanceData
  import opened CustomFields
  import opened FinanceStore

  /** The three inputs of one loan. */
  datatype LoanFields = LoanFields(totalAmount: Input, pendingYears: Input, emiPerMonth: Input)

  datatype CustomLoan = CustomLoan(name: string, fields: LoanFields)

  /** `{loanType: {field: message}}`. */
  type Errors = Obj<Obj<string>>

  const RequiredMessage: string := "Required if any loan detail is provided"

  const FieldNames: seq<string> := ["totalAmount", "pendingYears", "emiPerMonth"]

  const StandardLoans: seq<string> := ["personal", "home", "vehicle"]

  const Blank: LoanFields := LoanFields(EmptyInput, EmptyInput, EmptyInput)

  function FieldInput(f: LoanFields, field: string): Input {
    if field == "totalAmount" then f.totalAmount
    else if field == "pendingYears" then f.pendingYears
    else f.emiPerMonth
  }

  /** `{...data, [field]: input}`: the loan with one field replaced. */
  function WithField(f: LoanFields, field: string, x: Input): LoanFields {
    if field == "totalAmount" then f.(totalAmount := x)
    else if field == "pendingYears" then f.(pendingYears := x)
    else f.(emiPerMonth := x)
  }

  /** Replacing a field changes that field and no other. */
  lemma WithFieldInput(f: LoanFields, field: string, x: Input, g: string)
    requires field in FieldNames && g in FieldNames
    ensures FieldInput(WithField(f, field, x), g) == if g == field then x else FieldInput(f, g)
  {
  }

  predicate AnyValue(f: LoanFields) {
    Filled(f.totalAmount) || Filled(f.pendingYears) || Filled(f.emiPerMonth)
  }

  /** What the form asks of every loan: blank, or filled in completely. */
  predicate AllOrNothing(f: LoanFields) {
    !AnyValue(f) || (Filled(f.totalAmount) && Filled(f.pendingYears) && Filled(f.emiPerMonth))
  }

  // ------------------------------------------------------------- validation

  /** The messages recorded under a loan, `{}` when there are none. */
  function Messages(errors: Errors, loanType: string): Obj<string> {
    Get(errors, loanType).GetOr([])
  }

  /** `newErrors[loanType] = {...newErrors[loanType], [field]: message}`. */
  function MarkRequired(errors: Errors, loanType: string, field: string): (r: Errors)
    ensures UniqueKeys(errors) ==> UniqueKeys(r)
  {
    if UniqueKeys(errors) then
      PutKeepsUnique(errors, loanType, Put(Messages(errors, loanType), field, RequiredMessage));
      Put(errors, loanType, Put(Messages(errors, loanType), field, RequiredMessage))
    else
      Put(errors, loanType, Put(Messages(errors, loanType), field, RequiredMessage))
  }

  /** `if (!value) newErrors[loanType] = {...newErrors[loanType], [field]: message}`. */
  function MarkIfBlank(errors: Errors, loanType: string, field: string, input: Input): (r: Errors)
    ensures UniqueKeys(errors) ==> UniqueKeys(r)
  {
    if Filled(input) then errors else MarkRequired(errors, loanType, field)
  }

  /** `validateLoanData(loanType, data)`, starting from the given errors. */
  function ValidateLoanData(errors: Errors, loanType: string, f: LoanFields): (r: Errors)
    ensures !AnyValue(f) ==> r == errors
    ensures UniqueKeys(errors) ==> UniqueKeys(r)
  {
    if AnyValue(f) then
      var e1 := MarkIfBlank(errors, loanType, "totalAmount", f.totalAmount);
      var e2 := MarkIfBlank(e1, loanType, "pendingYears", f.pendingYears);
      MarkIfBlank(e2, loanType, "emiPerMonth", f.emiPerMonth)
    else
      errors
  }

  /** A blank field adds the message under its loan; nothing else changes. */
  lemma MarkIfBlankGet(errors: Errors, loanType: string, field: string, input: Input, k: string)
    requires UniqueKeys(errors)
    ensures Get(MarkIfBlank(errors, loanType, field, input), k)
      == if k == loanType && !Filled(input) then Some(Put(Messages(errors, loanType), field, RequiredMessage))
         else Get(errors, k)
  {
    if !Filled(input) {
      GetPut(errors, loanType, Put(Messages(errors, loanType), field, RequiredMessage), k);
    }
  }

  /**
   * Validation touches only its own loan, keeps every key it was given, and
   * gives its loan a key exactly when it already had one or the loan is
   * partly filled in.
   */
  lemma {:induction false} ValidateKeys(errors: Errors, loanType: string, f: LoanFields, k: string)
    requires UniqueKeys(errors)
    ensures k != loanType ==> Get(ValidateLoanData(errors, loanType, f), k) == Get(errors, k)
    ensures HasKey(ValidateLoanData(errors, loanType, f), k)
      <==> HasKey(errors, k) || (k == loanType && !AllOrNothing(f))
  {
    if AnyValue(f) {
      var e1 := MarkIfBlank(errors, loanType, "totalAmount", f.totalAmount);
      var e2 := MarkIfBlank(e1, loanType, "pendingYears", f.pendingYears);
      MarkIfBlankGet(errors, loanType, "totalAmount", f.totalAmount, k);
      MarkIfBlankGet(e1, loanType, "pendingYears", f.pendingYears, k);
      MarkIfBlankGet(e2, loanType, "emiPerMonth", f.emiPerMonth, k);
    }
  }

  /**
   * Each field of a partly filled-in loan that is blank gets the message;
   * every other field keeps what the loan had before.
   */
  lemma {:induction false} ValidateMessages(errors: Errors, loanType: string, f: LoanFields, field: string)
    requires UniqueKeys(errors) && UniqueKeys(Messages(errors, loanType))
    requires field in FieldNames
    ensures Get(Messages(ValidateLoanData(errors, loanType, f), loanType), field)
      == if AnyValue(f) && !Filled(FieldInput(f, field)) then Some(RequiredMessage)
         else Get(Messages(errors, loanType), field)
  {
    if AnyValue(f) {
      var e1 := MarkIfBlank(errors, loanType, "totalAmount", f.totalAmount);
      var e2 := MarkIfBlank(e1, loanType, "pendingYears", f.pendingYears);
      MarkIfBlankMessages(errors, loanType, "totalAmount", f.totalAmount, field);
      MarkIfBlankMessages(e1, loanType, "pendingYears", f.pendingYears, field);
      MarkIfBlankMessages(e2, loanType, "emiPerMonth", f.emiPerMonth, field);
    }
  }

  lemma MarkIfBlankMessages(errors: Errors, loanType: string, field: string, input: Input, field': string)
    requires UniqueKeys(errors) && UniqueKeys(Messages(errors, loanType))
    ensures UniqueKeys(Messages(MarkIfBlank(errors, loanType, field, input), loanType))
    ensures Get(Messages(MarkIfBlank(errors, loanType, field, input), loanType), field')
      == if field' == field && !Filled(input) then Some(RequiredMessage) else Get(Messages(errors, loanType), field')
  {
    MarkIfBlankGet(errors, loanType, field, input, loanType);
    if !Filled(input) {
      PutKeepsUnique(Messages(errors, loanType), field, RequiredMessage);
      GetPut(Messages(errors, loanType), field, RequiredMessage, field');
    }
  }

  /** The loans the check visits, with the error key of each. */
  function Entries(personal: LoanFields, home: LoanFields, vehicle: LoanFields, loans: seq<CustomLoan>): Obj<LoanFields> {
    [("personal", personal), ("home", home), ("vehicle", vehicle)] + CustomEntries(loans)
  }

  /** `custom_${index}` for every custom loan. */
  function CustomEntries(loans: seq<CustomLoan>): (r: Obj<LoanFields>)
    ensures |r| == |loans|
    ensures forall i :: 0 <= i < |loans| ==> r[i] == ("custom_" + NatToString(i), loans[i].fields)
  {
    seq(|loans|, i requires 0 <= i < |loans| => ("custom_" + NatToString(i), loans[i].fields))
  }

  /** Every loan the check visits has its own key. */
  lemma EntriesUnique(personal: LoanFields, home: LoanFields, vehicle: LoanFields, loans: seq<CustomLoan>)
    ensures UniqueKeys(Entries(personal, home, vehicle, loans))
  {
    var c := CustomEntries(loans);
    var e := Entries(personal, home, vehicle, loans);
    forall i, j | 0 <= i < j < |e| ensures e[i].0 != e[j].0 {
      if 3 <= i {
        if e[i].0 == e[j].0 {
          var a := NatToString(i - 3);
          var b := NatToString(j - 3);
          assert e[i].0[7..] == a && e[j].0[7..] == b;
          NatToStringInjective(i - 3, j - 3);
        }
      } else {
        assert e[j].0[0] != e[i].0[0];
      }
    }
  }

  /**
   * `isFormValid`'s error object: the results of validating every loan from
   * the given previous errors, spread one after the other into `{}`.
   */
  function AllErrors(previous: Errors, entries: Obj<LoanFields>): (r: Errors)
    ensures UniqueKeys(previous) ==> UniqueKeys(r)
  {
    if entries == [] then []
    else
      var e := entries[|entries| - 1];
      Merge(AllErrors(previous, entries[..|entries| - 1]), ValidateLoanData(previous, e.0, e.1))
  }

  lemma AllErrorsAppend(previous: Errors, init: Obj<LoanFields>, e: (string, LoanFields))
    ensures AllErrors(previous, init + [e]) == Merge(AllErrors(previous, init), ValidateLoanData(previous, e.0, e.1))
  {
    assert (init + [e])[..|init|] == init;
  }

  lemma AllErrorsPrefix(previous: Errors, entries: Obj<LoanFields>, i: int)
    requires 0 <= i < |entries|
    ensures AllErrors(previous, entries[..i + 1])
      == Merge(AllErrors(previous, entries[..i]), ValidateLoanData(previous, entries[i].0, entries[i].1))
  {
    assert entries[..i + 1][..i] == entries[..i];
  }

  lemma CustomEntriesAppend(std: Obj<LoanFields>, loans: seq<CustomLoan>, j: int)
    requires 0 <= j < |loans|
    ensures std + CustomEntries(loans[..j + 1]) == std + CustomEntries(loans[..j]) + [("custom_" + NatToString(j), loans[j].fields)]
  {
    assert CustomEntries(loans[..j + 1]) == CustomEntries(loans[..j]) + [("custom_" + NatToString(j), loans[j].fields)];
  }

  /** Some loan under key k is partly filled in. */
  predicate Incomplete(entries: Obj<LoanFields>, k: string) {
    exists i :: 0 <= i < |entries| && entries[i].0 == k && !AllOrNothing(entries[i].1)
  }

  lemma MergeHasKey<V>(a: Obj<V>, b: Obj<V>, k: string)
    requires UniqueKeys(a) && UniqueKeys(b)
    ensures HasKey(Merge(a, b), k) <==> HasKey(a, k) || HasKey(b, k)
  {
    GetMerge(a, b, k);
  }

  /** One more loan: its validation is spread over the errors so far. */
  lemma AllErrorsAppendHasKey(previous: Errors, init: Obj<LoanFields>, e: (string, LoanFields), k: string)
    requires UniqueKeys(previous)
    ensures HasKey(AllErrors(previous, init + [e]), k)
      <==> HasKey(AllErrors(previous, init), k) || HasKey(previous, k) || (k == e.0 && !AllOrNothing(e.1))
  {
    assert (init + [e])[..|init|] == init;
    MergeHasKey(AllErrors(previous, init), ValidateLoanData(previous, e.0, e.1), k);
    ValidateKeys(previous, e.0, e.1, k);
  }

  lemma IncompleteAppend(init: Obj<LoanFields>, e: (string, LoanFields), k: string)
    ensures Incomplete(init + [e], k) <==> Incomplete(init, k) || (e.0 == k && !AllOrNothing(e.1))
  {
    var entries := init + [e];
    if Incomplete(init, k) {
      var i :| 0 <= i < |init| && init[i].0 == k && !AllOrNothing(init[i].1);
      assert entries[i] == init[i];
    }
    if Incomplete(entries, k) && !(e.0 == k && !AllOrNothing(e.1)) {
      var i :| 0 <= i < |entries| && entries[i].0 == k && !AllOrNothing(entries[i].1);
      assert i < |init| && init[i] == entries[i];
    }
    assert entries[|init|] == e;
  }

  /**
   * A key has errors after the check exactly when the previous check left
   * errors under it or some loan under it is partly filled in.
   */
  lemma {:induction false} AllErrorsHasKey(previous: Errors, entries: Obj<LoanFields>, k: string)
    requires UniqueKeys(previous)
    ensures HasKey(AllErrors(previous, entries), k)
      <==> (entries != [] && HasKey(previous, k)) || Incomplete(entries, k)
  {
    if entries != [] {
      var n := |entries| - 1;
      assert entries == entries[..n] + [entries[n]];
      AllErrorsHasKey(previous, entries[..n], k);
      AllErrorsAppendHasKey(previous, entries[..n], entries[n], k);
      IncompleteAppend(entries[..n], entries[n], k);
    }
  }

  /** A previous error is never dropped, so a form that failed once fails every later check. */
  lemma PreviousErrorsPersist(previous: Errors, entries: Obj<LoanFields>)
    requires UniqueKeys(previous) && previous != [] && entries != []
    ensures AllErrors(previous, entries) != []
  {
    AllErrorsHasKey(previous, entries, previous[0].0);
  }

  /** Starting from no errors, the check passes exactly when every loan is blank or complete. */
  lemma FirstCheck(entries: Obj<LoanFields>)
    ensures AllErrors([], entries) == [] <==> forall i :: 0 <= i < |entries| ==> AllOrNothing(entries[i].1)
  {
    if AllErrors([], entries) != [] {
      AllErrorsHasKey([], entries, AllErrors([], entries)[0].0);
    }
    forall i | 0 <= i < |entries| && !AllOrNothing(entries[i].1)
      ensures AllErrors([], entries) != []
    {
      AllErrorsHasKey([], entries, entries[i].0);
    }
  }

  /**
   * Starting from no errors, the messages shown under a loan's key are those
   * of validating that loan alone, when no other loan shares its key.
   */
  lemma {:induction false} FirstCheckMessages(entries: Obj<LoanFields>, i: int)
    requires UniqueKeys(entries) && 0 <= i < |entries|
    ensures Messages(AllErrors([], entries), entries[i].0)
      == Messages(ValidateLoanData([], entries[i].0, entries[i].1), entries[i].0)
  {
    var n := |entries| - 1;
    var init := entries[..n];
    var e := entries[n];
    var k := entries[i].0;
    GetMerge(AllErrors([], init), ValidateLoanData([], e.0, e.1), k);
    ValidateKeys([], e.0, e.1, k);
    if i < n {
      assert init[i] == entries[i];
      FirstCheckMessages(init, i);
    } else {
      AllErrorsHasKey([], init, k);
      assert !Incomplete(init, k) by {
        forall j | 0 <= j < |init| ensures init[j].0 != k {
          assert entries[j].0 != entries[n].0;
        }
      }
    }
  }

  /**
   * On a first check, a loan that is partly filled in shows the message on
   * exactly its blank fields, and a loan that is blank or complete shows none.
   */
  lemma FirstCheckFieldMessages(entries: Obj<LoanFields>, i: int, field: string)
    requires UniqueKeys(entries) && 0 <= i < |entries| && field in FieldNames
    ensures Get(Messages(AllErrors([], entries), entries[i].0), field)
      == if AnyValue(entries[i].1) && !Filled(FieldInput(entries[i].1, field)) then Some(RequiredMessage) else None
  {
    FirstCheckMessages(entries, i);
    ValidateMessages([], entries[i].0, entries[i].1, field);
  }

  // ------------------------------------------------------------- submitting

  /** `{totalAmount: Number(..) || 0, pendingYears: .., emiPerMonth: ..}`. */
  function LoanOf(f: LoanFields): Loan {
    Loan(InputOrZero(f.totalAmount), InputOrZero(f.pendingYears), InputOrZero(f.emiPerMonth))
  }

  /** `acc[key] = {...}` for one loan, under its snake_case key. */
  function LoanWrite(l: CustomLoan): (string, Loan) {
    (SnakeKey(l.name), LoanOf(l.fields))
  }

  /** The assignment the reduction makes for a loan; a blank loan makes none. */
  function Assignment(l: CustomLoan): Option<(string, Loan)> {
    if AnyValue(l.fields) then Some(LoanWrite(l)) else None
  }

  function Assignments(loans: seq<CustomLoan>): seq<Option<(string, Loan)>> {
    Map(loans, Assignment)
  }

  /** The assignments the reduction makes, in order. */
  function LoanWrites(loans: seq<CustomLoan>): Obj<Loan> {
    Present(Assignments(loans))
  }

  function CustomLoansData(loans: seq<CustomLoan>): (r: Obj<Loan>)
    ensures UniqueKeys(r)
  {
    PutAll(LoanWrites(loans))
  }

  lemma LoanWritesAppend(loans: seq<CustomLoan>, l: CustomLoan)
    ensures LoanWrites(loans + [l]) == LoanWrites(loans) + (if AnyValue(l.fields) then [LoanWrite(l)] else [])
  {
    assert Assignments(loans + [l]) == Assignments(loans) + [Assignment(l)];
    PresentAppend(Assignments(loans), Assignment(l));
  }

  /** One more loan: a filled-in loan is put under its key, a blank one changes nothing. */
  lemma CustomLoansDataStep(loans: seq<CustomLoan>, l: CustomLoan)
    ensures AnyValue(l.fields) ==>
      CustomLoansData(loans + [l]) == Put(CustomLoansData(loans), SnakeKey(l.name), LoanOf(l.fields))
    ensures !AnyValue(l.fields) ==> CustomLoansData(loans + [l]) == CustomLoansData(loans)
  {
    LoanWritesAppend(loans, l);
    if AnyValue(l.fields) {
      PutAllAppend(LoanWrites(loans), LoanWrite(l));
    } else {
      assert LoanWrites(loans) + [] == LoanWrites(loans);
    }
  }

  /** Every assignment comes from a custom loan that is not blank. */
  lemma LoanWritesFromFilled(loans: seq<CustomLoan>, w: (string, Loan))
    requires w in LoanWrites(loans)
    ensures exists i :: 0 <= i < |loans| && AnyValue(loans[i].fields) && w == LoanWrite(loans[i])
  {
    PresentFrom(Assignments(loans), w);
  }

  /** Every custom loan that is not blank makes its assignment. */
  lemma FilledLoanWrites(loans: seq<CustomLoan>, i: int)
    requires 0 <= i < |loans| && AnyValue(loans[i].fields)
    ensures LoanWrite(loans[i]) in LoanWrites(loans)
  {
    PresentHas(Assignments(loans), i);
  }

  /**
   * Each key holds the loan of its last assignment; blank loans store
   * nothing, and no stored key has white space in it.
   */
  lemma CustomLoansGet(loans: seq<CustomLoan>, k: string)
    ensures Get(CustomLoansData(loans), k) == LastWrite(LoanWrites(loans), k)
    ensures (forall i :: 0 <= i < |loans| ==> !AnyValue(loans[i].fields)) ==> CustomLoansData(loans) == []
    ensures !NoSpaces(k) ==> !HasKey(CustomLoansData(loans), k)
  {
    GetPutAll(LoanWrites(loans), k);
    LastWriteSpec(LoanWrites(loans), k);
    if LoanWrites(loans) != [] {
      LoanWritesFromFilled(loans, LoanWrites(loans)[0]);
    }
    if !NoSpaces(k) {
      forall j | 0 <= j < |LoanWrites(loans)| ensures LoanWrites(loans)[j].0 != k {
        var w := LoanWrites(loans)[j];
        LoanWritesFromFilled(loans, w);
        var i :| 0 <= i < |loans| && AnyValue(loans[i].fields) && w == LoanWrite(loans[i]);
      }
    }
  }

  /** `customLoans.reduce(...)` with its accumulator object. */
  method ReduceCustomLoans(loans: seq<CustomLoan>) returns (acc: Obj<Loan>)
    ensures acc == CustomLoansData(loans)
  {
    acc := [];
    var i := 0;
    while i < |loans|
      invariant 0 <= i <= |loans|
      invariant acc == CustomLoansData(loans[..i])
    {
      PrefixStep(loans, i);
      acc := ReduceStep(loans[..i], acc, loans[i]);
      i := i + 1;
    }
    WholePrefix(loans);
  }

  /** The reducer's body for one loan: a loan with any value is stored under its key. */
  method ReduceStep(ghost done: seq<CustomLoan>, acc0: Obj<Loan>, loan: CustomLoan) returns (acc: Obj<Loan>)
    requires acc0 == CustomLoansData(done)
    ensures acc == CustomLoansData(done + [loan])
  {
    CustomLoansDataStep(done, loan);
    acc := acc0;
    if AnyValue(loan.fields) {
      var key := SnakeKey(loan.name);
      acc := Put(acc, key, LoanOf(loan.fields));
    }
  }

  /** `{personal, home, vehicle, ...customLoansData}`. */
  function LoanRecord(personal: LoanFields, home: LoanFields, vehicle: LoanFields, loans: seq<CustomLoan>): Obj<Loan> {
    Merge([("personal", LoanOf(personal)), ("home", LoanOf(home)), ("vehicle", LoanOf(vehicle))],
          CustomLoansData(loans))
  }

  /**
   * `{personal: p, home: h, vehicle: v, ...custom}`: it starts with the three
   * standard keys; each reads its own value unless the custom object has the
   * key, and custom keys read their custom value.
   */
  lemma StandardThenCustom<V>(p: V, h: V, v: V, custom: Obj<V>, k: string)
    requires UniqueKeys(custom)
    ensures var r := Merge([("personal", p), ("home", h), ("vehicle", v)], custom);
      && UniqueKeys(r) && |r| >= 3
      && r[0].0 == "personal" && r[1].0 == "home" && r[2].0 == "vehicle"
      && (HasKey(custom, k) ==> Get(r, k) == Get(custom, k))
      && (!HasKey(custom, k) && k == "personal" ==> Get(r, k) == Some(p))
      && (!HasKey(custom, k) && k == "home" ==> Get(r, k) == Some(h))
      && (!HasKey(custom, k) && k == "vehicle" ==> Get(r, k) == Some(v))
  {
    GetMerge([("personal", p), ("home", h), ("vehicle", v)], custom, k);
  }

  /**
   * The record starts with the three standard loans; each reads its form
   * values unless a custom loan has the same key, and custom keys read their
   * last custom loan.
   */
  lemma LoanRecordGet(personal: LoanFields, home: LoanFields, vehicle: LoanFields, loans: seq<CustomLoan>, k: string)
    ensures var r := LoanRecord(personal, home, vehicle, loans);
      && UniqueKeys(r) && |r| >= 3
      && r[0].0 == "personal" && r[1].0 == "home" && r[2].0 == "vehicle"
      && (HasKey(CustomLoansData(loans), k) ==> Get(r, k) == LastWrite(LoanWrites(loans), k))
      && (!HasKey(CustomLoansData(loans), k) && k == "personal" ==> Get(r, k) == Some(LoanOf(personal)))
      && (!HasKey(CustomLoansData(loans), k) && k == "home" ==> Get(r, k) == Some(LoanOf(home)))
      && (!HasKey(CustomLoansData(loans), k) && k == "vehicle" ==> Get(r, k) == Some(LoanOf(vehicle)))
  {
    StandardThenCustom(LoanOf(personal), LoanOf(home), LoanOf(vehicle), CustomLoansData(loans), k);
    GetPutAll(LoanWrites(loans), k);
  }

  // ----------------------------------------------------------------- adding

  function LoanNames(loans: seq<CustomLoan>): seq<string> {
    Map(loans, (l: CustomLoan) => l.name)
  }

  /** A name the add refuses: a standard loan type or an existing custom loan, compared lower-cased and trimmed. */
  predicate Refused(loans: seq<CustomLoan>, name: string) {
    Normalize(name) in StandardLoans || NameTaken(LoanNames(loans), name)
  }

  /** `handleAddCustomLoan`: a refused name leaves the list; any other is appended blank. */
  function AddLoan(loans: seq<CustomLoan>, name: string): (r: seq<CustomLoan>)
    ensures Refused(loans, name) ==> r == loans
    ensures !Refused(loans, name) ==> r == loans + [CustomLoan(name, Blank)]
  {
    if Refused(loans, name) then loans else loans + [CustomLoan(name, Blank)]
  }

  /**
   * After an add the name is refused, so adding it again changes nothing,
   * and custom names that were distinct stay distinct.
   */
  lemma AddLoanOnce(loans: seq<CustomLoan>, name: string)
    requires !Refused(loans, name)
    ensures Refused(loans + [CustomLoan(name, Blank)], name)
    ensures Distinct(NormalizedNames(LoanNames(loans)))
      ==> Distinct(NormalizedNames(LoanNames(loans + [CustomLoan(name, Blank)])))
  {
    LoanNamesAppend(loans, CustomLoan(name, Blank));
    AppendName(LoanNames(loans), name);
  }

  lemma LoanNamesAppend(loans: seq<CustomLoan>, l: CustomLoan)
    ensures LoanNames(loans + [l]) == LoanNames(loans) + [l.name]
  {
  }

  /** A standard loan type in any mix of capitals is refused, whatever custom loans there are. */
  lemma CapitalizedStandardRefused(loans: seq<CustomLoan>, name: string)
    requires ToLower(name) in StandardLoans
    ensures Refused(loans, name)
  {
    var low := ToLower(name);
    assert low[0] == StandardLoans[0][0] || low[0] == StandardLoans[1][0] || low[0] == StandardLoans[2][0];
    TrimOfWord(low);
  }

  // -------------------------------------------------------------- the form

  /**
   * `existingData?.[loanType]?.[field] || ''` for the three fields: each holds
   * its stored number, or the empty text for no stored loan or a stored 0.
   */
  function InitialFields(existing: Option<Obj<Loan>>, loanType: string): (f: LoanFields)
    ensures existing.None? ==> f == Blank
  {
    match existing
    case None => Blank
    case Some(o) =>
      match Get(o, loanType)
      case None => Blank
      case Some(l) =>
        LoanFields(ShowAmount(l.totalAmount), ShowAmount(l.pendingYears), ShowAmount(l.emiPerMonth))
  }

  /** The custom loans the form shows for stored loans whose key is not a standard one, in Title Case. */
  function InitLoans(existing: Obj<Loan>, toStr: real -> string): (r: seq<CustomLoan>)
    ensures |r| <= |existing|
  {
    if existing == [] then []
    else
      var e := existing[|existing| - 1];
      InitLoans(existing[..|existing| - 1], toStr)
        + (if e.0 !in StandardLoans then
             [CustomLoan(TitleCase(e.0),
                         LoanFields(Typed(toStr(e.1.totalAmount)), Typed(toStr(e.1.pendingYears)), Typed(toStr(e.1.emiPerMonth))))]
           else [])
  }

  /**
   * The two loops of `isFormValid`: every standard loan, then every custom
   * loan under `custom_<index>`, each validated from the previous errors and
   * spread into the new error object.
   */
  method CheckLoans(previous: Errors, std: Obj<LoanFields>, loans: seq<CustomLoan>) returns (newErrors: Errors)
    ensures newErrors == AllErrors(previous, std + CustomEntries(loans))
  {
    newErrors := [];
    var i := 0;
    while i < |std|
      invariant 0 <= i <= |std|
      invariant newErrors == AllErrors(previous, std[..i])
    {
      AllErrorsPrefix(previous, std, i);
      newErrors := Merge(newErrors, ValidateLoanData(previous, std[i].0, std[i].1));
      i := i + 1;
    }
    assert std + CustomEntries(loans[..0]) == std[..|std|];
    var j := 0;
    while j < |loans|
      invariant 0 <= j <= |loans|
      invariant newErrors == AllErrors(previous, std + CustomEntries(loans[..j]))
    {
      var key := "custom_" + NatToString(j);
      CustomEntriesAppend(std, loans, j);
      AllErrorsAppend(previous, std + CustomEntries(loans[..j]), (key, loans[j].fields));
      newErrors := Merge(newErrors, ValidateLoanData(previous, key, loans[j].fields));
      j := j + 1;
    }
    WholePrefix(loans);
  }

  class LoanForm {
    var personal: LoanFields
    var home: LoanFields
    var vehicle: LoanFields
    var customLoans: seq<CustomLoan>
    var errors: Errors

    /** The error object always has distinct keys. */
    predicate Valid()
      reads this
    {
      UniqueKeys(errors)
    }

    constructor(existing: Option<Obj<Loan>>, toStr: real -> string)
      ensures Valid() && errors == []
      ensures personal == InitialFields(existing, "personal")
      ensures home == InitialFields(existing, "home")
      ensures vehicle == InitialFields(existing, "vehicle")
      ensures customLoans == match existing case None => [] case Some(o) => InitLoans(o, toStr)
    {
      personal := InitialFields(existing, "personal");
      home := InitialFields(existing, "home");
      vehicle := InitialFields(existing, "vehicle");
      customLoans := match existing case None => [] case Some(o) => InitLoans(o, toStr);
      errors := [];
    }

    /** The `onChange` of a standard loan's field: from now on it holds the typed text. */
    method SetStandardField(loanType: string, field: string, text: string)
      requires loanType in StandardLoans && field in FieldNames
      modifies this
      ensures personal == if loanType == "personal" then WithField(old(personal), field, Typed(text)) else old(personal)
      ensures home == if loanType == "home" then WithField(old(home), field, Typed(text)) else old(home)
      ensures vehicle == if loanType == "vehicle" then WithField(old(vehicle), field, Typed(text)) else old(vehicle)
      ensures customLoans == old(customLoans) && errors == old(errors)
    {
      if loanType == "personal" {
        personal := WithField(personal, field, Typed(text));
      } else if loanType == "home" {
        home := WithField(home, field, Typed(text));
      } else {
        vehicle := WithField(vehicle, field, Typed(text));
      }
    }

    /** The `onChange` of a custom loan's field. */
    method SetCustomField(i: nat, field: string, text: string)
      requires i < |customLoans| && field in FieldNames
      modifies this
      ensures customLoans == old(customLoans)[i := CustomLoan(old(customLoans)[i].name,
                                                              WithField(old(customLoans)[i].fields, field, Typed(text)))]
      ensures personal == old(personal) && home == old(home) && vehicle == old(vehicle)
      ensures errors == old(errors)
    {
      customLoans := customLoans[i := CustomLoan(customLoans[i].name, WithField(customLoans[i].fields, field, Typed(text)))];
    }

    function CurrentEntries(): Obj<LoanFields>
      reads this
    {
      Entries(personal, home, vehicle, customLoans)
    }

    /**
     * `isFormValid`: validates the standard loans, then the custom ones, each
     * from the errors of the previous check, stores the merged errors and
     * reports whether there are none.
     */
    method IsFormValid() returns (valid: bool)
      requires Valid()
      modifies this
      ensures Valid()
      ensures errors == AllErrors(old(errors), old(CurrentEntries()))
      ensures personal == old(personal) && home == old(home) && vehicle == old(vehicle)
      ensures customLoans == old(customLoans)
      ensures valid <==> errors == []
    {
      var newErrors := CheckLoans(errors, [("personal", personal), ("home", home), ("vehicle", vehicle)], customLoans);
      errors := newErrors;
      valid := |Keys(newErrors)| == 0;
    }

    /** The record submit stores. */
    function Record(): Obj<Loan>
      reads this
    {
      LoanRecord(personal, home, vehicle, customLoans)
    }

    /** `handleSubmit`: checks the form and, only if it passes, stores the loan record. */
    method HandleSubmit(store: FinanceStore) returns (submitted: bool)
      requires Valid()
      modifies this, store
      ensures Valid()
      ensures errors == AllErrors(old(errors), old(CurrentEntries()))
      ensures submitted <==> errors == []
      ensures submitted ==> store.data == old(store.data).(loans := Some(Record()))
      ensures !submitted ==> store.data == old(store.data)
      ensures personal == old(personal) && home == old(home) && vehicle == old(vehicle)
      ensures customLoans == old(customLoans)
    {
      submitted := IsFormValid();
      if !submitted {
        return;
      }
      var customLoansData := ReduceCustomLoans(customLoans);
      var loanData := Merge([("personal", LoanOf(personal)), ("home", LoanOf(home)), ("vehicle", LoanOf(vehicle))],
                            customLoansData);
      store.SetLoanDetails(loanData);
    }

    /** `handleAddCustomLoan`: a refused name leaves the list; any other is appended blank. */
    method HandleAddCustomLoan(name: string)
      modifies this
      ensures customLoans == AddLoan(old(customLoans), name)
      ensures personal == old(personal) && home == old(home) && vehicle == old(vehicle)
      ensures errors == old(errors)
    {
      customLoans := AddLoan(customLoans, name);
    }
  }

  /**
   * A concrete run: the user fills in only the personal total, checks (and is
   * told the other two personal fields are required), completes the personal
   * loan and checks again. The second check still fails.
   */
  lemma FixedFormStillFails()
    ensures var first := AllErrors([], Entries(LoanFields(Typed("1000"), EmptyInput, EmptyInput), Blank, Blank, []));
      && first != []
      && AllErrors([], Entries(LoanFields(Typed("1000"), Typed("2"), Typed("50")), Blank, Blank, [])) == []
      && AllErrors(first, Entries(LoanFields(Typed("1000"), Typed("2"), Typed("50")), Blank, Blank, [])) != []
  {
    var e1 := Entries(LoanFields(Typed("1000"), EmptyInput, EmptyInput), Blank, Blank, []);
    var e2 := Entries(LoanFields(Typed("1000"), Typed("2"), Typed("50")), Blank, Blank, []);
    assert !AllOrNothing(e1[0].1);
    FirstCheck(e1);
    FirstCheck(e2);
    PreviousErrorsPersist(AllErrors([], e1), e2);
  }
}
