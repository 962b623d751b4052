/**
 * Custom fields shared by the intake forms: the label check of the "add
 * field" box, the duplicate check on adding, the reduction of the custom
 * fields into stored amounts under snake_case keys, the standard-plus-custom
 * record each form stores, and the Title Case fields a form shows for keys it
 * finds in the store.
 *
 * The text a custom field shows for a stored amount, `value.toString()`,
 * is a parameter `toStr`.
 */
module CustomFields {
  import opened Js
  import opened Strings
  import opened Numbers

  datatype CustomField = CustomField(name: string, value: string)

  // ------------------------------------------------------------ the label box

  predicate IsAlNumber(c: char) { IsUpper(c) || IsLower(c) || IsDigit(c) }

  /** `/^[a-zA-Z0-9 ]+$/`. */
  predicate IsFieldLabel(s: string) {
    s != [] && forall i :: 0 <= i < |s| ==> IsAlNumber(s[i]) || s[i] == ' '
  }

  /** What keying does to a string without '_' and without capitals. */
  lemma {:induction false} SnakeShape(s: string)
    requires forall i :: 0 <= i < |s| ==> !IsUpper(s[i]) && s[i] != '_'
    ensures IsKeyShaped(ReplaceSpaceRuns(s, "_"))
    ensures var r := ReplaceSpaceRuns(s, "_"); r != [] && r[0] == '_' ==> IsSpace(s[0])
    decreases |s|
  {
    if s != [] {
      if IsSpace(s[0]) {
        var t := TrimStart(s[1..]);
        assert forall i :: 0 <= i < |t| ==> t[i] == s[1..][|s[1..]| - |t| + i];
        SnakeShape(t);
        var rest := ReplaceSpaceRuns(t, "_");
        assert ReplaceSpaceRuns(s, "_") == ['_'] + rest;
        KeyShapedCons('_', rest);
      } else {
        SnakeShape(s[1..]);
        var rest := ReplaceSpaceRuns(s[1..], "_");
        assert ReplaceSpaceRuns(s, "_") == [s[0]] + rest;
        KeyShapedCons(s[0], rest);
      }
    }
  }

  /** A key-shaped string stays key-shaped behind a character that does not make a "__". */
  lemma KeyShapedCons(c: char, rest: string)
    requires IsKeyShaped(rest) && !IsSpace(c) && !IsUpper(c)
    requires c == '_' && rest != [] ==> rest[0] != '_'
    ensures IsKeyShaped([c] + rest)
  {
    var r := [c] + rest;
    forall i | 0 <= i < |r| - 1 ensures !(r[i] == '_' && r[i + 1] == '_') {
      if i > 0 {
        assert r[i] == rest[i - 1] && r[i + 1] == rest[i];
      }
    }
  }

  /**
   * The key of a label the box accepts has no white space, no capitals and no
   * "__", so showing it as Title Case and keying the result again gives the
   * same key: a custom entry keeps its key across a reload and a save.
   */
  lemma AcceptedLabelKey(name: string)
    requires IsFieldLabel(name)
    ensures IsKeyShaped(SnakeKey(name))
    ensures SnakeKey(TitleCase(SnakeKey(name))) == SnakeKey(name)
  {
    var low := ToLower(name);
    assert forall i :: 0 <= i < |low| ==> low[i] == ToLowerChar(name[i]);
    SnakeShape(low);
    TitleCaseRoundTrip(SnakeKey(name));
  }

  // ------------------------------------------------------------------ adding

  /** `name.toLowerCase().trim()`: how names are compared on adding. */
  function Normalize(name: string): string {
    Trim(ToLower(name))
  }

  /** The normalized names, in order. */
  function NormalizedNames(names: seq<string>): (r: seq<string>)
    ensures |r| == |names|
  {
    if names == [] then []
    else NormalizedNames(names[..|names| - 1]) + [Normalize(names[|names| - 1])]
  }

  /** Some name matches this one, compared lower-cased and trimmed. */
  predicate NameTaken(names: seq<string>, name: string) {
    Normalize(name) in NormalizedNames(names)
  }

  /**
   * Appending a name that is not taken makes it taken, and keeps the
   * normalized names distinct if they were.
   */
  lemma AppendName(names: seq<string>, name: string)
    requires !NameTaken(names, name)
    ensures NameTaken(names + [name], name)
    ensures Distinct(NormalizedNames(names)) ==> Distinct(NormalizedNames(names + [name]))
  {
    assert (names + [name])[..|names|] == names;
    if Distinct(NormalizedNames(names)) {
      DistinctAppend(NormalizedNames(names), Normalize(name));
    }
  }

  function Labels(fields: seq<CustomField>): seq<string> {
    Map(fields, (f: CustomField) => f.name)
  }

  lemma LabelsAppend(fields: seq<CustomField>, f: CustomField)
    ensures Labels(fields + [f]) == Labels(fields) + [f.name]
  {
  }

  /**
   * `handleAddCustomField`: a name that matches an existing label (compared
   * lower-cased and trimmed) leaves the list as it is; any other is appended
   * with an empty value.
   */
  function AddField(fields: seq<CustomField>, name: string): (r: seq<CustomField>)
    ensures NameTaken(Labels(fields), name) ==> r == fields
    ensures !NameTaken(Labels(fields), name) ==> r == fields + [CustomField(name, "")]
  {
    if NameTaken(Labels(fields), name) then fields else fields + [CustomField(name, "")]
  }

  /** After an add the name is taken, so adding it again changes nothing. */
  lemma AddFieldIdempotent(fields: seq<CustomField>, name: string)
    ensures NameTaken(Labels(AddField(fields, name)), name)
    ensures AddField(AddField(fields, name), name) == AddField(fields, name)
  {
    var r := AddField(fields, name);
    if !NameTaken(Labels(fields), name) {
      LabelsAppend(fields, CustomField(name, ""));
      AppendName(Labels(fields), name);
    }
  }

  /** Labels that were distinct (compared lower-cased and trimmed) stay distinct after an add. */
  lemma AddFieldKeepsDistinct(fields: seq<CustomField>, name: string)
    requires Distinct(NormalizedNames(Labels(fields)))
    ensures Distinct(NormalizedNames(Labels(AddField(fields, name))))
  {
    if !NameTaken(Labels(fields), name) {
      LabelsAppend(fields, CustomField(name, ""));
      AppendName(Labels(fields), name);
    }
  }

  // --------------------------------------------------------------- reducing

  /** A custom field that is stored: its text is not empty and converts to a number. */
  predicate Kept(f: CustomField) {
    Truthy(f.value) && Number(f.value).Num?
  }

  /** The assignments the reduction makes: (key, amount) of every kept field, in order. */
  function Writes(fields: seq<CustomField>): Obj<real> {
    Present(Assignments(fields))
  }

  /** The assignment a field makes, if it is kept. */
  function Assignment(f: CustomField): Option<(string, real)> {
    if Kept(f) then Some(WriteOf(f)) else None
  }

  function Assignments(fields: seq<CustomField>): seq<Option<(string, real)>> {
    Map(fields, Assignment)
  }

  /** The assignment a kept field makes: `acc[key] = Number(value)`. */
  function WriteOf(f: CustomField): (string, real)
    requires Kept(f)
  {
    (SnakeKey(f.name), Number(f.value).value)
  }

  /** The reduction of the custom fields into `{key: amount}`, left to right. */
  function CustomData(fields: seq<CustomField>): (r: Obj<real>)
    ensures UniqueKeys(r)
  {
    PutAll(Writes(fields))
  }

  lemma WritesAppend(fields: seq<CustomField>, f: CustomField)
    ensures Writes(fields + [f]) == Writes(fields) + (if Kept(f) then [WriteOf(f)] else [])
  {
    assert Assignments(fields + [f]) == Assignments(fields) + [Assignment(f)];
    PresentAppend(Assignments(fields), Assignment(f));
  }

  /** One more field: a kept field is put under its key, any other changes nothing. */
  lemma CustomDataStep(fields: seq<CustomField>, f: CustomField)
    ensures f.value != "" && Number(f.value).Num? ==>
      CustomData(fields + [f]) == Put(CustomData(fields), SnakeKey(f.name), Number(f.value).value)
    ensures f.value == "" || Number(f.value).NaN? ==> CustomData(fields + [f]) == CustomData(fields)
  {
    WritesAppend(fields, f);
    if Kept(f) {
      PutAllAppend(Writes(fields), WriteOf(f));
    } else {
      assert Writes(fields) + [] == Writes(fields);
    }
  }

  /** Every kept field makes its assignment. */
  lemma KeptFieldWrites(fields: seq<CustomField>, i: int)
    requires 0 <= i < |fields| && Kept(fields[i])
    ensures WriteOf(fields[i]) in Writes(fields)
  {
    PresentHas(Assignments(fields), i);
  }

  /** Every assignment comes from a kept field. */
  lemma WritesFromKeptFields(fields: seq<CustomField>, w: (string, real))
    requires w in Writes(fields)
    ensures exists i :: 0 <= i < |fields| && Kept(fields[i]) && w == WriteOf(fields[i])
  {
    PresentFrom(Assignments(fields), w);
    var i :| 0 <= i < |fields| && Assignments(fields)[i] == Some(w);
    assert Kept(fields[i]);
  }

  /**
   * Each key holds the amount of its last assignment, and a key with white
   * space in it is never stored, since every assigned key is a snake_case key.
   */
  lemma CustomDataGet(fields: seq<CustomField>, k: string)
    ensures Get(CustomData(fields), k) == LastWrite(Writes(fields), k)
    ensures !NoSpaces(k) ==> !HasKey(CustomData(fields), k)
  {
    GetPutAll(Writes(fields), k);
    LastWriteSpec(Writes(fields), k);
    if !NoSpaces(k) {
      forall i | 0 <= i < |Writes(fields)| ensures Writes(fields)[i].0 != k {
        var w := Writes(fields)[i];
        WritesFromKeptFields(fields, w);
        var j :| 0 <= j < |fields| && Kept(fields[j]) && w == WriteOf(fields[j]);
      }
    }
  }

  /** `customFields.reduce(...)` with its accumulator object. */
  method ReduceCustomFields(fields: seq<CustomField>) returns (acc: Obj<real>)
    ensures acc == CustomData(fields)
  {
    acc := [];
    var i := 0;
    while i < |fields|
      invariant 0 <= i <= |fields|
      invariant acc == CustomData(fields[..i])
    {
      PrefixStep(fields, i);
      acc := ReduceStep(fields[..i], acc, fields[i]);
      i := i + 1;
    }
    WholePrefix(fields);
  }

  /** The reducer's body for one field: a field with a numeric value is stored under its key. */
  method ReduceStep(ghost done: seq<CustomField>, acc0: Obj<real>, field: CustomField) returns (acc: Obj<real>)
    requires acc0 == CustomData(done)
    ensures acc == CustomData(done + [field])
  {
    CustomDataStep(done, field);
    acc := acc0;
    if field.value != "" {
      var key := SnakeKey(field.name);
      var numericValue := Number(field.value);
      if numericValue.Num? {
        acc := Put(acc, key, numericValue.value);
      }
    }
  }

  // ---------------------------------------------------------------- records

  /** The standard entries `{key: Number(value) || 0, ...}` in form order. */
  function StandardEntries(keys: seq<string>, values: seq<Input>): (o: Obj<real>)
    requires |keys| == |values|
    ensures |o| == |keys|
    ensures forall i :: 0 <= i < |o| ==> o[i] == (keys[i], InputOrZero(values[i]))
  {
    seq(|keys|, i requires 0 <= i < |keys| => (keys[i], InputOrZero(values[i])))
  }

  /** `{...standard, ...customData}`: the record a form stores. */
  function FormRecord(keys: seq<string>, values: seq<Input>, custom: Obj<real>): Obj<real>
    requires |keys| == |values|
  {
    Merge(StandardEntries(keys, values), custom)
  }

  /**
   * The record starts with the standard keys in form order; a standard key
   * reads its converted form value unless a custom key of the same name
   * overrides it, and every custom key reads its custom amount.
   */
  lemma FormRecordGet(keys: seq<string>, values: seq<Input>, custom: Obj<real>, k: string)
    requires |keys| == |values| && Distinct(keys) && UniqueKeys(custom)
    ensures var r := FormRecord(keys, values, custom);
      && |r| >= |keys|
      && (forall i :: 0 <= i < |keys| ==> r[i].0 == keys[i])
      && UniqueKeys(r)
      && (HasKey(custom, k) ==> Get(r, k) == Get(custom, k))
      && (forall i :: 0 <= i < |keys| && keys[i] == k && !HasKey(custom, k) ==>
            Get(r, k) == Some(InputOrZero(values[i])))
  {
    var std := StandardEntries(keys, values);
    GetMerge(std, custom, k);
    forall i | 0 <= i < |keys| && keys[i] == k
      ensures Get(std, k) == Some(InputOrZero(values[i]))
    {
      GetAt(std, i);
    }
  }

  // ----------------------------------------------------------- initialising

  /**
   * The custom fields a form shows for the stored record: every entry whose
   * key is not a standard one, labelled in Title Case, with its amount as
   * text.
   */
  function InitFields(existing: Obj<real>, standard: seq<string>, toStr: real -> string): (r: seq<CustomField>)
    ensures |r| <= |existing|
  {
    if existing == [] then []
    else
      var e := existing[|existing| - 1];
      InitFields(existing[..|existing| - 1], standard, toStr)
        + (if e.0 !in standard then [CustomField(TitleCase(e.0), toStr(e.1))] else [])
  }

  /**
   * Loading the custom fields from a stored record and reducing them again
   * stores every custom amount back under its own key, provided the keys
   * are shaped as the form makes them and an amount's text converts back to
   * it.
   */
  lemma {:induction false} InitThenReduce(existing: Obj<real>, standard: seq<string>,
                                          toStr: real -> string, k: string)
    requires UniqueKeys(existing)
    requires forall i :: 0 <= i < |existing| && existing[i].0 !in standard ==> IsKeyShaped(existing[i].0)
    requires forall i :: 0 <= i < |existing| ==>
      toStr(existing[i].1) != "" && Number(toStr(existing[i].1)) == Num(existing[i].1)
    requires k !in standard
    ensures Get(CustomData(InitFields(existing, standard, toStr)), k) == Get(existing, k)
  {
    if existing != [] {
      var n := |existing| - 1;
      var init := existing[..n];
      var e := existing[n];
      assert forall i :: 0 <= i < n ==> init[i] == existing[i];
      InitThenReduce(init, standard, toStr, k);
      GetLast(existing, k);
      var prev := InitFields(init, standard, toStr);
      if e.0 !in standard {
        var f := CustomField(TitleCase(e.0), toStr(e.1));
        var fields := prev + [f];
        assert InitFields(existing, standard, toStr) == fields;
        assert fields[..|fields| - 1] == prev;
        TitleCaseRoundTrip(e.0);
        assert Kept(f) && WriteOf(f) == e;
        WritesAppend(prev, f);
        PutAllAppend(Writes(prev), e);
        GetPut(CustomData(prev), e.0, e.1, k);
      } else {
        assert InitFields(existing, standard, toStr) == prev + [];
        assert prev + [] == prev;
      }
    }
  }

  /**
   * The custom fields loaded from a stored record never write a standard
   * key, when the stored custom keys are shaped as the form makes them.
   */
  lemma {:induction false} InitFieldsAvoidStandard(existing: Obj<real>, standard: seq<string>,
                                                   toStr: real -> string, k: string)
    requires forall i :: 0 <= i < |existing| && existing[i].0 !in standard ==> IsKeyShaped(existing[i].0)
    requires k in standard
    ensures !HasKey(CustomData(InitFields(existing, standard, toStr)), k)
  {
    if existing != [] {
      var n := |existing| - 1;
      var init := existing[..n];
      var e := existing[n];
      assert forall i :: 0 <= i < n ==> init[i] == existing[i];
      InitFieldsAvoidStandard(init, standard, toStr, k);
      var prev := InitFields(init, standard, toStr);
      if e.0 !in standard {
        var f := CustomField(TitleCase(e.0), toStr(e.1));
        assert InitFields(existing, standard, toStr) == prev + [f];
        CustomDataStep(prev, f);
        if Kept(f) {
          TitleCaseRoundTrip(e.0);
          GetPut(CustomData(prev), e.0, Number(f.value).value, k);
        }
      } else {
        assert InitFields(existing, standard, toStr) == prev + [];
        assert prev + [] == prev;
      }
    }
  }
}
