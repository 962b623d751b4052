/**
 * The "add custom field" box the expense and income forms share: a button
 * that opens a text input, and a submit that trims the label, refuses an
 * empty one or one with characters other than ASCII letters, digits and
 * spaces, and otherwise hands the trimmed label to the form and closes.
 */
module FieldBox {
  import opened Js
  import opened Strings
  import opened CustomFields

  const EmptyLabelMessage: string := "Field name cannot be empty"
  const BadLabelMessage: string := "Field name can only contain letters, numbers, and spaces"

  /** What a submit makes of the typed label. */
  datatype LabelCheck = EmptyLabel | BadLabel | AcceptedLabel(trimmed: string)

  /** The two checks of `handleSubmit`, in their order. */
  function CheckLabel(fieldLabel: string): (r: LabelCheck)
    ensures r.EmptyLabel? <==> Trim(fieldLabel) == ""
    ensures r.AcceptedLabel? <==> IsFieldLabel(Trim(fieldLabel))
    ensures r.AcceptedLabel? ==> r.trimmed == Trim(fieldLabel)
  {
    var t := Trim(fieldLabel);
    if t == "" then EmptyLabel
    else if !IsFieldLabel(t) then BadLabel
    else AcceptedLabel(t)
  }

  /** Trimming a trimmed string changes nothing. */
  lemma TrimTwice(s: string)
    ensures Trim(Trim(s)) == Trim(s)
  {
  }

  /**
   * An accepted label is non-empty, starts and ends with a letter or digit,
   * and is accepted unchanged when submitted again.
   */
  lemma AcceptedLabelShape(fieldLabel: string)
    requires CheckLabel(fieldLabel).AcceptedLabel?
    ensures var l := CheckLabel(fieldLabel).trimmed;
      && l != [] && IsAlNumber(l[0]) && IsAlNumber(l[|l| - 1])
      && CheckLabel(l) == AcceptedLabel(l)
  {
    TrimTwice(fieldLabel);
  }

  /** A label of white space alone is refused as empty. */
  lemma BlankLabelRefused(fieldLabel: string)
    requires forall i :: 0 <= i < |fieldLabel| ==> IsSpace(fieldLabel[i])
    ensures CheckLabel(fieldLabel) == EmptyLabel
  {
    TrimEmptyIff(fieldLabel);
  }

  /**
   * The key a form stores for an accepted label is snake_case without "__",
   * and showing it as Title Case and keying that again gives the same key.
   */
  lemma AcceptedLabelKeyed(fieldLabel: string)
    requires CheckLabel(fieldLabel).AcceptedLabel?
    ensures var key := SnakeKey(CheckLabel(fieldLabel).trimmed);
      IsKeyShaped(key) && SnakeKey(TitleCase(key)) == key
  {
    AcceptedLabelKey(Trim(fieldLabel));
  }

  class AddCustomField {
    var isAdding: bool
    var fieldLabel: string
    var error: string

    constructor()
      ensures !isAdding && fieldLabel == "" && error == ""
    {
      isAdding := false;
      fieldLabel := "";
      error := "";
    }

    /** The "Add Custom Field" button. */
    method Open()
      modifies this
      ensures isAdding && fieldLabel == old(fieldLabel) && error == old(error)
    {
      isAdding := true;
    }

    /** The "Cancel" button: the typed label and the error stay. */
    method Cancel()
      modifies this
      ensures !isAdding && fieldLabel == old(fieldLabel) && error == old(error)
    {
      isAdding := false;
    }

    /** Typing in the input. */
    method SetLabel(text: string)
      modifies this
      ensures fieldLabel == text && isAdding == old(isAdding) && error == old(error)
    {
      fieldLabel := text;
    }

    /**
     * `handleSubmit`: `added` is the label handed to `onAdd`, if any. A
     * refused label shows its message and leaves the box open with the text;
     * an accepted one clears the error and the text and closes the box.
     */
    method HandleSubmit() returns (added: Option<string>)
      modifies this
      ensures match CheckLabel(old(fieldLabel))
        case EmptyLabel =>
          added.None? && error == EmptyLabelMessage && fieldLabel == old(fieldLabel) && isAdding == old(isAdding)
        case BadLabel =>
          added.None? && error == BadLabelMessage && fieldLabel == old(fieldLabel) && isAdding == old(isAdding)
        case AcceptedLabel(trimmed) =>
          added == Some(trimmed) && error == "" && fieldLabel == "" && !isAdding
    {
      error := "";
      if Trim(fieldLabel) == "" {
        error := EmptyLabelMessage;
        return None;
      }
      if !IsFieldLabel(Trim(fieldLabel)) {
        error := BadLabelMessage;
        return None;
      }
      added := Some(Trim(fieldLabel));
      fieldLabel := "";
      isAdding := false;
    }
  }
}
