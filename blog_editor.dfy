/**
 * The blog post editor: six text inputs and a published flag. Validation
 * builds a fresh error object with one message for each input that is blank
 * after trimming; typing in an input replaces its text and clears an error
 * shown for it.
 */
module BlogEditor {
  import opened Js
  import opened Strings

  /** The six validated inputs. */
  datatype Field = Title | Excerpt | Content | Author | ImageUrl | ReadTime

  /** The message `validateForm` shows for a blank input. */
  function Message(f: Field): string {
    match f
    case Title => "Title is required"
    case Excerpt => "Excerpt is required"
    case Content => "Content is required"
    case Author => "Author is required"
    case ImageUrl => "Image URL is required"
    case ReadTime => "Read time is required"
  }

  /** The text inputs; `published` lives beside them and is never validated. */
  datatype BlogTexts = BlogTexts(title: string, excerpt: string, content: string, author: string, imageUrl: string, readTime: string)

  function TextOf(t: BlogTexts, f: Field): string {
    match f
    case Title => t.title
    case Excerpt => t.excerpt
    case Content => t.content
    case Author => t.author
    case ImageUrl => t.imageUrl
    case ReadTime => t.readTime
  }

  /** `{ ...formData, [field]: value }`: only the named input changes. */
  function With(t: BlogTexts, f: Field, value: string): (r: BlogTexts)
    ensures forall g :: TextOf(r, g) == if g == f then value else TextOf(t, g)
  {
    match f
    case Title => t.(title := value)
    case Excerpt => t.(excerpt := value)
    case Content => t.(content := value)
    case Author => t.(author := value)
    case ImageUrl => t.(imageUrl := value)
    case ReadTime => t.(readTime := value)
  }

  /** `!formData[field].trim()`. */
  predicate Blank(t: BlogTexts, f: Field) {
    Trim(TextOf(t, f)) == ""
  }

  /** `errors[field]` is truthy: an error is shown for the input. */
  predicate ErrorShown(errors: map<Field, string>, f: Field) {
    f in errors && errors[f] != ""
  }

  const AllFields: set<Field> := {Title, Excerpt, Content, Author, ImageUrl, ReadTime}

  /** The blank inputs. */
  ghost function BlankFields(t: BlogTexts): set<Field> {
    set f | f in AllFields && Blank(t, f)
  }

  /** The position of an input in the checking order. */
  function Rank(f: Field): (n: nat)
    ensures n < 6
  {
    match f
    case Title => 0
    case Excerpt => 1
    case Content => 2
    case Author => 3
    case ImageUrl => 4
    case ReadTime => 5
  }

  lemma InAllFields(f: Field)
    ensures f in AllFields
  {
    match f
    case Title =>
    case Excerpt =>
    case Content =>
    case Author =>
    case ImageUrl =>
    case ReadTime =>
  }

  /** An input is among the blank ones exactly when its trimmed text is empty. */
  lemma BlankFieldsHas(t: BlogTexts, f: Field)
    ensures f in BlankFields(t) <==> Trim(TextOf(t, f)) == ""
  {
    InAllFields(f);
  }

  /** m holds exactly the errors `validateForm` makes for the first done inputs, the inputs of blank being blank. */
  predicate Covers(m: map<Field, string>, blank: set<Field>, done: nat) {
    forall g :: (g in m <==> Rank(g) < done && g in blank) && (g in m ==> m[g] == Message(g))
  }

  /** One `if` of `validateForm`: checking input f extends what the errors cover by f. */
  lemma CheckStep(prev: map<Field, string>, next: map<Field, string>, blank: set<Field>, done: nat, f: Field)
    requires Covers(prev, blank, done) && Rank(f) == done
    requires next == if f in blank then prev[f := Message(f)] else prev
    ensures Covers(next, blank, done + 1)
  {
  }

  /** Once every input is checked, the errors are exactly those of the blank inputs. */
  lemma AllChecked(m: map<Field, string>, blank: set<Field>)
    requires Covers(m, blank, 6) && blank <= AllFields
    ensures forall f :: f in m <==> f in blank
    ensures forall f :: f in m ==> m[f] == Message(f)
    ensures |m| == 0 <==> blank == {}
  {
    if |m| != 0 {
      var f :| f in m;
    }
  }

  /** No input is blank exactly when the set of blank inputs is empty. */
  lemma BlankFieldsEmpty(t: BlogTexts)
    ensures BlankFields(t) == {} <==> forall f :: !Blank(t, f)
  {
    if BlankFields(t) == {} {
      forall f ensures !Blank(t, f) {
        InAllFields(f);
        assert f !in BlankFields(t);
      }
    }
  }

  /** The six checks of `validateForm`, in order, on a fresh error object. */
  method CollectErrors(texts: BlogTexts) returns (newErrors: map<Field, string>)
    ensures Covers(newErrors, BlankFields(texts), 6)
  {
    newErrors := map[];
    newErrors := CheckField(newErrors, texts, Title);
    newErrors := CheckField(newErrors, texts, Excerpt);
    newErrors := CheckField(newErrors, texts, Content);
    newErrors := CheckField(newErrors, texts, Author);
    newErrors := CheckField(newErrors, texts, ImageUrl);
    newErrors := CheckField(newErrors, texts, ReadTime);
  }

  /** `if (!formData[field].trim()) newErrors[field] = message`. */
  method CheckField(m: map<Field, string>, texts: BlogTexts, f: Field) returns (r: map<Field, string>)
    requires Covers(m, BlankFields(texts), Rank(f))
    ensures Covers(r, BlankFields(texts), Rank(f) + 1)
  {
    if Trim(TextOf(texts, f)) == "" {
      r := m[f := Message(f)];
    } else {
      r := m;
    }
    BlankFieldsHas(texts, f);
    CheckStep(m, r, BlankFields(texts), Rank(f), f);
  }

  class BlogEditor {
    var texts: BlogTexts
    var published: bool
    var errors: map<Field, string>

    constructor()
      ensures texts == BlogTexts("", "", "", "", "", "") && !published && errors == map[]
    {
      texts := BlogTexts("", "", "", "", "", "");
      published := false;
      errors := map[];
    }

    /**
     * `validateForm`: the error object is rebuilt from scratch with exactly
     * the blank inputs, each with its message; true when it has no key.
     */
    method ValidateForm() returns (ok: bool)
      modifies this
      ensures forall f :: f in errors <==> f in BlankFields(texts)
      ensures forall f :: f in errors ==> errors[f] == Message(f)
      ensures ok <==> forall f :: !Blank(texts, f)
      ensures texts == old(texts) && published == old(published)
    {
      var newErrors := CollectErrors(texts);
      AllChecked(newErrors, BlankFields(texts));
      BlankFieldsEmpty(texts);
      errors := newErrors;
      ok := |newErrors| == 0;
    }

    /**
     * `handleInputChange`: only the named input changes; an error shown for
     * it becomes '', and every other error stays as it was.
     */
    method HandleInputChange(f: Field, value: string)
      modifies this
      ensures texts == With(old(texts), f, value)
      ensures published == old(published)
      ensures errors.Keys == old(errors).Keys
      ensures !ErrorShown(errors, f)
      ensures f in errors ==> errors[f] == if ErrorShown(old(errors), f) then "" else old(errors)[f]
      ensures forall g :: g != f && g in errors ==> errors[g] == old(errors)[g]
    {
      texts := With(texts, f, value);
      if f in errors && errors[f] != "" {
        errors := errors[f := ""];
      }
    }
  }
}
