/**
 * The personal details form: five text inputs opened from the stored
 * details, an optional email checked against `^[^\s@]+@[^\s@]+\.[^\s@]+$`,
 * and a submit that stores the details and copies the email and name onto
 * the current user, keeping the user's id.
 */
module PersonalForm {
  import opened Js
  import opened Strings
  import opened Numbers
  import opened FinanceData
  import opened FinanceStore
  import opened UserStore
  import Advisory

  // ------------------------------------------------------------------ email

  /** `[^\s@]`. */
  predicate IsPlain(c: char) { !IsSpace(c) && c != '@' }

  /** Every character of s from position lo up to hi matches `[^\s@]`. */
  predicate PlainRange(s: string, lo: int, hi: int)
    requires 0 <= lo <= hi <= |s|
  {
    forall i :: lo <= i < hi ==> IsPlain(s[i])
  }

  /** s splits at '@' position at and '.' position dot as the pattern's three parts. */
  predicate EmailSplit(s: string, at: int, dot: int) {
    && 1 <= at && at + 2 <= dot && dot + 2 <= |s|
    && s[at] == '@' && s[dot] == '.'
    && PlainRange(s, 0, at) && PlainRange(s, at + 1, dot) && PlainRange(s, dot + 1, |s|)
  }

  /** The language of `^[^\s@]+@[^\s@]+\.[^\s@]+$`. */
  ghost predicate EmailPattern(s: string) {
    exists at, dot :: EmailSplit(s, at, dot)
  }

  /**
   * The regular expression test: the only '@' is the first one, and the
   * first '.' at least two places after it leaves text on both of its sides.
   */
  function MatchesEmail(s: string): (ok: bool)
    ensures ok ==> EmailPattern(s)
  {
    var at := IndexOf(s, '@');
    if at < 1 || at + 2 > |s| then false
    else
      var k := IndexOf(s[at + 2..], '.');
      k >= 0 && EmailSplit(s, at, at + 2 + k)
  }

  /** The test accepts exactly the strings of the pattern. */
  lemma MatchesEmailIff(s: string)
    ensures MatchesEmail(s) <==> EmailPattern(s)
  {
    if EmailPattern(s) {
      var at, dot :| EmailSplit(s, at, dot);
      SplitMatches(s, at, dot);
    }
  }

  /** Any split of the pattern makes the test succeed at the first '@' and the first usable '.'. */
  lemma SplitMatches(s: string, at: int, dot: int)
    requires EmailSplit(s, at, dot)
    ensures MatchesEmail(s)
  {
    assert '@' !in s[..at] by {
      forall j | 0 <= j < at ensures s[..at][j] != '@' {
        assert IsPlain(s[j]);
      }
    }
    IndexOfIsFirst(s, '@', at);
    var t := s[at + 2..];
    assert t[dot - at - 2] == '.';
    var k := IndexOf(t, '.');
    assert k <= dot - at - 2;
    var d := at + 2 + k;
    assert EmailSplit(s, at, d);
  }

  /** Every address the Advisory page accepts passes this form's test too. */
  lemma AdvisoryEmailAccepted(s: string)
    requires Advisory.IsValidEmail(s)
    ensures MatchesEmail(s)
  {
    Advisory.IsValidEmailIff(s);
    var at, dot :| Advisory.EmailSplit(s, at, dot);
    var local, domain, suffix := s[..at], s[at + 1..dot], s[dot + 1..];
    forall i | 0 <= i < |s| && i != at && i != dot ensures IsPlain(s[i]) {
      if i < at {
        assert Advisory.IsLocalChar(local[i]);
      } else if i < dot {
        assert Advisory.IsDomainChar(domain[i - at - 1]);
      } else {
        assert Advisory.IsLetter(suffix[i - dot - 1]);
      }
    }
    assert EmailSplit(s, at, dot);
    SplitMatches(s, at, dot);
  }

  const InvalidEmailMessage: string := "Please enter a valid email address"

  /** `validateEmail`: the error shown under the email input, "" for none. */
  function ValidateEmail(email: string): (e: string)
    ensures e == "" || e == InvalidEmailMessage
  {
    if email == "" then ""
    else if !MatchesEmail(email) then InvalidEmailMessage
    else ""
  }

  /** No email, or one of the pattern, is accepted; nothing else is. */
  lemma ValidateEmailIff(email: string)
    ensures ValidateEmail(email) == "" <==> email == "" || EmailPattern(email)
  {
    MatchesEmailIff(email);
  }

  // --------------------------------------------------------------- the form

  /** The five inputs; age and dependents hold the stored number until the user types in them. */
  datatype PersonalInputs = PersonalInputs(fullName: string, email: string, age: Input, occupation: string, dependents: Input)

  /** `existingData?.age || ''`: the stored number, or the empty text for a stored 0 or NaN. */
  function ShowNumber(n: JsNum): (x: Input)
    ensures n.NaN? ==> x == EmptyInput
    ensures n.Num? ==> x == ShowAmount(n.value)
  {
    match n
    case NaN => EmptyInput
    case Num(v) => ShowAmount(v)
  }

  /** The inputs the form opens with. */
  function InitialInputs(existing: Option<Personal>): (t: PersonalInputs)
    ensures existing.None? ==> t == PersonalInputs("", "", EmptyInput, "", EmptyInput)
  {
    match existing
    case None => PersonalInputs("", "", EmptyInput, "", EmptyInput)
    case Some(p) => PersonalInputs(p.fullName, p.email, ShowNumber(p.age), p.occupation, ShowNumber(p.dependents))
  }

  /** The details `handleSubmit` stores: the texts, with age and dependents as `Number(..)`. */
  function DetailsOf(t: PersonalInputs): (p: Personal)
    ensures p.fullName == t.fullName && p.email == t.email && p.occupation == t.occupation
    ensures p.age == InputNumber(t.age) && p.dependents == InputNumber(t.dependents)
  {
    Personal(t.fullName, t.email, InputNumber(t.age), t.occupation, InputNumber(t.dependents))
  }

  /**
   * The current user after a submit: the same id and tracking id, the form's
   * email unless it is empty, and the form's name.
   */
  function UpdatedUser(user: User, t: PersonalInputs): (u: User)
    ensures u.id == user.id && u.trackingId == user.trackingId
    ensures u.email == (if t.email == "" then user.email else t.email)
    ensures u.fullName == Some(t.fullName)
  {
    user.(email := if t.email != "" then t.email else user.email, fullName := Some(t.fullName))
  }

  /** A stored number that is not NaN opens an input that reads back as it. */
  lemma ShowNumberRoundTrip(n: JsNum)
    requires n.Num?
    ensures InputNumber(ShowNumber(n)) == n
  {
    if n.value == 0.0 {
      assert ShowNumber(n) == EmptyInput;
    }
  }

  /**
   * Opening the form on stored details and submitting it untouched stores
   * the same details, when age and dependents are numbers (not NaN).
   */
  lemma ReopenKeepsPersonal(p: Personal)
    requires p.age.Num? && p.dependents.Num?
    ensures DetailsOf(InitialInputs(Some(p))) == p
  {
    ShowNumberRoundTrip(p.age);
    ShowNumberRoundTrip(p.dependents);
  }

  /**
   * A form opened on stored details can be submitted exactly when name and
   * occupation are non-empty and age and dependents are numbers other than
   * 0: a stored 0 or NaN opens as an empty input, so a person with 0
   * dependents must type the 0 again before the form accepts it.
   */
  lemma ReopenedValidity(f: PersonalForm, p: Personal)
    requires f.inputs == InitialInputs(Some(p)) && f.emailError == ""
    ensures f.IsValid() <==>
      && p.fullName != "" && p.occupation != ""
      && p.age.Num? && p.age.value != 0.0
      && p.dependents.Num? && p.dependents.value != 0.0
  {
  }

  /** A stored NaN age comes back as 0: it shows as an empty field. */
  lemma ReopenZeroesNaNAge(p: Personal)
    requires p.age.NaN?
    ensures DetailsOf(InitialInputs(Some(p))).age == Num(0.0)
  {
  }

  class PersonalForm {
    var inputs: PersonalInputs
    var emailError: string

    constructor(existing: Option<Personal>)
      ensures inputs == InitialInputs(existing) && emailError == ""
    {
      inputs := InitialInputs(existing);
      emailError := "";
    }

    /** The `onChange` of the name input. */
    method SetFullName(value: string)
      modifies this
      ensures inputs == old(inputs).(fullName := value) && emailError == old(emailError)
    {
      inputs := inputs.(fullName := value);
    }

    /** The `onChange` of the age input: from now on it holds the typed text. */
    method SetAge(value: string)
      modifies this
      ensures inputs == old(inputs).(age := Typed(value)) && emailError == old(emailError)
    {
      inputs := inputs.(age := Typed(value));
    }

    /** The `onChange` of the occupation input. */
    method SetOccupation(value: string)
      modifies this
      ensures inputs == old(inputs).(occupation := value) && emailError == old(emailError)
    {
      inputs := inputs.(occupation := value);
    }

    /** The `onChange` of the dependents input: from now on it holds the typed text. */
    method SetDependents(value: string)
      modifies this
      ensures inputs == old(inputs).(dependents := Typed(value)) && emailError == old(emailError)
    {
      inputs := inputs.(dependents := Typed(value));
    }

    /** `handleEmailChange`: the email is checked on every keystroke. */
    method HandleEmailChange(value: string)
      modifies this
      ensures inputs == old(inputs).(email := value)
      ensures emailError == ValidateEmail(value)
    {
      inputs := inputs.(email := value);
      emailError := ValidateEmail(value);
    }

    /**
     * `isValid`: name, age and occupation are truthy, dependents is not the
     * empty text (a held number never is), and the email has no error.
     */
    predicate IsValid()
      reads this
    {
      inputs.fullName != "" && Filled(inputs.age) && inputs.occupation != ""
      && inputs.dependents != EmptyInput && emailError == ""
    }

    /**
     * `handleSubmit`: a bad email only shows its error. Otherwise the details
     * are stored, and a current user, if there is one, takes the email and
     * name while keeping its id; `navigated` is the move to the income form.
     */
    method HandleSubmit(finance: FinanceStore, users: UserStore) returns (navigated: bool)
      requires finance != users as object
      modifies this, finance, users
      ensures inputs == old(inputs)
      ensures navigated <==> ValidateEmail(inputs.email) == ""
      ensures !navigated ==>
        && emailError == InvalidEmailMessage
        && finance.data == old(finance.data)
        && users.currentUser == old(users.currentUser) && users.isAuthenticated == old(users.isAuthenticated)
      ensures navigated ==>
        && emailError == old(emailError)
        && finance.data == old(finance.data).(personal := Some(DetailsOf(inputs)))
        && match old(users.currentUser)
           case None => users.currentUser == None && users.isAuthenticated == old(users.isAuthenticated)
           case Some(user) => users.currentUser == Some(UpdatedUser(user, inputs)) && users.isAuthenticated
    {
      var error := ValidateEmail(inputs.email);
      if error != "" {
        emailError := error;
        return false;
      }
      finance.SetPersonalDetails(DetailsOf(inputs));
      if users.currentUser.Some? {
        users.SetCurrentUser(UpdatedUser(users.currentUser.value, inputs));
      }
      navigated := true;
    }
  }

  /** After typing an email, the form's email clause holds exactly for no email or one of the pattern. */
  method EmailChangeValidity(form: PersonalForm, value: string)
    modifies form
    ensures form.emailError == "" <==> value == "" || EmailPattern(value)
  {
    form.HandleEmailChange(value);
    ValidateEmailIff(value);
  }
}
