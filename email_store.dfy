/**
 * The email store: the newsletter and advisory email lists. Adding an email
 * rebuilds the list through a Set, so it keeps the first occurrence of every
 * address in list order.
 */
module EmailStore {
  import opened Js

  /** `[...new Set(s)]`: the distinct elements of s in order of first occurrence. */
  function Dedup(s: seq<string>): (r: seq<string>)
    ensures Distinct(r)
    ensures forall x :: x in r <==> x in s
    ensures |r| <= |s|
  {
    if s == [] then []
    else
      var d := Dedup(s[..|s| - 1]);
      assert forall x :: x in s <==> x in s[..|s| - 1] || x == s[|s| - 1];
      if s[|s| - 1] in d then d else d + [s[|s| - 1]]
  }

  /**
   * The Set keeps first occurrences in order: a further element is dropped
   * when already seen and otherwise goes to the end.
   */
  lemma DedupAppend(s: seq<string>, x: string)
    ensures Dedup(s + [x]) == if x in Dedup(s) then Dedup(s) else Dedup(s) + [x]
  {
    assert (s + [x])[..|s|] == s;
  }

  /** A list without duplicates is its own deduplication. */
  lemma {:induction false} DedupOfDistinct(s: seq<string>)
    requires Distinct(s)
    ensures Dedup(s) == s
  {
    if s != [] {
      var init := s[..|s| - 1];
      DedupOfDistinct(init);
      assert s[|s| - 1] !in init;
      assert init + [s[|s| - 1]] == s;
    }
  }

  /** The list after adding an email. */
  function WithEmail(list: seq<string>, email: string): (r: seq<string>)
    ensures Distinct(r)
    ensures email in r
    ensures forall x :: x in r <==> x in list || x == email
  {
    Dedup(list + [email])
  }

  /**
   * On a list without duplicates, adding an email already present changes
   * nothing, and adding a new one appends it at the end.
   */
  lemma WithEmailOnDistinct(list: seq<string>, email: string)
    requires Distinct(list)
    ensures email in list ==> WithEmail(list, email) == list
    ensures email !in list ==> WithEmail(list, email) == list + [email]
  {
    assert (list + [email])[..|list|] == list;
    DedupOfDistinct(list);
    if email !in list {
      DedupOfDistinct(list + [email]);
    }
  }

  /** Adding the same email twice is adding it once. */
  lemma WithEmailIdempotent(list: seq<string>, email: string)
    ensures WithEmail(WithEmail(list, email), email) == WithEmail(list, email)
  {
    WithEmailOnDistinct(WithEmail(list, email), email);
  }

  class EmailStore {
    var newsletterEmails: seq<string>
    var advisoryEmails: seq<string>

    constructor()
      ensures newsletterEmails == [] && advisoryEmails == []
    {
      newsletterEmails := [];
      advisoryEmails := [];
    }

    method AddNewsletterEmail(email: string)
      modifies this
      ensures newsletterEmails == WithEmail(old(newsletterEmails), email)
      ensures advisoryEmails == old(advisoryEmails)
    {
      newsletterEmails := WithEmail(newsletterEmails, email);
    }

    method AddAdvisoryEmail(email: string)
      modifies this
      ensures advisoryEmails == WithEmail(old(advisoryEmails), email)
      ensures newsletterEmails == old(newsletterEmails)
    {
      advisoryEmails := WithEmail(advisoryEmails, email);
    }

    function GetNewsletterEmails(): seq<string>
      reads this
    {
      newsletterEmails
    }

    function GetAdvisoryEmails(): seq<string>
      reads this
    {
      advisoryEmails
    }
  }
}
