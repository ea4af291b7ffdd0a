/**
 * The recipient panel of the client: the search filter over the loaded addresses, the
 * first-five page with its "Show More" / "Show Less" toggle, and the handlers that load,
 * add and remove addresses through the server. Server replies are parameters.
 */
module EmailManager {
  import opened Wrappers
  import opened Sequences
  import opened Text

  /** How many addresses are shown while the list is collapsed. */
  const PageSize: nat := 5

  /**
   * `email.toLowerCase().includes(emailSearch.toLowerCase())`: an empty search matches every
   * address, and no address matches a search longer than itself.
   */
  function Matches(search: string, email: string): (r: bool)
    ensures search == [] ==> r
    ensures r ==> |search| <= |email|
  {
    var r := Contains(Lower(email), Lower(search));
    assert search == [] ==> Lower(search) <= Lower(email);
    if r then ContainsLength(Lower(email), Lower(search)); r else r
  }

  /** `filteredEmails`: the addresses matching the search text, in their original order. */
  function Filtered(emails: seq<string>, search: string): (r: seq<string>)
    ensures |r| <= |emails|
    ensures forall x :: x in r <==> x in emails && Matches(search, x)
  {
    Filter(emails, x => Matches(search, x))
  }

  /** The filtered list is a subsequence of the loaded list. */
  lemma FilteredIsSubsequence(emails: seq<string>, search: string)
    ensures IsSubsequence(Filtered(emails, search), emails)
  {
    FilterIsSubsequence(emails, x => Matches(search, x));
  }

  /** An empty search keeps every address. */
  lemma EmptySearchKeepsAll(emails: seq<string>)
    ensures Filtered(emails, "") == emails
  {
    assert Lower("") == "";
    forall i | 0 <= i < |emails| ensures Matches("", emails[i]) {
      assert [] <= Lower(emails[i]);
    }
    FilterKeepsAll(emails, x => Matches("", x));
  }

  /** Filtering the filtered list again with the same search changes nothing. */
  lemma FilteredIdempotent(emails: seq<string>, search: string)
    ensures Filtered(Filtered(emails, search), search) == Filtered(emails, search)
  {
    FilterIdempotent(emails, x => Matches(search, x));
  }

  /** The case of the search text does not matter. */
  lemma SearchCaseInsensitive(emails: seq<string>, search: string)
    ensures Filtered(emails, Lower(search)) == Filtered(emails, search)
  {
    LowerIdempotent(search);
    FilterCongruent(emails, x => Matches(Lower(search), x), x => Matches(search, x));
  }

  /** `visibleEmails`: the whole filtered list, or only its first PageSize entries. */
  function Visible(filtered: seq<string>, showAll: bool): (r: seq<string>)
    ensures r <= filtered
    ensures |r| == if showAll || |filtered| <= PageSize then |filtered| else PageSize
  {
    if showAll then filtered
    else filtered[..if |filtered| < PageSize then |filtered| else PageSize]
  }

  /** A list no longer than a page looks the same whether or not it is expanded. */
  lemma ShortListIgnoresShowAll(filtered: seq<string>)
    requires |filtered| <= PageSize
    ensures Visible(filtered, true) == Visible(filtered, false)
  {
    assert filtered[..|filtered|] == filtered;
  }

  /**
   * The "more" count of the toggle: present only when more than PageSize addresses match,
   * and then exactly the number the collapsed list hides.
   */
  function HiddenCount(filtered: seq<string>): (r: Option<nat>)
    ensures r.Some? <==> |filtered| > PageSize
    ensures r.Some? ==> |Visible(filtered, false)| + r.value == |filtered|
  {
    if |filtered| > PageSize then Some(|filtered| - PageSize) else None
  }

  /** The toggle's label, if the toggle is rendered. */
  function ToggleLabel(filtered: seq<string>, showAll: bool): (r: Option<string>)
    ensures r.Some? <==> HiddenCount(filtered).Some?
    ensures r == Some("Show Less") <==> r.Some? && showAll
    ensures r.Some? && !showAll ==> Contains(r.value, Decimal(HiddenCount(filtered).value))
  {
    match HiddenCount(filtered)
    case None => None
    case Some(n) =>
      ContainsPiece("Show More (", Decimal(n), " more)");
      Some(if showAll then "Show Less" else "Show More (" + Decimal(n) + " more)")
  }

  /** `addEmail`'s guard: nothing for blank input, otherwise the trimmed text is posted. */
  function Submission(newEmail: string): (r: Option<string>)
    ensures r.None? <==> AllSpace(newEmail)
    ensures r.Some? ==> r.value != [] && !IsSpace(r.value[0]) && !IsSpace(r.value[|r.value| - 1])
    ensures r.Some? ==> Contains(newEmail, r.value)
  {
    var t := Trim(newEmail);
    TrimWithin(newEmail);
    if t == [] then None else Some(t)
  }

  /** Surrounding white space is what the guard strips, and all it strips. */
  lemma SubmissionOf(lead: string, email: string, trail: string)
    requires AllSpace(lead) && AllSpace(trail)
    requires email != [] && !IsSpace(email[0]) && !IsSpace(email[|email| - 1])
    ensures Submission(lead + email + trail) == Some(email)
  {
    TrimOf(lead, email, trail);
  }

  /** Submitting what the guard let through would let exactly the same text through again. */
  lemma SubmissionStable(newEmail: string)
    requires Submission(newEmail).Some?
    ensures Submission(Submission(newEmail).value) == Submission(newEmail)
  {
    TrimIdempotent(newEmail);
  }

  /** The server's answer to a request: its `emails` (absent or falsy as None), or a failed request. */
  datatype Reply = Answered(emails: Option<seq<string>>) | Failed

  /** `res.data.emails || []`: the reply's list, or no addresses when it carries none. */
  function EmailsOf(emails: Option<seq<string>>): (r: seq<string>)
    ensures emails.Some? ==> r == emails.value
    ensures emails.None? ==> r == []
  {
    match emails
    case None => []
    case Some(xs) => xs
  }

  /** The component's state. */
  class Manager {
    var emails: seq<string>
    var newEmail: string
    var emailSearch: string
    var error: string
    var showAll: bool

    constructor ()
      ensures emails == [] && newEmail == "" && emailSearch == "" && error == "" && !showAll
    {
      emails, newEmail, emailSearch, error, showAll := [], "", "", "", false;
    }

    function FilteredEmails(): seq<string>
      reads this
    {
      Filtered(emails, emailSearch)
    }

    function VisibleEmails(): seq<string>
      reads this
    {
      Visible(FilteredEmails(), showAll)
    }

    /** `fetchEmails`, once the GET request has answered or failed. */
    method FetchEmails(reply: Reply)
      modifies this
      ensures reply.Answered? ==> emails == EmailsOf(reply.emails) && error == old(error)
      ensures reply.Failed? ==> emails == old(emails) && error == "Failed to load emails."
      ensures newEmail == old(newEmail) && emailSearch == old(emailSearch) && showAll == old(showAll)
    {
      if reply.Answered? {
        emails := EmailsOf(reply.emails);
      } else {
        error := "Failed to load emails.";
      }
    }

    /**
     * `addEmail`: blank input does nothing; otherwise the trimmed text is posted (returned as
     * `posted`) and, with the server's reply, the list is replaced and the input cleared.
     */
    method AddEmail(reply: Reply) returns (posted: Option<string>)
      modifies this
      ensures posted == Submission(old(newEmail))
      ensures posted.None? ==> emails == old(emails) && newEmail == old(newEmail) && error == old(error)
      ensures posted.Some? && reply.Answered? ==>
        emails == EmailsOf(reply.emails) && newEmail == "" && error == old(error)
      ensures posted.Some? && reply.Failed? ==>
        emails == old(emails) && newEmail == old(newEmail) && error == "Failed to add email."
      ensures emailSearch == old(emailSearch) && showAll == old(showAll)
    {
      if Trim(newEmail) == [] {
        return None;
      }
      posted := Some(Trim(newEmail));
      if reply.Answered? {
        emails := EmailsOf(reply.emails);
        newEmail := "";
      } else {
        error := "Failed to add email.";
      }
    }

    /**
     * `deleteEmail`, once the DELETE request for `target` has answered or failed; `requested`
     * is the address the request names.
     */
    method DeleteEmail(target: string, reply: Reply) returns (requested: string)
      modifies this
      ensures requested == target
      ensures reply.Answered? ==> emails == EmailsOf(reply.emails) && error == old(error)
      ensures reply.Failed? ==> emails == old(emails) && error == "Failed to delete email."
      ensures newEmail == old(newEmail) && emailSearch == old(emailSearch) && showAll == old(showAll)
    {
      requested := target;
      if reply.Answered? {
        emails := EmailsOf(reply.emails);
      } else {
        error := "Failed to delete email.";
      }
    }

    /** The toggle's `onClick`: `setShowAll(!showAll)`. */
    method ToggleShowAll()
      modifies this
      ensures showAll == !old(showAll)
      ensures emails == old(emails) && newEmail == old(newEmail)
      ensures emailSearch == old(emailSearch) && error == old(error)
      ensures VisibleEmails() == Visible(old(FilteredEmails()), !old(showAll))
    {
      showAll := !showAll;
    }
  }

  /** Clicking the toggle twice brings back the list that was shown before. */
  method ToggleTwice(m: Manager)
    modifies m
    ensures m.VisibleEmails() == old(m.VisibleEmails())
    ensures m.showAll == old(m.showAll)
  {
    m.ToggleShowAll();
    m.ToggleShowAll();
  }
}
