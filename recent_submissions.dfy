/**
 * The helpers of the dashboard's recent-submissions table
 * (src/components/dashboard/RecentSubmissionsTable.tsx): the patient name
 * shown for a submission, whether it has been withdrawn, and the search box.
 */
module RecentSubmissions {
  import opened Wrappers
  import opened JsText
  import opened JsArray
  import opened Withdrawals

  /** `SubmissionWithModule`, reduced to the fields the helpers read. The
      name columns are non-null text in the database. */
  datatype Submission = Submission(
    id: string,
    firstName: string,
    lastName: string,
    email: string,
    pdfUrl: Option<string>,
    withdrawals: WithdrawalField)

  /** `formatPatientName`: the trimmed `"first last"`, or "Unknown" when that is empty. */
  function FormatPatientName(firstName: string, lastName: string): string {
    var full := Trim(firstName + " " + lastName);
    if full == "" then "Unknown" else full
  }

  /** A blank string run together with a blank string and a space is blank,
      and only then. */
  lemma AllSpaceJoined(a: string, b: string)
    ensures AllSpace(a + " " + b) <==> AllSpace(a) && AllSpace(b)
  {
    var s := a + " " + b;
    if AllSpace(s) {
      forall i | 0 <= i < |a| ensures IsSpace(a[i]) {
        assert s[i] == a[i];
      }
      forall i | 0 <= i < |b| ensures IsSpace(b[i]) {
        assert s[|a| + 1 + i] == b[i];
      }
    }
  }

  /** The name shown is never empty and never starts or ends with white
      space; it is "Unknown" whenever both parts are blank, and otherwise the
      two parts joined by a space with the outer white space removed. Two
      parts that carry no outer white space are shown exactly as
      `"first last"`. */
  lemma FormatPatientNameSpec(firstName: string, lastName: string)
    ensures var r := FormatPatientName(firstName, lastName);
      r != "" && !IsSpace(r[0]) && !IsSpace(r[|r| - 1])
    ensures AllSpace(firstName) && AllSpace(lastName) ==> FormatPatientName(firstName, lastName) == "Unknown"
    ensures !(AllSpace(firstName) && AllSpace(lastName)) ==>
      FormatPatientName(firstName, lastName) == Trim(firstName + " " + lastName)
    ensures firstName != "" && lastName != "" && !IsSpace(firstName[0]) && !IsSpace(lastName[|lastName| - 1]) ==>
      FormatPatientName(firstName, lastName) == firstName + " " + lastName
  {
    var s := firstName + " " + lastName;
    TrimEmptyIffAllSpace(s);
    AllSpaceJoined(firstName, lastName);
    if firstName != "" && lastName != "" && !IsSpace(firstName[0]) && !IsSpace(lastName[|lastName| - 1]) {
      assert s[0] == firstName[0] && s[|s| - 1] == lastName[|lastName| - 1];
      TrimOfTrimmed(s);
    }
  }

  /** `isWithdrawn`: `!!getWithdrawal(submission)`, where `getWithdrawal` is `Normalise`. */
  predicate IsWithdrawn(s: Submission) {
    Normalise(s.withdrawals).Some?
  }

  /** A submission is withdrawn exactly when a withdrawal object is attached,
      either alone or first in a non-empty list: neither `null` nor an empty
      list counts as a withdrawal. */
  lemma IsWithdrawnSpec(s: Submission)
    ensures IsWithdrawn(s) <==> HasWithdrawal(s.withdrawals)
    ensures IsWithdrawn(s) <==> s.withdrawals.Single? || (s.withdrawals.List? && s.withdrawals.ws != [])
    ensures s.withdrawals == NoWithdrawal || s.withdrawals == List([]) ==> !IsWithdrawn(s)
  {
    HasWithdrawalIffNormalised(s.withdrawals);
  }

  /** One row of `filteredSubmissions`: a blank query keeps every row;
      otherwise the lowercased, untrimmed query must occur in the lowercased
      `"first last"` or in the lowercased email. */
  predicate Keep(s: Submission, query: string) {
    Trim(query) == ""
    || (var q := ToLower(query);
        Includes(ToLower(s.firstName + " " + s.lastName), q) || Includes(ToLower(s.email), q))
  }

  /** `filteredSubmissions`. */
  function Filtered(subs: seq<Submission>, query: string): seq<Submission> {
    Filter(subs, s => Keep(s, query))
  }

  /** A white-space-only query keeps every submission, in order. */
  lemma BlankQueryKeepsAll(subs: seq<Submission>, query: string)
    requires AllSpace(query)
    ensures Filtered(subs, query) == subs
  {
    TrimEmptyIffAllSpace(query);
    FilterAll(subs, s => Keep(s, query));
  }

  /** For any other query a submission is listed exactly when it is in the
      list and the lowercased query occurs in its lowercased name or email;
      the surrounding white space of the query is not removed. */
  lemma FilteredMembers(subs: seq<Submission>, query: string)
    requires !AllSpace(query)
    ensures forall s :: s in Filtered(subs, query) <==>
      s in subs
      && (Includes(ToLower(s.firstName + " " + s.lastName), ToLower(query))
          || Includes(ToLower(s.email), ToLower(query)))
  {
    TrimEmptyIffAllSpace(query);
    FilterMembers(subs, s => Keep(s, query));
  }

  /** A query found in the first name alone, or in the last name alone, finds
      the submission. */
  lemma NamePartMatches(s: Submission, query: string)
    requires Includes(ToLower(s.firstName), ToLower(query)) || Includes(ToLower(s.lastName), ToLower(query))
    ensures Keep(s, query)
  {
    var q := ToLower(query);
    ToLowerAppend(s.firstName + " ", s.lastName);
    ToLowerAppend(s.firstName, " ");
    assert ToLower(s.firstName + " " + s.lastName) == ToLower(s.firstName) + (ToLower(" ") + ToLower(s.lastName));
    if Includes(ToLower(s.firstName), q) {
      IncludesAppend(ToLower(s.firstName), ToLower(" ") + ToLower(s.lastName), q);
    } else {
      IncludesPrepend(ToLower(s.firstName) + ToLower(" "), ToLower(s.lastName), q);
      assert ToLower(s.firstName) + (ToLower(" ") + ToLower(s.lastName))
        == (ToLower(s.firstName) + ToLower(" ")) + ToLower(s.lastName);
    }
  }

  /** The search ignores the case of ASCII letters in the query. */
  lemma SearchIgnoresQueryCase(s: Submission, query: string)
    ensures Keep(s, ToUpper(query)) == Keep(s, query)
  {
    assert ToLower(ToUpper(query)) == ToLower(query);
    assert AllSpace(ToUpper(query)) == AllSpace(query) by {
      forall i | 0 <= i < |query| ensures IsSpace(ToUpper(query)[i]) == IsSpace(query[i]) {
      }
    }
    TrimEmptyIffAllSpace(query);
    TrimEmptyIffAllSpace(ToUpper(query));
  }

  /** Searching a longer list is searching its parts: the filter splits over
      concatenation and keeps the relative order. */
  lemma FilteredAppend(a: seq<Submission>, b: seq<Submission>, query: string)
    ensures Filtered(a + b, query) == Filtered(a, query) + Filtered(b, query)
  {
    FilterAppend(a, b, s => Keep(s, query));
  }
}
