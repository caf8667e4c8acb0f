/**
 * The invitation list of the provider dashboard (src/pages/Invitations.tsx):
 * the status shown for an invite, the expiry rewrite applied when the list
 * is fetched, the search and status filters, deletion from the list and the
 * actions offered for each status. Timestamps are integers and "now" is a
 * parameter.
 */
module Invitations {
  import opened Wrappers
  import opened JsText
  import opened JsArray
  import opened Withdrawals

  /** `InviteStatus`: the four stored statuses and the derived "withdrawn". */
  datatype InviteStatus = Pending | Viewed | Completed | Expired | Withdrawn

  /** The database enum `invite_status`, which has no "withdrawn". */
  type StoredStatus = s: InviteStatus | s != Withdrawn witness Pending

  /** The one submission row embedded in an invite. */
  datatype InviteSubmission = InviteSubmission(id: string, pdfUrl: Option<string>, withdrawals: WithdrawalField)

  /** `InviteWithModule`, reduced to the fields the page's logic reads.
      `moduleName` is `consent_modules?.name`. */
  datatype Invite = Invite(
    id: string,
    token: string,
    status: StoredStatus,
    expiresAt: int,
    patientFirstName: Option<string>,
    patientLastName: Option<string>,
    patientEmail: string,
    moduleName: Option<string>,
    submissions: Option<seq<InviteSubmission>>)

  /** `getWithdrawal`: the withdrawal of the invite's first submission, if any. */
  function GetWithdrawal(inv: Invite): (r: Option<Withdrawal>)
    ensures r.Some? <==>
      inv.submissions.Some? && inv.submissions.value != [] && HasWithdrawal(inv.submissions.value[0].withdrawals)
    ensures r.Some? ==> r.value == Attached(inv.submissions.value[0].withdrawals)[0]
  {
    if inv.submissions.None? || |inv.submissions.value| == 0 then None
    else Normalise(inv.submissions.value[0].withdrawals)
  }

  /** `new Date(invite.expires_at) < now` for a pending invite. */
  predicate Overdue(inv: Invite, now: int) {
    inv.status == Pending && inv.expiresAt < now
  }

  /** `getEffectiveStatus`. */
  function EffectiveStatus(inv: Invite, now: int): InviteStatus {
    if inv.status == Completed && GetWithdrawal(inv).Some? then Withdrawn
    else if Overdue(inv, now) then Expired
    else inv.status
  }

  /** A withdrawal makes a completed invite "withdrawn", whatever else holds;
      only an overdue pending invite becomes "expired"; every other invite
      shows its stored status, so viewed and completed invites never expire. */
  lemma EffectiveStatusCases(inv: Invite, now: int)
    ensures EffectiveStatus(inv, now) == Withdrawn <==> inv.status == Completed && GetWithdrawal(inv).Some?
    ensures EffectiveStatus(inv, now) == Expired <==> inv.status == Expired || Overdue(inv, now)
    ensures inv.status in {Viewed, Completed} && EffectiveStatus(inv, now) != Withdrawn ==> EffectiveStatus(inv, now) == inv.status
    ensures EffectiveStatus(inv, now) != inv.status ==> (inv.status == Completed || inv.status == Pending)
  {
  }

  /** The rewrite in `fetchInvitations`: an overdue pending invite is stored as expired. */
  function Expire(inv: Invite, now: int): Invite {
    if Overdue(inv, now) then inv.(status := Expired) else inv
  }

  /** `(data || []).map(...)`: the list the page keeps (a missing result is
      the empty list). Each invite keeps its place and everything but its
      status; exactly the overdue pending invites change status, and they
      become expired. */
  function ExpireAll(invs: seq<Invite>, now: int): (r: seq<Invite>)
    ensures |r| == |invs|
    ensures forall i :: 0 <= i < |invs| ==> r[i].(status := invs[i].status) == invs[i]
    ensures forall i :: 0 <= i < |invs| ==> (r[i].status != invs[i].status <==> Overdue(invs[i], now))
    ensures forall i :: 0 <= i < |invs| && Overdue(invs[i], now) ==> r[i].status == Expired
  {
    seq(|invs|, i requires 0 <= i < |invs| => Expire(invs[i], now))
  }

  /** Rewriting before deriving the status changes nothing: the page shows the
      same status for an invite whether or not it was rewritten. */
  lemma ExpireKeepsEffectiveStatus(inv: Invite, now: int)
    ensures EffectiveStatus(Expire(inv, now), now) == EffectiveStatus(inv, now)
  {
  }

  /** The status dropdown: "all" or one status. */
  datatype StatusFilter = AllStatuses | OnlyStatus(status: InviteStatus)

  /** `x?.toLowerCase() || ""`. */
  function LowerOr(o: Option<string>): string {
    if o.Some? then ToLower(o.value) else ""
  }

  /** `matchesSearch`: the lowercased query occurs in the first name, the last
      name, the email or the module name. */
  predicate MatchesSearch(inv: Invite, query: string) {
    var q := ToLower(query);
    Includes(LowerOr(inv.patientFirstName), q)
    || Includes(LowerOr(inv.patientLastName), q)
    || Includes(ToLower(inv.patientEmail), q)
    || Includes(LowerOr(inv.moduleName), q)
  }

  predicate MatchesStatus(inv: Invite, filter: StatusFilter, now: int) {
    filter == AllStatuses || EffectiveStatus(inv, now) == filter.status
  }

  /** `filteredInvitations`. */
  function Filtered(invs: seq<Invite>, query: string, filter: StatusFilter, now: int): seq<Invite> {
    Filter(invs, inv => MatchesSearch(inv, query) && MatchesStatus(inv, filter, now))
  }

  /** An invite is listed exactly when it matches the search and, unless the
      filter is "all", shows exactly the chosen status. */
  lemma FilteredMembers(invs: seq<Invite>, query: string, filter: StatusFilter, now: int)
    ensures forall inv :: inv in Filtered(invs, query, filter, now) <==>
      inv in invs && MatchesSearch(inv, query)
      && (filter.OnlyStatus? ==> EffectiveStatus(inv, now) == filter.status)
  {
    FilterMembers(invs, inv => MatchesSearch(inv, query) && MatchesStatus(inv, filter, now));
  }

  /** The empty query with "all" lists every invite, in order. */
  lemma EmptySearchListsAll(invs: seq<Invite>, now: int)
    ensures Filtered(invs, "", AllStatuses, now) == invs
  {
    forall i | 0 <= i < |invs| ensures MatchesSearch(invs[i], "") {
      IncludesEmpty(ToLower(invs[i].patientEmail));
    }
    FilterAll(invs, inv => MatchesSearch(inv, "") && MatchesStatus(inv, AllStatuses, now));
  }

  /** A missing field is searched as "", which only the empty query matches. */
  lemma MissingFieldsMatchOnlyEmptyQuery(inv: Invite, query: string)
    requires inv.patientFirstName.None? && inv.patientLastName.None? && inv.moduleName.None?
    requires query != ""
    ensures MatchesSearch(inv, query) <==> Includes(ToLower(inv.patientEmail), ToLower(query))
  {
    assert ToLower(query) != "";
  }

  /** The search ignores the case of ASCII letters in the query. */
  lemma SearchIgnoresQueryCase(inv: Invite, query: string)
    ensures MatchesSearch(inv, ToUpper(query)) == MatchesSearch(inv, query)
  {
    assert ToLower(ToUpper(query)) == ToLower(query);
  }

  /** `handleDelete`: the list without the deleted invite. */
  function Delete(invs: seq<Invite>, id: string): seq<Invite> {
    Filter(invs, (i: Invite) => i.id != id)
  }

  /** Deletion keeps every other invite, in order, and no invite with that id. */
  lemma DeleteKeepsOthers(invs: seq<Invite>, id: string)
    ensures forall inv :: inv in Delete(invs, id) <==> inv in invs && inv.id != id
    ensures (forall i :: 0 <= i < |invs| ==> invs[i].id != id) ==> Delete(invs, id) == invs
    ensures forall a, b :: Delete(a + b, id) == Delete(a, id) + Delete(b, id)
  {
    FilterMembers(invs, (i: Invite) => i.id != id);
    if forall i :: 0 <= i < |invs| ==> invs[i].id != id {
      FilterAll(invs, (i: Invite) => i.id != id);
    }
    forall a, b ensures Delete(a + b, id) == Delete(a, id) + Delete(b, id) {
      FilterAppend(a, b, (i: Invite) => i.id != id);
    }
  }

  // The actions of an invite's menu, by its effective status.

  predicate CanCopyLink(s: InviteStatus) {
    s != Completed && s != Expired && s != Withdrawn
  }

  predicate CanResend(s: InviteStatus) {
    s == Pending || s == Viewed
  }

  predicate CanSendNew(s: InviteStatus) {
    s == Expired
  }

  predicate CanOpenPdf(s: InviteStatus) {
    s == Completed || s == Withdrawn
  }

  /** Every status offers exactly one of resending, a new invite and the PDF
      actions; the link actions come exactly with resending. */
  lemma ActionsPartition(s: InviteStatus)
    ensures (if CanResend(s) then 1 else 0) + (if CanSendNew(s) then 1 else 0) + (if CanOpenPdf(s) then 1 else 0) == 1
    ensures CanCopyLink(s) <==> CanResend(s)
  {
  }
}
