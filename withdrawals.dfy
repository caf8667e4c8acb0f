/**
 * The `consent_withdrawals` relation as the dashboard queries receive it:
 * `null` when there is none, a single object for a one-to-one embed, or an
 * array when a query returns the relation as a list. Invitations.tsx,
 * Patients.tsx and RecentSubmissionsTable.tsx all normalise this field.
 */
module Withdrawals {
  import opened Wrappers

  datatype Withdrawal = Withdrawal(id: string, withdrawnAt: string, reason: Option<string>)

  /** `ConsentWithdrawal | ConsentWithdrawal[] | null`. */
  datatype WithdrawalField = NoWithdrawal | Single(w: Withdrawal) | List(ws: seq<Withdrawal>)

  /** The withdrawals a field holds, in order: none for `null`, the
      object itself, or the elements of the array. */
  function Attached(f: WithdrawalField): seq<Withdrawal> {
    match f
    case NoWithdrawal => []
    case Single(w) => [w]
    case List(ws) => ws
  }

  /** `if (!w) return null; return Array.isArray(w) ? w[0] ?? null : w;`
      (an object and an array, even an empty one, are truthy): a withdrawal
      is found exactly when the field holds one, and it is the first. */
  function Normalise(f: WithdrawalField): (r: Option<Withdrawal>)
    ensures r.Some? <==> Attached(f) != []
    ensures r.Some? ==> r.value == Attached(f)[0]
  {
    match f
    case NoWithdrawal => None
    case Single(w) => Some(w)
    case List(ws) => if |ws| > 0 then Some(ws[0]) else None
  }

  /** The test in Patients.tsx: `Array.isArray(w) ? w.length > 0 : !!w`. */
  predicate HasWithdrawal(f: WithdrawalField) {
    if f.List? then |f.ws| > 0 else !f.NoWithdrawal?
  }

  /** The two normalisations agree: a field counts as a withdrawal in
      Patients.tsx exactly when the other pages find one in it, so an empty
      array is no withdrawal anywhere. */
  lemma HasWithdrawalIffNormalised(f: WithdrawalField)
    ensures HasWithdrawal(f) <==> Normalise(f).Some?
  {
  }
}
