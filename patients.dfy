/**
 * The patient list of the provider dashboard (src/pages/Patients.tsx): the
 * consent submissions, newest first, are grouped into one record per patient
 * email in a `Map`, and the records are searched by email and name.
 */
module Patients {
  import opened JsText
  import opened JsArray
  import opened Withdrawals

  /** One row of the submissions query. */
  datatype Submission = Submission(email: string, firstName: string, lastName: string, signedAt: int, withdrawals: WithdrawalField)

  /** `interface Patient`. */
  datatype Patient = Patient(email: string, firstName: string, lastName: string, latestSignedAt: int, consentCount: nat, hasWithdrawal: bool)

  // ---------------------------------------------------------------------
  // What the grouping is meant to produce
  // ---------------------------------------------------------------------

  /** Some submission has email `e`. */
  predicate HasEmail(subs: seq<Submission>, e: string) {
    exists k :: 0 <= k < |subs| && subs[k].email == e
  }

  /** The distinct emails, in order of first occurrence. */
  function DistinctEmails(subs: seq<Submission>): seq<string>
    decreases |subs|
  {
    if subs == [] then []
    else
      var d := DistinctEmails(subs[..|subs| - 1]);
      var e := subs[|subs| - 1].email;
      if e in d then d else d + [e]
  }

  /** The number of submissions with email `e`. */
  function CountOf(subs: seq<Submission>, e: string): nat
    decreases |subs|
  {
    if subs == [] then 0
    else CountOf(subs[..|subs| - 1], e) + (if subs[|subs| - 1].email == e then 1 else 0)
  }

  /** Some submission with email `e` has a withdrawal. */
  predicate AnyWithdrawal(subs: seq<Submission>, e: string) {
    exists k :: 0 <= k < |subs| && subs[k].email == e && HasWithdrawal(subs[k].withdrawals)
  }

  /** The position of the first submission with email `e`. */
  function FirstWith(subs: seq<Submission>, e: string): (k: nat)
    requires HasEmail(subs, e)
    ensures k < |subs| && subs[k].email == e
    ensures forall j :: 0 <= j < k ==> subs[j].email != e
    decreases |subs|
  {
    if subs[0].email == e then 0
    else
      assert HasEmail(subs[1..], e) by {
        var k :| 0 <= k < |subs| && subs[k].email == e;
        assert subs[1..][k - 1] == subs[k];
      }
      1 + FirstWith(subs[1..], e)
  }

  /** The record for email `e`: names and date of its first submission, the
      number of its submissions and whether any of them was withdrawn. */
  function PatientFor(subs: seq<Submission>, e: string): Patient
    requires HasEmail(subs, e)
  {
    var s := subs[FirstWith(subs, e)];
    Patient(e, s.firstName, s.lastName, s.signedAt, CountOf(subs, e), AnyWithdrawal(subs, e))
  }

  lemma {:induction false} DistinctEmailsMembers(subs: seq<Submission>)
    ensures forall e :: e in DistinctEmails(subs) <==> HasEmail(subs, e)
    decreases |subs|
  {
    if subs != [] {
      var p := subs[..|subs| - 1];
      DistinctEmailsMembers(p);
      forall e ensures HasEmail(subs, e) <==> HasEmail(p, e) || e == subs[|subs| - 1].email {
        if HasEmail(subs, e) && e != subs[|subs| - 1].email {
          var k :| 0 <= k < |subs| && subs[k].email == e;
          assert p[k] == subs[k];
        }
        if HasEmail(p, e) {
          var k :| 0 <= k < |p| && p[k].email == e;
          assert subs[k] == p[k];
        }
      }
    }
  }

  lemma {:induction false} DistinctEmailsUnique(subs: seq<Submission>)
    ensures Distinct(DistinctEmails(subs))
    decreases |subs|
  {
    if subs != [] {
      DistinctEmailsUnique(subs[..|subs| - 1]);
    }
  }

  /** The `Map` holds every email: well-defined records, one per distinct email. */
  function Grouped(subs: seq<Submission>): (ps: seq<Patient>)
    ensures |ps| == |DistinctEmails(subs)|
  {
    var d := DistinctEmails(subs);
    DistinctEmailsMembers(subs);
    seq(|d|, j requires 0 <= j < |d| => PatientFor(subs, d[j]))
  }

  // ---------------------------------------------------------------------
  // The grouping loop
  // ---------------------------------------------------------------------

  /** The first `i + 1` submissions are the first `i` and the next one. */
  lemma PrefixSnoc(subs: seq<Submission>, i: nat)
    requires i < |subs|
    ensures subs[..i + 1][..i] == subs[..i] && subs[..i + 1][i] == subs[i]
  {
  }

  lemma HasEmailSnoc(p: seq<Submission>, s: Submission, e: string)
    ensures HasEmail(p + [s], e) <==> HasEmail(p, e) || e == s.email
  {
    var q := p + [s];
    assert q[|p|] == s;
    if HasEmail(p, e) {
      var k :| 0 <= k < |p| && p[k].email == e;
      assert q[k] == p[k];
    }
    if HasEmail(q, e) && e != s.email {
      var k :| 0 <= k < |q| && q[k].email == e;
      assert p[k] == q[k];
    }
  }

  lemma AnyWithdrawalSnoc(p: seq<Submission>, s: Submission, e: string)
    ensures AnyWithdrawal(p + [s], e) <==> AnyWithdrawal(p, e) || (e == s.email && HasWithdrawal(s.withdrawals))
  {
    var q := p + [s];
    assert q[|p|] == s;
    if AnyWithdrawal(p, e) {
      var k :| 0 <= k < |p| && p[k].email == e && HasWithdrawal(p[k].withdrawals);
      assert q[k] == p[k];
    }
    if AnyWithdrawal(q, e) && !(e == s.email && HasWithdrawal(s.withdrawals)) {
      var k :| 0 <= k < |q| && q[k].email == e && HasWithdrawal(q[k].withdrawals);
      assert p[k] == q[k];
    }
  }

  lemma CountOfSnoc(p: seq<Submission>, s: Submission, e: string)
    ensures CountOf(p + [s], e) == CountOf(p, e) + (if s.email == e then 1 else 0)
  {
    assert (p + [s])[..|p|] == p;
  }

  lemma FirstWithPrefix(p: seq<Submission>, s: Submission, e: string)
    requires HasEmail(p, e)
    ensures HasEmail(p + [s], e) && FirstWith(p + [s], e) == FirstWith(p, e)
  {
    var q := p + [s];
    var k := FirstWith(p, e);
    assert q[k] == p[k];
    assert forall j :: 0 <= j < k ==> q[j] == p[j];
    FirstWithUnique(q, e, k);
  }

  lemma FirstWithUnique(q: seq<Submission>, e: string, k: nat)
    requires k < |q| && q[k].email == e
    requires forall j :: 0 <= j < k ==> q[j].email != e
    ensures HasEmail(q, e) && FirstWith(q, e) == k
  {
  }

  lemma {:induction false} CountOfAbsent(p: seq<Submission>, e: string)
    requires !HasEmail(p, e)
    ensures CountOf(p, e) == 0
    decreases |p|
  {
    if p != [] {
      var r := p[..|p| - 1];
      forall k | 0 <= k < |r| ensures r[k].email != e {
        assert r[k] == p[k];
      }
      CountOfAbsent(r, e);
    }
  }

  /** A further submission with an email already seen: its record gains a
      consent and, if this submission is withdrawn, the withdrawal flag. */
  lemma SnocSeen(p: seq<Submission>, s: Submission)
    requires HasEmail(p, s.email)
    ensures HasEmail(p + [s], s.email)
    ensures var old_ := PatientFor(p, s.email);
      PatientFor(p + [s], s.email) == old_.(consentCount := old_.consentCount + 1, hasWithdrawal := old_.hasWithdrawal || HasWithdrawal(s.withdrawals))
  {
    FirstWithPrefix(p, s, s.email);
    CountOfSnoc(p, s, s.email);
    AnyWithdrawalSnoc(p, s, s.email);
  }

  /** The first submission with an email creates its record. */
  lemma SnocNew(p: seq<Submission>, s: Submission)
    requires !HasEmail(p, s.email)
    ensures HasEmail(p + [s], s.email)
    ensures PatientFor(p + [s], s.email) == Patient(s.email, s.firstName, s.lastName, s.signedAt, 1, HasWithdrawal(s.withdrawals))
  {
    var q := p + [s];
    assert q[|p|] == s;
    FirstWithUnique(q, s.email, |p|);
    CountOfAbsent(p, s.email);
    CountOfSnoc(p, s, s.email);
    AnyWithdrawalSnoc(p, s, s.email);
    assert !AnyWithdrawal(p, s.email);
  }

  /** A submission with another email leaves a record as it is. */
  lemma SnocOther(p: seq<Submission>, s: Submission, e: string)
    requires HasEmail(p, e) && e != s.email
    ensures HasEmail(p + [s], e) && PatientFor(p + [s], e) == PatientFor(p, e)
  {
    FirstWithPrefix(p, s, e);
    CountOfSnoc(p, s, e);
    AnyWithdrawalSnoc(p, s, e);
  }

  /** Every entry of the `Map` is the record its email should have after `p`. */
  ghost predicate EntriesFor(p: seq<Submission>, entries: map<string, Patient>) {
    forall e :: e in entries ==> HasEmail(p, e) && entries[e] == PatientFor(p, e)
  }

  /** The `Map` after the first `i` submissions, as its keys in insertion
      order and its entries. */
  ghost predicate MapAfter(p: seq<Submission>, keys: seq<string>, entries: map<string, Patient>) {
    keys == DistinctEmails(p)
    && (forall e :: e in entries <==> e in keys)
    && EntriesFor(p, entries)
  }

  lemma DistinctEmailsSnoc(p: seq<Submission>, s: Submission)
    ensures DistinctEmails(p + [s]) == if s.email in DistinctEmails(p) then DistinctEmails(p) else DistinctEmails(p) + [s.email]
  {
    assert (p + [s])[..|p|] == p;
  }

  /** Replacing the entry of `s`'s email with its record after `p + [s]` keeps
      every entry right. */
  lemma EntriesSnoc(p: seq<Submission>, s: Submission, entries: map<string, Patient>, np: Patient)
    requires EntriesFor(p, entries)
    requires HasEmail(p + [s], s.email) && np == PatientFor(p + [s], s.email)
    ensures EntriesFor(p + [s], entries[s.email := np])
  {
    var entries' := entries[s.email := np];
    forall e | e in entries'
      ensures HasEmail(p + [s], e) && entries'[e] == PatientFor(p + [s], e)
    {
      if e != s.email {
        SnocOther(p, s, e);
      }
    }
  }

  /** One turn of the `forEach` for an email already in the `Map`. */
  lemma {:induction false} RecordSeen(p: seq<Submission>, s: Submission, keys: seq<string>, entries: map<string, Patient>, pt: Patient)
    requires MapAfter(p, keys, entries) && s.email in entries && pt == entries[s.email]
    ensures MapAfter(p + [s], keys, entries[s.email := pt.(consentCount := pt.consentCount + 1, hasWithdrawal := pt.hasWithdrawal || HasWithdrawal(s.withdrawals))])
  {
    var np := pt.(consentCount := pt.consentCount + 1, hasWithdrawal := pt.hasWithdrawal || HasWithdrawal(s.withdrawals));
    assert HasEmail(p, s.email) && pt == PatientFor(p, s.email);
    KeysSeen(p, s, keys);
    SnocSeen(p, s);
    EntriesSnoc(p, s, entries, np);
    KeysAfterUpdate(keys, entries, s.email, np);
  }

  /** An email already seen adds no key. */
  lemma KeysSeen(p: seq<Submission>, s: Submission, keys: seq<string>)
    requires keys == DistinctEmails(p) && s.email in keys
    ensures DistinctEmails(p + [s]) == keys
  {
    DistinctEmailsSnoc(p, s);
  }

  /** Updating the entry of a key already in the `Map` keeps its key set. */
  lemma KeysAfterUpdate(keys: seq<string>, entries: map<string, Patient>, k: string, v: Patient)
    requires (forall e :: e in entries <==> e in keys) && k in keys
    ensures forall e :: e in entries[k := v] <==> e in keys
  {
  }

  /** One turn of the `forEach` for a new email. */
  lemma {:induction false} RecordNew(p: seq<Submission>, s: Submission, keys: seq<string>, entries: map<string, Patient>)
    requires MapAfter(p, keys, entries) && s.email !in entries
    ensures MapAfter(p + [s], keys + [s.email], entries[s.email := Patient(s.email, s.firstName, s.lastName, s.signedAt, 1, HasWithdrawal(s.withdrawals))])
  {
    DistinctEmailsSnoc(p, s);
    DistinctEmailsMembers(p);
    SnocNew(p, s);
    EntriesSnoc(p, s, entries, Patient(s.email, s.firstName, s.lastName, s.signedAt, 1, HasWithdrawal(s.withdrawals)));
  }

  /** The grouping of `fetchPatients`, proved to produce `Grouped`: one record
      per distinct email in order of first occurrence, each with its first
      submission's names and date, its number of submissions and whether any
      was withdrawn. */
  method GroupByEmail(subs: seq<Submission>) returns (patients: seq<Patient>)
    ensures patients == Grouped(subs)
  {
    var keys: seq<string> := [];
    var entries: map<string, Patient> := map[];
    for i := 0 to |subs|
      invariant MapAfter(subs[..i], keys, entries)
    {
      var s := subs[i];
      PrefixSnoc(subs, i);
      assert subs[..i + 1] == subs[..i] + [s];
      var hasWithdrawal := HasWithdrawal(s.withdrawals);
      if s.email in entries {
        RecordSeen(subs[..i], s, keys, entries, entries[s.email]);
        var existing := entries[s.email];
        existing := existing.(consentCount := existing.consentCount + 1);
        if hasWithdrawal {
          existing := existing.(hasWithdrawal := true);
        }
        entries := entries[s.email := existing];
      } else {
        RecordNew(subs[..i], s, keys, entries);
        keys := keys + [s.email];
        entries := entries[s.email := Patient(s.email, s.firstName, s.lastName, s.signedAt, 1, hasWithdrawal)];
      }
    }
    assert subs[..|subs|] == subs;
    patients := seq(|keys|, j requires 0 <= j < |keys| => entries[keys[j]]);
  }

  // ---------------------------------------------------------------------
  // What the grouping promises
  // ---------------------------------------------------------------------

  /** The submissions arrive ordered by `signed_at`, newest first. */
  predicate NewestFirst(subs: seq<Submission>) {
    forall i, j :: 0 <= i < j < |subs| ==> subs[i].signedAt >= subs[j].signedAt
  }

  /** With the query's order, a record's `latest_signed_at` is the newest
      signing date among the submissions of its email. */
  lemma LatestIsNewest(subs: seq<Submission>, e: string, k: nat)
    requires NewestFirst(subs)
    requires k < |subs| && subs[k].email == e
    ensures HasEmail(subs, e) && PatientFor(subs, e).latestSignedAt >= subs[k].signedAt
  {
    assert HasEmail(subs, e);
    var f := FirstWith(subs, e);
    assert f <= k;
  }

  /** The consent counts of the records. */
  function SumCounts(ps: seq<Patient>): nat
    decreases |ps|
  {
    if ps == [] then 0 else SumCounts(ps[..|ps| - 1]) + ps[|ps| - 1].consentCount
  }

  /** The number of submissions with any of the emails `d`. */
  ghost function CountAll(subs: seq<Submission>, d: seq<string>): nat
    decreases |d|
  {
    if d == [] then 0 else CountAll(subs, d[..|d| - 1]) + CountOf(subs, d[|d| - 1])
  }

  lemma {:induction false} CountAllSnoc(p: seq<Submission>, s: Submission, d: seq<string>)
    requires Distinct(d)
    ensures CountAll(p + [s], d) == CountAll(p, d) + (if s.email in d then 1 else 0)
    decreases |d|
  {
    if d != [] {
      var d' := d[..|d| - 1];
      assert Distinct(d');
      CountAllSnoc(p, s, d');
      CountOfSnoc(p, s, d[|d| - 1]);
      assert s.email in d <==> s.email in d' || s.email == d[|d| - 1];
      assert s.email in d' ==> s.email != d[|d| - 1];
    }
  }

  lemma {:induction false} CountAllDistinct(subs: seq<Submission>)
    ensures CountAll(subs, DistinctEmails(subs)) == |subs|
    decreases |subs|
  {
    if subs != [] {
      var p, s := subs[..|subs| - 1], subs[|subs| - 1];
      assert subs == p + [s];
      CountAllDistinct(p);
      var d := DistinctEmails(p);
      DistinctEmailsUnique(p);
      CountAllSnoc(p, s, d);
      if s.email !in d {
        DistinctEmailsMembers(p);
        CountOfAbsent(p, s.email);
        CountOfSnoc(p, s, s.email);
        assert (d + [s.email])[..|d|] == d;
      }
    }
  }

  lemma {:induction false} SumCountsOfRecords(subs: seq<Submission>, ps: seq<Patient>, d: seq<string>)
    requires |ps| == |d|
    requires forall j :: 0 <= j < |d| ==> ps[j].consentCount == CountOf(subs, d[j])
    ensures SumCounts(ps) == CountAll(subs, d)
    decreases |d|
  {
    if d != [] {
      SumCountsOfRecords(subs, ps[..|ps| - 1], d[..|d| - 1]);
    }
  }

  /** Every submission is counted exactly once: the consent counts of the
      records add up to the number of submissions. */
  lemma CountsSum(subs: seq<Submission>)
    ensures SumCounts(Grouped(subs)) == |subs|
  {
    SumCountsOfRecords(subs, Grouped(subs), DistinctEmails(subs));
    CountAllDistinct(subs);
  }

  /** Each email has exactly one record, and each record's email occurs. */
  lemma GroupedKeys(subs: seq<Submission>)
    ensures forall e :: HasEmail(subs, e) <==> exists j :: 0 <= j < |Grouped(subs)| && Grouped(subs)[j].email == e
    ensures forall i, j :: 0 <= i < j < |Grouped(subs)| ==> Grouped(subs)[i].email != Grouped(subs)[j].email
  {
    var d := DistinctEmails(subs);
    DistinctEmailsMembers(subs);
    DistinctEmailsUnique(subs);
    var g := Grouped(subs);
    assert forall j :: 0 <= j < |g| ==> g[j].email == d[j];
    forall e | HasEmail(subs, e) ensures exists j :: 0 <= j < |g| && g[j].email == e {
      var j :| 0 <= j < |d| && d[j] == e;
      assert g[j].email == e;
    }
  }

  /** `filteredPatients`: the lowercased query occurs in the email, the first
      name or the last name. */
  predicate MatchesSearch(pt: Patient, query: string) {
    var q := ToLower(query);
    Includes(ToLower(pt.email), q) || Includes(ToLower(pt.firstName), q) || Includes(ToLower(pt.lastName), q)
  }

  function FilteredPatients(ps: seq<Patient>, query: string): seq<Patient> {
    Filter(ps, pt => MatchesSearch(pt, query))
  }

  /** A record is listed exactly when the search matches it, in the original
      order, and the empty search lists them all. */
  lemma FilteredPatientsMembers(ps: seq<Patient>, query: string)
    ensures forall pt :: pt in FilteredPatients(ps, query) <==> pt in ps && MatchesSearch(pt, query)
    ensures query == "" ==> FilteredPatients(ps, query) == ps
    ensures forall a, b :: FilteredPatients(a + b, query) == FilteredPatients(a, query) + FilteredPatients(b, query)
  {
    FilterMembers(ps, pt => MatchesSearch(pt, query));
    if query == "" {
      forall i | 0 <= i < |ps| ensures MatchesSearch(ps[i], query) {
        IncludesEmpty(ToLower(ps[i].email));
      }
      FilterAll(ps, pt => MatchesSearch(pt, query));
    }
    forall a, b ensures FilteredPatients(a + b, query) == FilteredPatients(a, query) + FilteredPatients(b, query) {
      FilterAppend(a, b, pt => MatchesSearch(pt, query));
    }
  }
}
