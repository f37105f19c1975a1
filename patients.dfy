/** The patient document of models/Patient.js: the phone validator, the defaults, the set-like
    queue history, the pre-save hook's guard, and the `$unset currentQueue` / `$addToSet queueHistory`
    update the controllers apply when a ticket leaves the queue. */
module Patients {
  import opened Wrappers
  import opened Tickets

  datatype Patient = Patient(
    name: string,
    phone: string,
    fcmToken: Option<string>,
    currentQueue: Option<TicketId>,
    history: seq<TicketId>)

  /** `\d` without the unicode flag: an ASCII digit. */
  predicate IsDigit(ch: char) {
    '0' <= ch <= '9'
  }

  /** `3\d{9}`: ten characters, a 3 then nine digits. */
  predicate MobileBody(s: string) {
    |s| == 10 && s[0] == '3' && forall k :: 1 <= k < 10 ==> IsDigit(s[k])
  }

  /** `^(\+92|92|0)?3\d{9}$`: the whole string is an optional prefix followed by the mobile body. */
  predicate ValidPhone(s: string) {
    || MobileBody(s)
    || (|s| >= 1 && s[..1] == "0" && MobileBody(s[1..]))
    || (|s| >= 2 && s[..2] == "92" && MobileBody(s[2..]))
    || (|s| >= 3 && s[..3] == "+92" && MobileBody(s[3..]))
  }

  /** After the optional prefix come exactly ten characters starting with 3, so a valid number has
      10, 11, 12 or 13 characters, and its last ten characters are the mobile body. */
  lemma ValidPhoneShape(s: string)
    requires ValidPhone(s)
    ensures 10 <= |s| <= 13
    ensures MobileBody(s[|s| - 10..])
    ensures |s| == 11 ==> s[0] == '0'
    ensures |s| == 12 ==> s[..2] == "92"
    ensures |s| == 13 ==> s[..3] == "+92"
  {
    if MobileBody(s) {
      assert s[|s| - 10..] == s;
    }
  }

  /** The schema defaults and validators: name and phone are required (an empty string fails
      `required`), the phone must pass the validator, fcmToken and currentQueue start null and the
      history empty. */
  function CreatePatient(name: string, phone: string): (r: Result<Patient>)
    ensures r.Ok? <==> name != "" && ValidPhone(phone)
    ensures r.Ok? ==> r.value.name == name && r.value.phone == phone
    ensures r.Ok? ==> r.value.fcmToken.None? && r.value.currentQueue.None? && r.value.history == []
    ensures r.Err? ==> r.status == 500
  {
    if name == "" || phone == "" then Err(500, "Patient validation failed: required field missing")
    else if !ValidPhone(phone) then Err(500, "Patient validation failed: " + phone + " is not a valid PK phone number!")
    else Ok(Patient(name, phone, None, None, []))
  }

  /** `Patient.findOne({phone})`: the first patient holding the phone number. */
  function FindByPhone(patients: seq<Patient>, phone: string): (r: Option<PatientId>)
    ensures r.None? <==> forall i :: 0 <= i < |patients| ==> patients[i].phone != phone
    ensures r.Some? ==> r.value < |patients| && patients[r.value].phone == phone
    ensures r.Some? ==> forall i :: 0 <= i < r.value ==> patients[i].phone != phone
    decreases |patients|
  {
    if |patients| == 0 then None
    else if patients[0].phone == phone then Some(0)
    else
      match FindByPhone(patients[1..], phone)
      case None => None
      case Some(k) => Some(k + 1)
  }

  /** The unique index on phone. */
  ghost predicate PhonesUnique(patients: seq<Patient>) {
    forall i, j :: 0 <= i < j < |patients| ==> patients[i].phone != patients[j].phone
  }

  predicate NoDuplicates(s: seq<TicketId>) {
    forall a, b :: 0 <= a < b < |s| ==> s[a] != s[b]
  }

  /** `queueHistory.addToSet(x)` / `$addToSet`: append x unless already there. */
  function AddToSet(s: seq<TicketId>, x: TicketId): (r: seq<TicketId>)
    ensures x in r
    ensures forall y :: y in r <==> y in s || y == x
    ensures x in s ==> r == s
    ensures NoDuplicates(s) ==> NoDuplicates(r)
    ensures |s| <= |r| && r[..|s|] == s
  {
    if x in s then s else s + [x]
  }

  /** The pre-save hook. Its history branch is reached only when currentQueue was modified and is
      now null; that branch reads the `_originalCurrentQueue` virtual, whose getter reads the very
      property it defines and so recurses until the call stack overflows. The hook hands that error
      to `next`, so the save is rejected and nothing is written. In every other case the hook lets
      the document through untouched. */
  function PreSave(p: Patient, currentQueueModified: bool): (r: Result<Patient>)
    ensures r.Ok? <==> !currentQueueModified || p.currentQueue.Some?
    ensures r.Ok? ==> r.value == p
    ensures r.Err? ==> r.status == 500
  {
    if currentQueueModified && p.currentQueue.None? then Err(500, "Maximum call stack size exceeded")
    else Ok(p)
  }

  // ---------------------------------------------------------------------------------------------
  // Releasing patients from tickets that left the queue

  /** `Patient.findByIdAndUpdate(owner, {$unset: {currentQueue: 1}, $addToSet: {queueHistory: ticket}})`:
      a missing patient is left as it is (there is nothing to update). */
  function Release(patients: seq<Patient>, owner: PatientId, ticket: TicketId): (r: seq<Patient>)
    ensures |r| == |patients|
    ensures owner < |patients| ==> r[owner].currentQueue.None? && ticket in r[owner].history
    ensures forall q :: 0 <= q < |patients| && q != owner ==> r[q] == patients[q]
  {
    if owner < |patients| then
      var p := patients[owner];
      patients[owner := p.(currentQueue := None, history := AddToSet(p.history, ticket))]
    else patients
  }

  /** The same update for every ticket in `ids`, in order; owners are read from the ledger. */
  function ReleaseAll(patients: seq<Patient>, ledger: seq<Ticket>, ids: seq<TicketId>): (r: seq<Patient>)
    requires forall k :: 0 <= k < |ids| ==> ids[k] < |ledger|
    ensures |r| == |patients|
    decreases |ids|
  {
    if ids == [] then patients
    else ReleaseAll(Release(patients, ledger[ids[0]].patient, ids[0]), ledger, ids[1..])
  }

  /** Releasing one more ticket after a run of releases: the form a loop over the tickets builds. */
  lemma {:induction false} ReleaseAllSnoc(patients: seq<Patient>, ledger: seq<Ticket>, ids: seq<TicketId>, x: TicketId)
    requires forall k :: 0 <= k < |ids| ==> ids[k] < |ledger|
    requires x < |ledger|
    ensures ReleaseAll(patients, ledger, ids + [x]) == Release(ReleaseAll(patients, ledger, ids), ledger[x].patient, x)
    decreases |ids|
  {
    if ids == [] {
      assert ids + [x] == [x];
    } else {
      var next := Release(patients, ledger[ids[0]].patient, ids[0]);
      assert (ids + [x])[0] == ids[0];
      assert (ids + [x])[1..] == ids[1..] + [x];
      ReleaseAllSnoc(next, ledger, ids[1..], x);
    }
  }

  /** A patient is released from the tickets of `ids` it owns. */
  ghost predicate Owns(ledger: seq<Ticket>, ids: seq<TicketId>, q: PatientId)
    requires forall k :: 0 <= k < |ids| ==> ids[k] < |ledger|
  {
    exists k :: 0 <= k < |ids| && ledger[ids[k]].patient == q
  }

  /** A patient owning none of the tickets is left as it was. */
  lemma {:induction false} ReleaseAllUntouched(patients: seq<Patient>, ledger: seq<Ticket>, ids: seq<TicketId>, q: PatientId)
    requires forall k :: 0 <= k < |ids| ==> ids[k] < |ledger|
    requires q < |patients| && !Owns(ledger, ids, q)
    ensures ReleaseAll(patients, ledger, ids)[q] == patients[q]
    decreases |ids|
  {
    if ids != [] {
      var tail := ids[1..];
      assert ledger[ids[0]].patient != q;
      var next := Release(patients, ledger[ids[0]].patient, ids[0]);
      forall k | 0 <= k < |tail| ensures ledger[tail[k]].patient != q {
        assert tail[k] == ids[k + 1];
      }
      ReleaseAllUntouched(next, ledger, tail, q);
    }
  }

  /** Name, phone and token are kept, and the history only grows, for every patient. */
  lemma {:induction false} ReleaseAllKeeps(patients: seq<Patient>, ledger: seq<Ticket>, ids: seq<TicketId>, q: PatientId)
    requires forall k :: 0 <= k < |ids| ==> ids[k] < |ledger|
    requires q < |patients|
    ensures Unchanged(patients[q], ReleaseAll(patients, ledger, ids)[q])
    decreases |ids|
  {
    if ids != [] {
      var next := Release(patients, ledger[ids[0]].patient, ids[0]);
      assert Unchanged(patients[q], next[q]);
      ReleaseAllKeeps(next, ledger, ids[1..], q);
    }
  }

  /** An owner of one of the tickets ends up with no current queue. */
  lemma {:induction false} ReleaseAllOwner(patients: seq<Patient>, ledger: seq<Ticket>, ids: seq<TicketId>, q: PatientId)
    requires forall k :: 0 <= k < |ids| ==> ids[k] < |ledger|
    requires q < |patients| && Owns(ledger, ids, q)
    ensures ReleaseAll(patients, ledger, ids)[q].currentQueue.None?
    decreases |ids|
  {
    var tail := ids[1..];
    var next := Release(patients, ledger[ids[0]].patient, ids[0]);
    var k :| 0 <= k < |ids| && ledger[ids[k]].patient == q;
    if k > 0 {
      assert tail[k - 1] == ids[k];
      ReleaseAllOwner(next, ledger, tail, q);
    } else if Owns(ledger, tail, q) {
      ReleaseAllOwner(next, ledger, tail, q);
    } else {
      ReleaseAllUntouched(next, ledger, tail, q);
    }
  }

  /** Each released ticket is in its owner's history afterwards. */
  lemma {:induction false} ReleaseAllHistory(patients: seq<Patient>, ledger: seq<Ticket>, ids: seq<TicketId>, k: nat)
    requires forall k :: 0 <= k < |ids| ==> ids[k] < |ledger|
    requires k < |ids| && ledger[ids[k]].patient < |patients|
    ensures ids[k] in ReleaseAll(patients, ledger, ids)[ledger[ids[k]].patient].history
    decreases |ids|
  {
    var tail := ids[1..];
    var owner := ledger[ids[0]].patient;
    var next := Release(patients, owner, ids[0]);
    if k > 0 {
      assert tail[k - 1] == ids[k];
      ReleaseAllHistory(next, ledger, tail, k - 1);
    } else {
      ReleaseAllKeeps(next, ledger, tail, owner);
    }
  }

  /** What the releases do to each patient: a patient owning none of the tickets is unchanged;
      an owner loses its currentQueue and has each of its tickets in its history; name, phone and
      token never change, histories only grow and stay free of duplicates. */
  lemma ReleaseAllEffect(patients: seq<Patient>, ledger: seq<Ticket>, ids: seq<TicketId>)
    requires forall k :: 0 <= k < |ids| ==> ids[k] < |ledger|
    ensures forall q :: 0 <= q < |patients| && !Owns(ledger, ids, q) ==> ReleaseAll(patients, ledger, ids)[q] == patients[q]
    ensures forall q :: 0 <= q < |patients| && Owns(ledger, ids, q) ==> ReleaseAll(patients, ledger, ids)[q].currentQueue.None?
    ensures forall k :: 0 <= k < |ids| && ledger[ids[k]].patient < |patients| ==>
              ids[k] in ReleaseAll(patients, ledger, ids)[ledger[ids[k]].patient].history
    ensures forall q :: 0 <= q < |patients| ==> Unchanged(patients[q], ReleaseAll(patients, ledger, ids)[q])
  {
    var r := ReleaseAll(patients, ledger, ids);
    forall q | 0 <= q < |patients| ensures Unchanged(patients[q], r[q]) {
      ReleaseAllKeeps(patients, ledger, ids, q);
    }
    forall q | 0 <= q < |patients| && !Owns(ledger, ids, q) ensures r[q] == patients[q] {
      ReleaseAllUntouched(patients, ledger, ids, q);
    }
    forall q | 0 <= q < |patients| && Owns(ledger, ids, q) ensures r[q].currentQueue.None? {
      ReleaseAllOwner(patients, ledger, ids, q);
    }
    forall k | 0 <= k < |ids| && ledger[ids[k]].patient < |patients|
      ensures ids[k] in r[ledger[ids[k]].patient].history
    {
      ReleaseAllHistory(patients, ledger, ids, k);
    }
  }

  /** Name, phone and token are kept; the history only grows and stays duplicate-free. */
  ghost predicate Unchanged(before: Patient, after: Patient) {
    && after.name == before.name && after.phone == before.phone && after.fcmToken == before.fcmToken
    && (forall x :: x in before.history ==> x in after.history)
    && (NoDuplicates(before.history) ==> NoDuplicates(after.history))
  }

  /** Releasing patients that are already released from those tickets changes nothing; this is why
      the missed pass of an advance, whose tickets the served pass already handled, leaves patients
      as they are. */
  lemma {:induction false} ReleaseAllAgainIsIdentity(patients: seq<Patient>, ledger: seq<Ticket>, ids: seq<TicketId>)
    requires forall k :: 0 <= k < |ids| ==> ids[k] < |ledger|
    requires forall k :: 0 <= k < |ids| && ledger[ids[k]].patient < |patients| ==>
               patients[ledger[ids[k]].patient].currentQueue.None? && ids[k] in patients[ledger[ids[k]].patient].history
    ensures ReleaseAll(patients, ledger, ids) == patients
    decreases |ids|
  {
    if ids != [] {
      var owner := ledger[ids[0]].patient;
      if owner < |patients| {
        var p := patients[owner];
        assert p.(currentQueue := None, history := AddToSet(p.history, ids[0])) == p;
        assert Release(patients, owner, ids[0]) == patients;
      }
      ReleaseAllAgainIsIdentity(patients, ledger, ids[1..]);
    }
  }
}
