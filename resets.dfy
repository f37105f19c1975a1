/** The bulk writes behind the queue resets: `Queue.updateMany` cancelling the waiting tickets of a
    scope, the release of every cancelled ticket's owner that follows a clinic reset, the daily
    counter check of getClinicStatus and the midnight job over every clinic counter. */
module Resets {
  import opened Wrappers
  import opened Tickets
  import opened Ledger
  import opened Counters
  import opened Patients

  /** `Queue.updateMany(f, {status: 'cancelled', cancelledAt: now})` */
  function CancelMatching(ledger: seq<Ticket>, f: Filter, now: Time): (r: seq<Ticket>)
    ensures |r| == |ledger|
  {
    seq(|ledger|, i requires 0 <= i < |ledger| =>
      if Matches(ledger[i], f) then ledger[i].(status := Cancelled, cancelledAt := Some(now)) else ledger[i])
  }

  /** Cancelling the waiting tickets of a clinic: each of them ends cancelled at `now`, every other
      ticket (other clinics, tickets not waiting) is untouched, no waiting ticket of the clinic is
      left, and every cancelled ticket of the clinic from before is still cancelled. */
  lemma ClinicCancelEffect(ledger: seq<Ticket>, c: ClinicId, now: Time)
    ensures var after := CancelMatching(ledger, ClinicStatus(c, Waiting), now);
            && (forall i :: 0 <= i < |ledger| && ledger[i].clinic == c && ledger[i].status == Waiting ==>
                  after[i] == ledger[i].(status := Cancelled, cancelledAt := Some(now)))
            && (forall i :: 0 <= i < |ledger| && !(ledger[i].clinic == c && ledger[i].status == Waiting) ==> after[i] == ledger[i])
            && Count(after, ClinicStatus(c, Waiting)) == 0
            && (forall i :: 0 <= i < |ledger| && ledger[i].clinic == c && ledger[i].status == Cancelled ==>
                  i in Find(after, ClinicStatus(c, Cancelled)))
  {
    var after := CancelMatching(ledger, ClinicStatus(c, Waiting), now);
    CountZero(after, ClinicStatus(c, Waiting));
  }

  /** The same for a doctor's waiting tickets, whatever their clinic. */
  lemma DoctorCancelEffect(ledger: seq<Ticket>, d: DoctorId, now: Time)
    ensures var after := CancelMatching(ledger, DoctorStatus(d, Waiting), now);
            && (forall i :: 0 <= i < |ledger| && ledger[i].doctor == Some(d) && ledger[i].status == Waiting ==>
                  after[i] == ledger[i].(status := Cancelled, cancelledAt := Some(now)))
            && (forall i :: 0 <= i < |ledger| && !(ledger[i].doctor == Some(d) && ledger[i].status == Waiting) ==> after[i] == ledger[i])
            && Count(after, DoctorStatus(d, Waiting)) == 0
  {
    var after := CancelMatching(ledger, DoctorStatus(d, Waiting), now);
    CountZero(after, DoctorStatus(d, Waiting));
  }

  /** The patients after a clinic reset's cleanup: every owner of a cancelled ticket of the clinic is
      released from it, in ledger order. */
  function ReleaseCancelled(patients: seq<Patient>, ledger: seq<Ticket>, c: ClinicId): (r: seq<Patient>)
    ensures |r| == |patients|
  {
    ReleaseAll(patients, ledger, Find(ledger, ClinicStatus(c, Cancelled)))
  }

  /** The cleanup does not look at when a ticket was cancelled: a patient who once cancelled a ticket
      at clinic c and now waits at another clinic loses its booking reference when c is reset,
      although the ticket it points to is left waiting. */
  lemma StaleCancellationReleasesActiveBooking(patients: seq<Patient>, ledger: seq<Ticket>, c: ClinicId, now: Time, stale: TicketId, q: PatientId)
    requires stale < |ledger| && ledger[stale].clinic == c && ledger[stale].status == Cancelled && ledger[stale].patient == q
    requires q < |patients| && patients[q].currentQueue.Some?
    requires patients[q].currentQueue.value < |ledger|
    requires ledger[patients[q].currentQueue.value].clinic != c && ledger[patients[q].currentQueue.value].status == Waiting
    ensures var after := CancelMatching(ledger, ClinicStatus(c, Waiting), now);
            && ReleaseCancelled(patients, after, c)[q].currentQueue.None?
            && after[patients[q].currentQueue.value].status == Waiting
  {
    var after := CancelMatching(ledger, ClinicStatus(c, Waiting), now);
    var ids := Find(after, ClinicStatus(c, Cancelled));
    ClinicCancelEffect(ledger, c, now);
    assert stale in ids;
    var k :| 0 <= k < |ids| && ids[k] == stale;
    assert Owns(after, ids, q);
    ReleaseAllEffect(patients, after, ids);
  }

  // ---------------------------------------------------------------------------------------------
  // Counter resets

  /** checkDailyReset: the clinic counter is set to 0 when the clinic has no booking of any status
      since midnight and the counter reads above 0; otherwise nothing is written. */
  function DailyReset(store: Store, ledger: seq<Ticket>, c: ClinicId, todayStart: Time): (r: Store)
    ensures r == store || r == store[ClinicCounter(c) := 0]
  {
    if Count(ledger, BookedSince(c, todayStart)) == 0 && AwaitedRead(store, ClinicCounter(c)) > 0
    then store[ClinicCounter(c) := 0] else store
  }

  /** The write happens exactly when no ticket of the clinic was booked since midnight and the
      counter is positive; afterwards a clinic without bookings today never reads above 0, and a
      clinic with bookings keeps its counter. */
  lemma DailyResetMeaning(store: Store, ledger: seq<Ticket>, c: ClinicId, todayStart: Time)
    ensures DailyReset(store, ledger, c, todayStart) != store <==>
              (forall i :: 0 <= i < |ledger| ==> !(ledger[i].clinic == c && ledger[i].bookedAt >= todayStart))
              && AwaitedRead(store, ClinicCounter(c)) > 0
    ensures (forall i :: 0 <= i < |ledger| ==> !(ledger[i].clinic == c && ledger[i].bookedAt >= todayStart)) ==>
              AwaitedRead(DailyReset(store, ledger, c, todayStart), ClinicCounter(c)) <= 0
    ensures forall k :: k != ClinicCounter(c) && k in store ==> k in DailyReset(store, ledger, c, todayStart) && DailyReset(store, ledger, c, todayStart)[k] == store[k]
  {
    CountZero(ledger, BookedSince(c, todayStart));
    forall i | 0 <= i < |ledger| { StatusSets(ledger[i].status); }
    if AwaitedRead(store, ClinicCounter(c)) > 0 {
      assert ClinicCounter(c) in store && store[ClinicCounter(c)] != 0;
    }
  }

  /** The midnight job's first n iterations: the counters of clinics 0 .. n-1 set to 0 in turn. */
  function ResetCounters(store: Store, n: nat): (r: Store)
    decreases n
  {
    if n == 0 then store else ResetCounters(store, n - 1)[ClinicCounter(n - 1) := 0]
  }

  /** Clinic counters below n read 0; every other key keeps its presence and value, in particular
      every doctor counter. */
  lemma {:induction false} ResetCountersEffect(store: Store, n: nat)
    ensures forall i: ClinicId :: i < n ==> ClinicCounter(i) in ResetCounters(store, n) && ResetCounters(store, n)[ClinicCounter(i)] == 0
    ensures forall k :: k in ResetCounters(store, n) <==> k in store || (k.ClinicCounter? && k.clinic < n)
    ensures forall k :: k in store && !(k.ClinicCounter? && k.clinic < n) ==> ResetCounters(store, n)[k] == store[k]
    decreases n
  {
    if n > 0 {
      ResetCountersEffect(store, n - 1);
    }
  }

  /** Running the job twice leaves the same counters as running it once. */
  lemma ResetCountersIdempotent(store: Store, n: nat)
    ensures ResetCounters(ResetCounters(store, n), n) == ResetCounters(store, n)
  {
    var once := ResetCounters(store, n);
    var twice := ResetCounters(once, n);
    ResetCountersEffect(store, n);
    ResetCountersEffect(once, n);
    assert twice.Keys == once.Keys;
    forall k | k in twice ensures twice[k] == once[k] {
      if k.ClinicCounter? && k.clinic < n {
        assert twice[ClinicCounter(k.clinic)] == 0 && once[ClinicCounter(k.clinic)] == 0;
      }
    }
  }

  /** Where the job stops: after every clinic, or before the clinic whose write fails (the error is
      logged and the remaining clinics keep their counters). */
  function StopAt(clinicCount: nat, failAt: Option<nat>): (r: nat)
    ensures r <= clinicCount
    ensures failAt.None? ==> r == clinicCount
    ensures failAt.Some? && failAt.value < clinicCount ==> r == failAt.value
  {
    if failAt.Some? && failAt.value < clinicCount then failAt.value else clinicCount
  }
}
