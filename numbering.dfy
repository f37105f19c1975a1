/** The numbering policy: "one past the highest number in scope, or 1".
    bookNumber and registerPatientAndAddToQueue use the session scope (non-cancelled tickets of the
    clinic booked since its last status change); `Queue.getNextQueueNumber` uses the day scope
    (tickets of a clinic and doctor booked since midnight, cancelled ones included). */
module Numbering {
  import opened Wrappers
  import opened Tickets
  import opened Ledger

  ghost predicate InScope(ledger: seq<Ticket>, f: Filter, i: int) {
    0 <= i < |ledger| && Matches(ledger[i], f)
  }

  /** n is one past the highest number in scope, or 1 when nothing is in scope. */
  ghost predicate IsOnePastMax(ledger: seq<Ticket>, f: Filter, n: int) {
    && (forall i :: InScope(ledger, f, i) ==> ledger[i].number < n)
    && ((forall i :: !InScope(ledger, f, i)) ==> n == 1)
    && ((exists i :: InScope(ledger, f, i)) ==> exists i :: InScope(ledger, f, i) && ledger[i].number + 1 == n)
  }

  function OnePastMax(ledger: seq<Ticket>, f: Filter): (n: int)
    ensures IsOnePastMax(ledger, f, n)
  {
    match Highest(ledger, f)
    case None => 1
    case Some(i) => ledger[i].number + 1
  }

  lemma {:induction false} OnePastMaxUnique(ledger: seq<Ticket>, f: Filter, m: int, n: int)
    requires IsOnePastMax(ledger, f, m) && IsOnePastMax(ledger, f, n)
    ensures m == n
  {
    if exists i :: InScope(ledger, f, i) {
      var a :| InScope(ledger, f, a) && ledger[a].number + 1 == m;
      var b :| InScope(ledger, f, b) && ledger[b].number + 1 == n;
      assert ledger[a].number < n && ledger[b].number < m;
    }
  }

  /** The characterisation behind OnePastMaxAppendOutside, for any n that is one past the maximum. */
  lemma AppendOutsideBound(ledger: seq<Ticket>, f: Filter, t: Ticket, n: int)
    requires !Matches(t, f) && IsOnePastMax(ledger, f, n)
    ensures IsOnePastMax(ledger + [t], f, n)
  {
    var longer := ledger + [t];
    forall i ensures InScope(longer, f, i) <==> InScope(ledger, f, i) {
      if 0 <= i < |ledger| { assert longer[i] == ledger[i]; }
    }
    if exists i :: InScope(longer, f, i) {
      var a :| InScope(longer, f, a);
      assert InScope(ledger, f, a);
      var b :| InScope(ledger, f, b) && ledger[b].number + 1 == n;
      assert InScope(longer, f, b);
    }
  }

  /** Appending a ticket outside the scope changes nothing. */
  lemma OnePastMaxAppendOutside(ledger: seq<Ticket>, f: Filter, t: Ticket)
    requires !Matches(t, f)
    ensures OnePastMax(ledger + [t], f) == OnePastMax(ledger, f)
  {
    var n := OnePastMax(ledger, f);
    AppendOutsideBound(ledger, f, t, n);
    OnePastMaxUnique(ledger + [t], f, n, OnePastMax(ledger + [t], f));
  }

  /** The characterisation behind OnePastMaxAppendInside, for any m that is one past the maximum. */
  lemma AppendInsideBound(ledger: seq<Ticket>, f: Filter, t: Ticket, m: int, n: int)
    requires Matches(t, f) && IsOnePastMax(ledger, f, m)
    requires n == if (exists i :: InScope(ledger, f, i)) && m > t.number + 1 then m else t.number + 1
    ensures IsOnePastMax(ledger + [t], f, n)
  {
    var longer := ledger + [t];
    var last := |ledger|;
    assert longer[last] == t && InScope(longer, f, last);
    forall i | InScope(longer, f, i) ensures longer[i].number < n {
      if i < last { assert longer[i] == ledger[i] && InScope(ledger, f, i); }
    }
    if (exists i :: InScope(ledger, f, i)) && m > t.number + 1 {
      var b :| InScope(ledger, f, b) && ledger[b].number + 1 == m;
      assert longer[b] == ledger[b] && InScope(longer, f, b);
    }
  }

  /** Appending a ticket in scope raises the result to at least one past its number. */
  lemma OnePastMaxAppendInside(ledger: seq<Ticket>, f: Filter, t: Ticket)
    requires Matches(t, f)
    ensures OnePastMax(ledger + [t], f) ==
              if (exists i :: InScope(ledger, f, i)) && OnePastMax(ledger, f) > t.number + 1
              then OnePastMax(ledger, f) else t.number + 1
  {
    var m := OnePastMax(ledger, f);
    var n := if (exists i :: InScope(ledger, f, i)) && m > t.number + 1 then m else t.number + 1;
    AppendInsideBound(ledger, f, t, m, n);
    OnePastMaxUnique(ledger + [t], f, n, OnePastMax(ledger + [t], f));
  }

  // ---------------------------------------------------------------------------------------------
  // Session numbering (bookNumber, registerPatientAndAddToQueue)

  /** `{clinic: c, bookedAt: {$gte: lastStatusChange}, status: {$ne: 'cancelled'}}` */
  function SessionScope(c: ClinicId, since: Time): Filter {
    Filter(Some(c), None, None, NotCancelled, None, None, None, Some(since))
  }

  /** The number a booking gets, and whether the booking also resets the clinic counter to 0. */
  datatype Assignment = Assignment(number: int, resetsCounter: bool)

  function SessionNumber(ledger: seq<Ticket>, c: ClinicId, since: Time): (a: Assignment)
    ensures a.resetsCounter <==> Count(ledger, SessionScope(c, since)) == 0
    ensures a.resetsCounter ==> a.number == 1
    ensures IsOnePastMax(ledger, SessionScope(c, since), a.number)
  {
    var scope := SessionScope(c, since);
    Assignment(OnePastMax(ledger, scope), Count(ledger, scope) == 0)
  }

  /** The counter is reset exactly when no non-cancelled ticket of the clinic was booked since the
      last status change; otherwise the number is one past the highest such ticket's number. */
  lemma SessionNumberMeaning(ledger: seq<Ticket>, c: ClinicId, since: Time)
    ensures SessionNumber(ledger, c, since).resetsCounter <==>
              forall i :: 0 <= i < |ledger| ==> !(ledger[i].clinic == c && ledger[i].bookedAt >= since && ledger[i].status != Cancelled)
    ensures forall i :: 0 <= i < |ledger| && ledger[i].clinic == c && ledger[i].bookedAt >= since && ledger[i].status != Cancelled ==>
              ledger[i].number < SessionNumber(ledger, c, since).number
    ensures !SessionNumber(ledger, c, since).resetsCounter ==>
              exists i :: 0 <= i < |ledger| && ledger[i].clinic == c && ledger[i].bookedAt >= since && ledger[i].status != Cancelled
                          && ledger[i].number + 1 == SessionNumber(ledger, c, since).number
  {
    var scope := SessionScope(c, since);
    CountZero(ledger, scope);
    forall i | 0 <= i < |ledger| ensures InScope(ledger, scope, i) <==>
      ledger[i].clinic == c && ledger[i].bookedAt >= since && ledger[i].status != Cancelled
    {
      StatusSets(ledger[i].status);
    }
  }

  /** A cancelled ticket never affects the session number, so a cancelled top number is reissued. */
  lemma SessionNumberIgnoresCancelled(ledger: seq<Ticket>, c: ClinicId, since: Time, t: Ticket)
    requires t.status == Cancelled
    ensures SessionNumber(ledger + [t], c, since).number == SessionNumber(ledger, c, since).number
  {
    OnePastMaxAppendOutside(ledger, SessionScope(c, since), t);
  }

  /** A booking in the session scope numbered by the policy moves the next number up by one. */
  lemma SessionNumberAfterBooking(ledger: seq<Ticket>, c: ClinicId, since: Time, t: Ticket)
    requires t.clinic == c && t.bookedAt >= since && t.status == Waiting
    requires t.number == SessionNumber(ledger, c, since).number
    ensures SessionNumber(ledger + [t], c, since) == Assignment(t.number + 1, false)
  {
    var scope := SessionScope(c, since);
    assert Matches(t, scope);
    OnePastMaxAppendInside(ledger, scope, t);
    CountZero(ledger + [t], scope);
    assert (ledger + [t])[|ledger|] == t;
  }

  /** Booking each of `patients` in turn at time `now` since the session start. */
  function BookInTurn(ledger: seq<Ticket>, c: ClinicId, since: Time, now: Time, patients: seq<PatientId>): seq<Ticket>
    decreases |patients|
  {
    if patients == [] then ledger
    else
      var t := NewWaitingTicket(c, patients[0], SessionNumber(ledger, c, since).number, now);
      BookInTurn(ledger + [t], c, since, now, patients[1..])
  }

  /** After a session reset, k bookings in a row receive the numbers 1..k, in order. */
  lemma {:induction false} FreshSessionNumbersAreConsecutive(ledger: seq<Ticket>, c: ClinicId, since: Time, now: Time, patients: seq<PatientId>)
    requires now >= since
    requires SessionNumber(ledger, c, since).resetsCounter
    ensures |BookInTurn(ledger, c, since, now, patients)| == |ledger| + |patients|
    ensures forall j :: |ledger| <= j < |ledger| + |patients| ==>
              BookInTurn(ledger, c, since, now, patients)[j].number == j - |ledger| + 1
  {
    BookInTurnFrom(ledger, c, since, now, patients, 1);
  }

  lemma BookInTurnStep(ledger: seq<Ticket>, c: ClinicId, since: Time, now: Time, patients: seq<PatientId>)
    requires patients != []
    ensures BookInTurn(ledger, c, since, now, patients) ==
              BookInTurn(ledger + [NewWaitingTicket(c, patients[0], SessionNumber(ledger, c, since).number, now)], c, since, now, patients[1..])
  {
  }

  lemma {:induction false} BookInTurnKeepsPrefix(ledger: seq<Ticket>, c: ClinicId, since: Time, now: Time, patients: seq<PatientId>)
    ensures |BookInTurn(ledger, c, since, now, patients)| == |ledger| + |patients|
    ensures BookInTurn(ledger, c, since, now, patients)[..|ledger|] == ledger
    decreases |patients|
  {
    if patients != [] {
      var t := NewWaitingTicket(c, patients[0], SessionNumber(ledger, c, since).number, now);
      var longer := ledger + [t];
      BookInTurnStep(ledger, c, since, now, patients);
      BookInTurnKeepsPrefix(longer, c, since, now, patients[1..]);
      var r := BookInTurn(longer, c, since, now, patients[1..]);
      assert r[..|ledger|] == r[..|longer|][..|ledger|] == longer[..|ledger|] == ledger;
    }
  }

  /** The j-th ticket of a run of bookings that starts at number `next` carries next + (j - |ledger|). */
  lemma {:induction false} BookInTurnNumberAt(ledger: seq<Ticket>, c: ClinicId, since: Time, now: Time,
                                               patients: seq<PatientId>, next: int, j: int)
    requires now >= since
    requires SessionNumber(ledger, c, since).number == next
    requires |ledger| <= j < |ledger| + |patients|
    ensures |BookInTurn(ledger, c, since, now, patients)| == |ledger| + |patients|
    ensures BookInTurn(ledger, c, since, now, patients)[j].number == j - |ledger| + next
    decreases |patients|
  {
    if j == |ledger| {
      BookInTurnKeepsPrefix(ledger, c, since, now, patients);
      BookInTurnFirst(ledger, c, since, now, patients, next);
    } else {
      var t := NewWaitingTicket(c, patients[0], next, now);
      var longer := ledger + [t];
      var rest := patients[1..];
      BookInTurnStep(ledger, c, since, now, patients);
      SessionNumberAfterBooking(ledger, c, since, t);
      BookInTurnNumberAt(longer, c, since, now, rest, next + 1, j);
    }
  }

  /** The first booking of a run gets the session's next number. */
  lemma BookInTurnFirst(ledger: seq<Ticket>, c: ClinicId, since: Time, now: Time, patients: seq<PatientId>, next: int)
    requires SessionNumber(ledger, c, since).number == next
    requires patients != []
    ensures |ledger| < |BookInTurn(ledger, c, since, now, patients)|
    ensures BookInTurn(ledger, c, since, now, patients)[|ledger|].number == next
  {
    var t := NewWaitingTicket(c, patients[0], next, now);
    var longer := ledger + [t];
    BookInTurnStep(ledger, c, since, now, patients);
    BookInTurnKeepsPrefix(longer, c, since, now, patients[1..]);
    var r := BookInTurn(longer, c, since, now, patients[1..]);
    assert r[|ledger|] == r[..|longer|][|ledger|] == t;
  }

  lemma BookInTurnFrom(ledger: seq<Ticket>, c: ClinicId, since: Time, now: Time, patients: seq<PatientId>, next: int)
    requires now >= since
    requires SessionNumber(ledger, c, since).number == next
    ensures |BookInTurn(ledger, c, since, now, patients)| == |ledger| + |patients|
    ensures forall j :: |ledger| <= j < |ledger| + |patients| ==>
              BookInTurn(ledger, c, since, now, patients)[j].number == j - |ledger| + next
  {
    BookInTurnKeepsPrefix(ledger, c, since, now, patients);
    forall j | |ledger| <= j < |ledger| + |patients|
      ensures BookInTurn(ledger, c, since, now, patients)[j].number == j - |ledger| + next
    {
      BookInTurnNumberAt(ledger, c, since, now, patients, next, j);
    }
  }

  /** The number part of CancelledTopNumberIsReissued: the cancelled ticket does not count. */
  lemma ReissuedNumber(first: Ticket, second: Ticket, c: ClinicId, since: Time)
    requires first == Ticket(first.clinic, None, first.patient, 1, Waiting, since, None, None, None) && first.clinic == c
    requires second.status == Cancelled
    ensures SessionNumber([first, second], c, since).number == 2
  {
    var empty: seq<Ticket> := [];
    CountZero(empty, SessionScope(c, since));
    SessionNumberAfterBooking(empty, c, since, first);
    assert empty + [first] == [first];
    SessionNumberIgnoresCancelled([first], c, since, second);
    assert [first] + [second] == [first, second];
  }

  /** A concrete reissue: ticket 2 was cancelled, so the next booking is numbered 2 again. */
  lemma CancelledTopNumberIsReissued(c: ClinicId, p: PatientId, q: PatientId, since: Time)
    ensures var ledger := [Ticket(c, None, p, 1, Waiting, since, None, None, None),
                           Ticket(c, None, q, 2, Cancelled, since, None, None, Some(since))];
            SessionNumber(ledger, c, since) == Assignment(2, false)
  {
    var first := Ticket(c, None, p, 1, Waiting, since, None, None, None);
    var second := Ticket(c, None, q, 2, Cancelled, since, None, None, Some(since));
    ReissuedNumber(first, second, c, since);
    var scope := SessionScope(c, since);
    CountZero([first, second], scope);
    assert Matches([first, second][0], scope);
  }

  // ---------------------------------------------------------------------------------------------
  // Day numbering (Queue.getNextQueueNumber)

  /** `{clinic: c, doctor: d, bookedAt: {$gte: todayStart}}` of any status; `d` may be null, which
      selects the tickets without a doctor. */
  function DayScope(c: ClinicId, d: Option<DoctorId>, todayStart: Time): Filter {
    Filter(Some(c), Some(d), None, AnyStatus, None, None, None, Some(todayStart))
  }

  function NextQueueNumber(ledger: seq<Ticket>, c: ClinicId, d: Option<DoctorId>, todayStart: Time): (n: int)
    ensures (forall i :: 0 <= i < |ledger| ==> !(ledger[i].clinic == c && ledger[i].doctor == d && ledger[i].bookedAt >= todayStart)) ==> n == 1
    ensures forall i :: 0 <= i < |ledger| && ledger[i].clinic == c && ledger[i].doctor == d && ledger[i].bookedAt >= todayStart ==> ledger[i].number < n
    ensures (exists i :: 0 <= i < |ledger| && ledger[i].clinic == c && ledger[i].doctor == d && ledger[i].bookedAt >= todayStart) ==>
              exists i :: 0 <= i < |ledger| && ledger[i].clinic == c && ledger[i].doctor == d && ledger[i].bookedAt >= todayStart && ledger[i].number + 1 == n
  {
    var n := OnePastMax(ledger, DayScope(c, d, todayStart));
    forall i | 0 <= i < |ledger| { StatusSets(ledger[i].status); }
    assert forall i :: InScope(ledger, DayScope(c, d, todayStart), i) <==>
      0 <= i < |ledger| && ledger[i].clinic == c && ledger[i].doctor == d && ledger[i].bookedAt >= todayStart;
    n
  }

  /** Tickets of another clinic or doctor, or booked before midnight, do not change the result;
      cancelled tickets of the scope do. */
  lemma NextQueueNumberIgnoresOtherScopes(ledger: seq<Ticket>, c: ClinicId, d: Option<DoctorId>, todayStart: Time, t: Ticket)
    requires t.clinic != c || t.doctor != d || t.bookedAt < todayStart
    ensures NextQueueNumber(ledger + [t], c, d, todayStart) == NextQueueNumber(ledger, c, d, todayStart)
  {
    OnePastMaxAppendOutside(ledger, DayScope(c, d, todayStart), t);
  }

  lemma NextQueueNumberCountsCancelled(ledger: seq<Ticket>, c: ClinicId, d: Option<DoctorId>, todayStart: Time, t: Ticket)
    requires t.clinic == c && t.doctor == d && t.bookedAt >= todayStart && t.status == Cancelled
    requires t.number >= NextQueueNumber(ledger, c, d, todayStart)
    ensures NextQueueNumber(ledger + [t], c, d, todayStart) == t.number + 1
  {
    OnePastMaxAppendInside(ledger, DayScope(c, d, todayStart), t);
  }

  /** With non-negative numbers in scope, the result is at least 1. */
  lemma NextQueueNumberPositive(ledger: seq<Ticket>, c: ClinicId, d: Option<DoctorId>, todayStart: Time)
    requires forall i :: 0 <= i < |ledger| && ledger[i].clinic == c && ledger[i].doctor == d ==> ledger[i].number >= 0
    ensures NextQueueNumber(ledger, c, d, todayStart) >= 1
  {
  }
}
