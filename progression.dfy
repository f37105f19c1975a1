/** Advancing a clinic's counter (updateCurrentNumber): where the counter goes, and what happens to
    the tickets it passes. Tickets waiting at or below the new number are served; those strictly
    between the old and the new number are then marked missed, so they carry both timestamps. */
module Progression {
  import opened Wrappers
  import opened Tickets
  import opened Ledger
  import opened Counters
  import opened Clinics
  import opened Estimates

  /** The request's action: `next`; `specific` with the JavaScript truthiness of the raw
      `req.body.newNumber` and what `parseInt` makes of it (None for NaN); or anything else. */
  datatype Action = Next | Specific(truthy: bool, newNumber: Option<int>) | OtherAction

  /** findNextAvailableNumber: the smallest number of a waiting ticket of the clinic above
      `current`, or null. */
  function NextAvailableNumber(ledger: seq<Ticket>, c: ClinicId, current: int): (r: Option<int>)
    ensures r.None? <==> forall i :: 0 <= i < |ledger| ==> !Matches(ledger[i], WaitingAbove(c, current))
    ensures r.Some? ==> r.value > current
    ensures r.Some? ==> exists i :: 0 <= i < |ledger| && Matches(ledger[i], WaitingAbove(c, current)) && ledger[i].number == r.value
    ensures r.Some? ==> forall i :: 0 <= i < |ledger| && Matches(ledger[i], WaitingAbove(c, current)) ==> r.value <= ledger[i].number
  {
    match Lowest(ledger, WaitingAbove(c, current))
    case None => None
    case Some(id) => Some(ledger[id].number)
  }

  /** The number the counter moves to: `next` takes the next waiting number or fails with "No more
      patients to serve"; `specific` takes the parsed newNumber whenever the raw value is truthy, so a
      raw "0" gives 0 and any number below the counter is accepted; anything else is "Invalid action". */
  function Target(ledger: seq<Ticket>, c: ClinicId, current: int, action: Action): (r: Result<int>)
    ensures action.Next? ==> (r.Ok? <==> NextAvailableNumber(ledger, c, current).Some?)
    ensures action.Next? && r.Ok? ==> r.value == NextAvailableNumber(ledger, c, current).value
    ensures action.Specific? ==> (r.Ok? <==> action.truthy && action.newNumber.Some?)
    ensures action.Specific? && r.Ok? ==> r.value == action.newNumber.value
    ensures action.OtherAction? ==> r.Err?
    ensures r.Err? ==> r.status == 400
    ensures r.Err? ==> r.message == (if action.Next? then "No more patients to serve" else "Invalid action")
  {
    match action
    case Next =>
      (match NextAvailableNumber(ledger, c, current)
       case None => Err(400, "No more patients to serve")
       case Some(n) => Ok(n))
    case Specific(truthy, newNumber) =>
      if truthy && newNumber.Some? then Ok(newNumber.value) else Err(400, "Invalid action")
    case OtherAction => Err(400, "Invalid action")
  }

  /** The served pass's write to one ticket. */
  function Serve(t: Ticket, now: Time): Ticket {
    t.(status := Served, servedAt := Some(now))
  }

  /** The missed pass's write to one ticket. */
  function Miss(t: Ticket, now: Time): Ticket {
    t.(status := Missed, missedAt := Some(now))
  }

  /** One ticket after an advance of clinic c from `current` to n. */
  function AdvanceTicket(t: Ticket, c: ClinicId, current: int, n: int, now: Time): Ticket {
    if Matches(t, WaitingAtMost(c, n)) then
      if Matches(t, WaitingBetween(c, current, n)) then Miss(Serve(t, now), now) else Serve(t, now)
    else t
  }

  /** The whole ledger after the two passes. */
  function Advanced(ledger: seq<Ticket>, c: ClinicId, current: int, n: int, now: Time): (r: seq<Ticket>)
    ensures |r| == |ledger|
    ensures forall i :: 0 <= i < |ledger| ==> r[i] == AdvanceTicket(ledger[i], c, current, n, now)
  {
    seq(|ledger|, i requires 0 <= i < |ledger| => AdvanceTicket(ledger[i], c, current, n, now))
  }

  /** What an advance does, ticket by ticket: a ticket of the clinic waiting at or below n is no
      longer waiting; it ends missed when it lay strictly between the old and the new number and served
      otherwise, and either way it carries the serving time. Every other ticket is untouched, in
      particular those above n, those of other clinics and those not waiting. Only clinic, doctor,
      patient, number and booking time are never changed. */
  lemma AdvanceEffect(ledger: seq<Ticket>, c: ClinicId, current: int, n: int, now: Time, i: int)
    requires 0 <= i < |ledger|
    ensures var t := ledger[i]; var u := Advanced(ledger, c, current, n, now)[i];
            && (t.clinic == c && t.status == Waiting && t.number <= n ==>
                  && u.status == (if current < t.number < n then Missed else Served)
                  && u.servedAt == Some(now)
                  && u.missedAt == (if current < t.number < n then Some(now) else t.missedAt))
            && (!(t.clinic == c && t.status == Waiting && t.number <= n) ==> u == t)
            && u.clinic == t.clinic && u.doctor == t.doctor && u.patient == t.patient
            && u.number == t.number && u.bookedAt == t.bookedAt
  {
  }

  /** After an advance to n no ticket of the clinic waits at or below n, and the waiting tickets
      above n are exactly those of before. */
  lemma AdvanceLeavesOnlyHigherWaiting(ledger: seq<Ticket>, c: ClinicId, current: int, n: int, now: Time)
    ensures forall i :: 0 <= i < |ledger| ==> !Matches(Advanced(ledger, c, current, n, now)[i], WaitingAtMost(c, n))
    ensures forall i :: 0 <= i < |ledger| ==>
              (Matches(Advanced(ledger, c, current, n, now)[i], WaitingAbove(c, n)) <==> Matches(ledger[i], WaitingAbove(c, n)))
    ensures forall i :: 0 <= i < |ledger| && Matches(ledger[i], WaitingAbove(c, n)) ==>
              Advanced(ledger, c, current, n, now)[i] == ledger[i]
  {
  }

  /** Under `next` nothing is missed: the target is the lowest waiting number above the counter, so
      no waiting ticket lies strictly between the two. */
  lemma NextMissesNobody(ledger: seq<Ticket>, c: ClinicId, current: int)
    requires Target(ledger, c, current, Next).Ok?
    ensures Count(ledger, WaitingBetween(c, current, Target(ledger, c, current, Next).value)) == 0
  {
    var n := Target(ledger, c, current, Next).value;
    forall i | 0 <= i < |ledger| ensures !Matches(ledger[i], WaitingBetween(c, current, n)) {
      if Matches(ledger[i], WaitingBetween(c, current, n)) {
        assert Matches(ledger[i], WaitingAbove(c, current));
      }
    }
    CountZero(ledger, WaitingBetween(c, current, n));
  }

  /** Every missed ticket is also one of the served ones, so the missed pass only rewrites tickets the
      served pass already processed, and the reported served count includes the missed ones. */
  lemma MissedAreServed(ledger: seq<Ticket>, c: ClinicId, current: int, n: int)
    ensures forall i :: 0 <= i < |ledger| && Matches(ledger[i], WaitingBetween(c, current, n)) ==> Matches(ledger[i], WaitingAtMost(c, n))
    ensures MatchSet(ledger, WaitingBetween(c, current, n)) <= MatchSet(ledger, WaitingAtMost(c, n))
    ensures Count(ledger, WaitingBetween(c, current, n)) <= Count(ledger, WaitingAtMost(c, n))
  {
    CountIsCardinality(ledger, WaitingBetween(c, current, n));
    CountIsCardinality(ledger, WaitingAtMost(c, n));
    var missed := MatchSet(ledger, WaitingBetween(c, current, n));
    var served := MatchSet(ledger, WaitingAtMost(c, n));
    assert missed <= served;
    assert served == missed + (served - missed);
    assert missed * (served - missed) == {};
    assert |served| == |missed| + |served - missed|;
  }

  datatype AdvanceReply = AdvanceReply(
    currentNumber: int,
    upcoming: seq<TicketId>,
    served: nat,
    missed: nat,
    waitTime: int,
    hasNextPatient: bool)

  /** The reply after the writes: up to five waiting tickets above n in number order, the sizes of the
      two lists fetched before the writes, and the wait estimate against the new counter. The wait
      estimate throws for a missing clinic (500), after the writes. */
  function AdvanceResponse(before: seq<Ticket>, clinics: seq<Clinic>, counters: Store, c: ClinicId, current: int, n: int, now: Time): (r: Result<AdvanceReply>)
    ensures r.Err? <==> c >= |clinics|
    ensures r.Err? ==> r.status == 500
    ensures r.Ok? ==> r.value.currentNumber == n
  {
    var after := Advanced(before, c, current, n, now);
    match WaitTime(clinics, counters[ClinicCounter(c) := n], after, c)
    case Err(status, message) => Err(status, message)
    case Ok(estimate) =>
      var upcoming := First(after, WaitingAbove(c, n), 5);
      Ok(AdvanceReply(n, upcoming, Count(before, WaitingAtMost(c, n)), Count(before, WaitingBetween(c, current, n)),
                      estimate.totalWaitTime, |upcoming| > 0))
  }

  /** What the reply reports: the sizes of the two lists fetched before the writes (no more missed
      than served); the first five tickets waiting above n after the writes, in number order, with
      every other one after them; the wait as the count waiting above n times the clinic's average;
      and hasNextPatient exactly when some ticket of the clinic was waiting above n before the writes. */
  lemma AdvanceResponseMeaning(before: seq<Ticket>, clinics: seq<Clinic>, counters: Store, c: ClinicId, current: int, n: int, now: Time)
    ensures var r := AdvanceResponse(before, clinics, counters, c, current, n, now);
            r.Ok? ==>
              && r.value.served == Count(before, WaitingAtMost(c, n))
              && r.value.missed == Count(before, WaitingBetween(c, current, n))
              && r.value.missed <= r.value.served
              && |r.value.upcoming| <= 5
              && (var after := Advanced(before, c, current, n, now);
                  && r.value.upcoming == First(after, WaitingAbove(c, n), 5)
                  && AllIds(after, r.value.upcoming) && Sorted(after, r.value.upcoming)
                  && (forall a :: 0 <= a < |r.value.upcoming| ==> Matches(after[r.value.upcoming[a]], WaitingAbove(c, n)))
                  && (forall i: TicketId :: i < |after| && Matches(after[i], WaitingAbove(c, n)) && i !in r.value.upcoming ==>
                        |r.value.upcoming| == 5 && forall a :: 0 <= a < 5 ==> AtOrBefore(after, r.value.upcoming[a], i))
                  && r.value.waitTime == |MatchSet(after, WaitingAbove(c, n))| * AverageFor(clinics, c))
              && (r.value.hasNextPatient <==> r.value.upcoming != [])
              && (r.value.hasNextPatient <==> exists i :: 0 <= i < |before| && Matches(before[i], WaitingAbove(c, n)))
  {
    var after := Advanced(before, c, current, n, now);
    MissedAreServed(before, c, current, n);
    AdvanceLeavesOnlyHigherWaiting(before, c, current, n, now);
    CountZero(after, WaitingAbove(c, n));
  }
}
