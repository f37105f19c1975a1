/** The derived read-outs around one clinic's queue: calculateWaitTime, and the position and wait
    arithmetic shared by getCurrentQueueStatus and the `/queue-status` route. */
module Estimates {
  import opened Wrappers
  import opened Tickets
  import opened Ledger
  import opened Counters
  import opened Clinics
  import opened Patients

  datatype WaitEstimate = WaitEstimate(avgWaitPerPatient: int, totalWaitTime: int, waitingCount: nat)

  /** calculateWaitTime: a missing clinic throws; otherwise the waiting tickets of the clinic above
      the (awaited) counter are counted and priced at the clinic's minutes per patient. */
  function WaitTime(clinics: seq<Clinic>, counters: Store, ledger: seq<Ticket>, c: ClinicId): (r: Result<WaitEstimate>)
    ensures r.Err? <==> c >= |clinics|
    ensures r.Err? ==> r.status == 500 && r.message == "Clinic not found"
    ensures r.Ok? ==> r.value.waitingCount == |MatchSet(ledger, WaitingAbove(c, AwaitedRead(counters, ClinicCounter(c))))|
    ensures r.Ok? ==> r.value.totalWaitTime == r.value.waitingCount * AverageFor(clinics, c)
    ensures r.Ok? ==> r.value.avgWaitPerPatient == AverageFor(clinics, c) * MinuteMs
    ensures r.Ok? ==> (r.value.waitingCount == 0 <==>
              forall i :: 0 <= i < |ledger| ==> !Matches(ledger[i], WaitingAbove(c, AwaitedRead(counters, ClinicCounter(c)))))
  {
    if c >= |clinics| then Err(500, "Clinic not found")
    else
      var avg := AverageOrDefault(clinics[c].averageProcessTime);
      var current := AwaitedRead(counters, ClinicCounter(c));
      var f := WaitingAbove(c, current);
      CountIsCardinality(ledger, f);
      CountZero(ledger, f);
      var waiting := Count(ledger, f);
      Ok(WaitEstimate(avg * MinuteMs, waiting * avg, waiting))
  }

  /** Where a ticket stands against the counter. */
  datatype Standing = Standing(position: int, positionInQueue: nat, estimatedWait: int)

  /** `position = number - current`; positionInQueue is position when positive, else 0; the wait is
      position times the minutes per patient when positive, else 0. So the wait is always the clamped
      position priced at the average, and it is zero exactly when the counter has reached the ticket. */
  function StandingOf(number: int, current: int, avg: int): (s: Standing)
    ensures s.position == number - current
    ensures s.positionInQueue == if number > current then number - current else 0
    ensures s.estimatedWait == s.positionInQueue * avg
    ensures avg != 0 ==> (s.estimatedWait == 0 <==> number <= current)
  {
    var position := number - current;
    Standing(position, if position > 0 then position else 0, if position > 0 then position * avg else 0)
  }

  datatype QueueStatusReply = QueueStatusReply(
    clinicName: Option<string>,
    clinicAddress: Option<string>,
    queueNumber: int,
    currentServing: int,
    positionInQueue: nat,
    estimatedWait: int,
    status: Status)

  /** The ticket a patient's currentQueue points at, if both exist (populate gives null for a
      missing ticket). */
  function ActiveTicket(patients: seq<Patient>, ledger: seq<Ticket>, p: PatientId): (r: Option<TicketId>)
    ensures r.Some? <==> p < |patients| && patients[p].currentQueue.Some? && patients[p].currentQueue.value < |ledger|
    ensures r.Some? ==> r.value == patients[p].currentQueue.value
  {
    if p < |patients| && patients[p].currentQueue.Some? && patients[p].currentQueue.value < |ledger| then
      patients[p].currentQueue
    else None
  }

  /** getCurrentQueueStatus: 404 without an active ticket; a missing clinic only blanks the name and
      address and falls back to 15 minutes per patient. The awaited counter is used. */
  function CurrentQueueStatus(patients: seq<Patient>, ledger: seq<Ticket>, clinics: seq<Clinic>, counters: Store, p: PatientId): (r: Result<QueueStatusReply>)
    ensures r.Err? <==> ActiveTicket(patients, ledger, p).None?
    ensures r.Err? ==> r.status == 404 && r.message == "No active queue found"
    ensures r.Ok? ==>
              var t := ledger[ActiveTicket(patients, ledger, p).value];
              var current := AwaitedRead(counters, ClinicCounter(t.clinic));
              && r.value.queueNumber == t.number && r.value.status == t.status
              && r.value.currentServing == current
              && r.value.positionInQueue == StandingOf(t.number, current, AverageFor(clinics, t.clinic)).positionInQueue
              && r.value.estimatedWait == r.value.positionInQueue * AverageFor(clinics, t.clinic)
              && (r.value.clinicName.Some? <==> t.clinic < |clinics|)
              && r.value.clinicName == (if t.clinic < |clinics| then Some(clinics[t.clinic].name) else None)
              && r.value.clinicAddress == (if t.clinic < |clinics| then Some(clinics[t.clinic].address) else None)
  {
    match ActiveTicket(patients, ledger, p)
    case None => Err(404, "No active queue found")
    case Some(id) =>
      var t := ledger[id];
      var current := AwaitedRead(counters, ClinicCounter(t.clinic));
      var standing := StandingOf(t.number, current, AverageFor(clinics, t.clinic));
      var name := if t.clinic < |clinics| then Some(clinics[t.clinic].name) else None;
      var address := if t.clinic < |clinics| then Some(clinics[t.clinic].address) else None;
      Ok(QueueStatusReply(name, address, t.number, current, standing.positionInQueue, standing.estimatedWait, t.status))
  }

  datatype RouteStatusReply = RouteStatusReply(
    ticket: TicketId,
    number: int,
    status: Status,
    bookedAt: Time,
    currentServing: int,
    positionInQueue: nat,
    estimatedWait: int,
    clinic: ClinicId,
    clinicName: string,
    clinicAddress: string,
    hours: OperatingHours)

  /** The `/queue-status` route: 404 without an active ticket; when the ticket's clinic is gone the
      nested populate yields null and reading its `_id` throws, so 500. It echoes the ticket's number,
      status and booking time unchanged. */
  function RouteQueueStatus(patients: seq<Patient>, ledger: seq<Ticket>, clinics: seq<Clinic>, counters: Store, p: PatientId): (r: Result<RouteStatusReply>)
    ensures ActiveTicket(patients, ledger, p).None? ==> r == Err(404, "No active queue found")
    ensures ActiveTicket(patients, ledger, p).Some? ==>
              (r.Err? <==> ledger[ActiveTicket(patients, ledger, p).value].clinic >= |clinics|)
    ensures r.Err? ==> r.status in {404, 500}
    ensures r.Ok? ==>
              var id := ActiveTicket(patients, ledger, p).value;
              var t := ledger[id];
              var current := AwaitedRead(counters, ClinicCounter(t.clinic));
              && r.value.ticket == id && r.value.number == t.number && r.value.status == t.status
              && r.value.bookedAt == t.bookedAt && r.value.clinic == t.clinic
              && r.value.currentServing == current
              && r.value.positionInQueue == (if t.number > current then t.number - current else 0)
              && r.value.estimatedWait == r.value.positionInQueue * AverageFor(clinics, t.clinic)
              && r.value.clinicName == clinics[t.clinic].name && r.value.clinicAddress == clinics[t.clinic].address
              && r.value.hours == clinics[t.clinic].hours
  {
    match ActiveTicket(patients, ledger, p)
    case None => Err(404, "No active queue found")
    case Some(id) =>
      var t := ledger[id];
      if t.clinic >= |clinics| then Err(500, "Cannot read properties of null (reading '_id')")
      else
        var current := AwaitedRead(counters, ClinicCounter(t.clinic));
        var standing := StandingOf(t.number, current, AverageFor(clinics, t.clinic));
        var cl := clinics[t.clinic];
        Ok(RouteStatusReply(id, t.number, t.status, t.bookedAt, current, standing.positionInQueue,
                            standing.estimatedWait, t.clinic, cl.name, cl.address, cl.hours))
  }

  /** The controller and the route agree on the patient's standing whenever both answer. */
  lemma StatusViewsAgree(patients: seq<Patient>, ledger: seq<Ticket>, clinics: seq<Clinic>, counters: Store, p: PatientId)
    requires RouteQueueStatus(patients, ledger, clinics, counters, p).Ok?
    ensures CurrentQueueStatus(patients, ledger, clinics, counters, p).Ok?
    ensures CurrentQueueStatus(patients, ledger, clinics, counters, p).value.positionInQueue ==
            RouteQueueStatus(patients, ledger, clinics, counters, p).value.positionInQueue
    ensures CurrentQueueStatus(patients, ledger, clinics, counters, p).value.estimatedWait ==
            RouteQueueStatus(patients, ledger, clinics, counters, p).value.estimatedWait
    ensures CurrentQueueStatus(patients, ledger, clinics, counters, p).value.currentServing ==
            RouteQueueStatus(patients, ledger, clinics, counters, p).value.currentServing
  {
  }
}
