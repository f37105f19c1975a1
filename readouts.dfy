/** The queue snapshots the controllers build: the clinic dashboard, the broadcast snapshot and the
    envelope triggerQueueUpdate wraps around it, the public queue view, and a patient's history list. */
module Readouts {
  import opened Wrappers
  import opened Tickets
  import opened Ledger
  import opened Counters
  import opened Clinics
  import opened Estimates

  datatype Dashboard = Dashboard(current: int, upcoming: seq<TicketId>)

  /** getQueueDashboard: "current" is the lowest waiting number of the clinic (or 0 when nobody
      waits), not the counter; upcoming is the first five waiting tickets in number order, so it
      starts with the ticket reported as current. */
  function QueueDashboard(ledger: seq<Ticket>, c: ClinicId): (d: Dashboard)
    ensures d.upcoming == First(ledger, ClinicStatus(c, Waiting), 5)
    ensures (forall i :: 0 <= i < |ledger| ==> !Matches(ledger[i], ClinicStatus(c, Waiting))) ==> d.current == 0
    ensures (exists i :: 0 <= i < |ledger| && Matches(ledger[i], ClinicStatus(c, Waiting))) ==>
              && (exists i :: 0 <= i < |ledger| && Matches(ledger[i], ClinicStatus(c, Waiting)) && ledger[i].number == d.current)
              && (forall i :: 0 <= i < |ledger| && Matches(ledger[i], ClinicStatus(c, Waiting)) ==> d.current <= ledger[i].number)
    ensures d.upcoming != [] ==> d.current == ledger[d.upcoming[0]].number
  {
    var f := ClinicStatus(c, Waiting);
    var upcoming := First(ledger, f, 5);
    match Lowest(ledger, f)
    case None => Dashboard(0, upcoming)
    case Some(id) =>
      LowestLeadsFirst(ledger, f, id, upcoming);
      Dashboard(ledger[id].number, upcoming)
  }

  /** The head of a sorted limited list carries the lowest number. */
  lemma LowestLeadsFirst(ledger: seq<Ticket>, f: Filter, id: TicketId, upcoming: seq<TicketId>)
    requires upcoming == First(ledger, f, 5)
    requires id < |ledger| && Matches(ledger[id], f)
    requires forall i :: 0 <= i < |ledger| && Matches(ledger[i], f) ==> ledger[id].number <= ledger[i].number
    ensures upcoming != [] && ledger[upcoming[0]].number == ledger[id].number
  {
    CountZero(ledger, f);
    assert Matches(ledger[upcoming[0]], f);
    if id in upcoming {
      var k := IndexOf(upcoming, id);
      if k > 0 {
        assert AtOrBefore(ledger, upcoming[0], upcoming[k]);
      }
    } else {
      assert AtOrBefore(ledger, upcoming[0], id);
    }
  }

  /** The payload broadcast on queue changes; currentNumber is None where it is NaN. */
  datatype Snapshot = Snapshot(
    currentNumber: Option<int>,
    upcoming: seq<TicketId>,
    totalWaiting: nat,
    avgWaitTime: int,
    hasNextPatient: bool)

  /** getQueueDataForBroadcast: the counter is read inside `Promise.all` (NaN when missing), the
      first ten waiting tickets in number order, and the wait estimate, which throws for a missing
      clinic. `avgWaitPerPatient / 60000` gives back the minutes per patient exactly. */
  function BroadcastSnapshot(clinics: seq<Clinic>, counters: Store, ledger: seq<Ticket>, c: ClinicId): (r: Result<Snapshot>)
    ensures r.Err? <==> c >= |clinics|
    ensures r.Ok? ==> r.value.currentNumber == RacedRead(counters, ClinicCounter(c))
    ensures r.Ok? ==> r.value.upcoming == First(ledger, ClinicStatus(c, Waiting), 10)
    ensures r.Ok? ==> r.value.totalWaiting == WaitTime(clinics, counters, ledger, c).value.waitingCount
    ensures r.Ok? ==> r.value.avgWaitTime == AverageFor(clinics, c)
    ensures r.Ok? ==> (r.value.hasNextPatient <==> exists i :: 0 <= i < |ledger| && Matches(ledger[i], ClinicStatus(c, Waiting)))
  {
    match WaitTime(clinics, counters, ledger, c)
    case Err(status, message) => Err(status, message)
    case Ok(estimate) =>
      var upcoming := First(ledger, ClinicStatus(c, Waiting), 10);
      CountZero(ledger, ClinicStatus(c, Waiting));
      Ok(Snapshot(RacedRead(counters, ClinicCounter(c)), upcoming, estimate.waitingCount,
                  estimate.avgWaitPerPatient / MinuteMs, |upcoming| > 0))
  }

  /** What triggerQueueUpdate sends on the clinic's private channel: the queue data plus the clinic's
      status. */
  datatype ClinicBroadcast = ClinicBroadcast(queueData: Snapshot, isOpen: bool, hours: OperatingHours)

  /** triggerQueueUpdate: the caller's data, or a fresh snapshot when none is given, with the clinic's
      status added. Either way a missing clinic makes it throw (the snapshot's wait estimate, or the
      read of `clinic.isOpen`), and the error is rethrown to the caller. */
  function QueueUpdate(clinics: seq<Clinic>, counters: Store, ledger: seq<Ticket>, c: ClinicId, data: Option<Snapshot>): (r: Result<ClinicBroadcast>)
    ensures r.Err? <==> c >= |clinics|
    ensures r.Err? ==> r.status == 500
    ensures r.Ok? ==> r.value.isOpen == clinics[c].isOpen && r.value.hours == clinics[c].hours
    ensures r.Ok? && data.Some? ==> r.value.queueData == data.value
    ensures r.Ok? && data.None? ==> r.value.queueData == BroadcastSnapshot(clinics, counters, ledger, c).value
  {
    var queueData := if data.Some? then Ok(data.value) else BroadcastSnapshot(clinics, counters, ledger, c);
    if queueData.Err? then Err(500, queueData.message)
    else if c >= |clinics| then Err(500, "Cannot read properties of null (reading 'isOpen')")
    else Ok(ClinicBroadcast(queueData.value, clinics[c].isOpen, clinics[c].hours))
  }

  datatype PublicQueue = PublicQueue(current: int, upcoming: seq<TicketId>, avgWaitTime: int, totalWaiting: nat, canCallNext: bool)

  /** getQueueDataForPublic: the counter is read inside `Promise.all`, so a missing key is NaN, and
      counting the waiting tickets above NaN fails Mongoose's cast to Number (500). The clinic's own
      setting is not consulted: the average is the fixed 15 minutes. */
  function PublicQueueData(counters: Store, ledger: seq<Ticket>, c: ClinicId): (r: Result<PublicQueue>)
    ensures r.Err? <==> ClinicCounter(c) !in counters
    ensures r.Err? ==> r.status == 500
    ensures r.Ok? ==> r.value.current == counters[ClinicCounter(c)]
    ensures r.Ok? ==> r.value.upcoming == First(ledger, ClinicStatus(c, Waiting), 10)
    ensures r.Ok? ==> r.value.avgWaitTime == DefaultAverageProcessTime
    ensures r.Ok? ==> r.value.totalWaiting == |MatchSet(ledger, WaitingAbove(c, r.value.current))|
    ensures r.Ok? ==> (r.value.canCallNext <==> r.value.upcoming != [])
  {
    match RacedRead(counters, ClinicCounter(c))
    case None => Err(500, "Cast to Number failed for value \"NaN\"")
    case Some(current) =>
      var upcoming := First(ledger, ClinicStatus(c, Waiting), 10);
      CountIsCardinality(ledger, WaitingAbove(c, current));
      Ok(PublicQueue(current, upcoming, DefaultAverageProcessTime, Count(ledger, WaitingAbove(c, current)), |upcoming| > 0))
  }

  /** The public view and the broadcast snapshot list the same tickets and the same waiting count
      whenever the counter exists; they differ only in the average, which the public view fixes at
      15 minutes. */
  lemma PublicAgreesWithBroadcast(clinics: seq<Clinic>, counters: Store, ledger: seq<Ticket>, c: ClinicId)
    requires c < |clinics| && ClinicCounter(c) in counters
    ensures PublicQueueData(counters, ledger, c).value.upcoming == BroadcastSnapshot(clinics, counters, ledger, c).value.upcoming
    ensures PublicQueueData(counters, ledger, c).value.totalWaiting == BroadcastSnapshot(clinics, counters, ledger, c).value.totalWaiting
    ensures PublicQueueData(counters, ledger, c).value.canCallNext == BroadcastSnapshot(clinics, counters, ledger, c).value.hasNextPatient
    ensures (PublicQueueData(counters, ledger, c).value.avgWaitTime == BroadcastSnapshot(clinics, counters, ledger, c).value.avgWaitTime)
              <==> AverageFor(clinics, c) == DefaultAverageProcessTime
  {
    CountZero(ledger, ClinicStatus(c, Waiting));
  }

  /** getPatientQueueHistory's filter: the patient's served and cancelled tickets, in ledger order. */
  function QueueHistory(ledger: seq<Ticket>, p: PatientId): (r: seq<TicketId>)
    ensures forall i: TicketId :: i in r <==> i < |ledger| && ledger[i].patient == p && ledger[i].status in {Served, Cancelled}
    ensures forall k :: 0 <= k < |r| ==> r[k] < |ledger| && ledger[r[k]].status != Missed && ledger[r[k]].status != Waiting
  {
    Find(ledger, Filter(None, None, Some(p), {Served, Cancelled}, None, None, None, None))
  }
}
