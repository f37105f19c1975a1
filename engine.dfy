/** The queue engine as one sequential object: the clinic, doctor, patient and ticket collections,
    the "now serving" counters and the outbox of push messages, and one method per controller
    operation that writes. Each method states its whole new state in terms of the functions of the
    other modules, whose properties are proved there. */
module Engine {
  import opened Wrappers
  import opened Tickets
  import opened Ledger
  import opened Counters
  import opened Numbering
  import opened Patients
  import opened Clinics
  import opened Doctors
  import opened Estimates
  import opened Progression
  import opened NotificationService
  import opened Resets

  /** bookNumber's refusals, in the order the handler checks them. */
  function BookingCheck(clinics: seq<Clinic>, patients: seq<Patient>, c: ClinicId, p: PatientId, now: Time, todayStart: Time): (r: Result<()>)
    ensures r.Ok? <==> c < |clinics| && clinics[c].isOpen && WithinOperatingHours(now, todayStart, clinics[c].hours)
                       && p < |patients| && patients[p].currentQueue.None?
    ensures (c >= |clinics| || !clinics[c].isOpen) ==> r == Err(400, "Clinic is currently closed")
    ensures c < |clinics| && clinics[c].isOpen && !WithinOperatingHours(now, todayStart, clinics[c].hours) ==>
              r == Err(400, "Clinic is outside operating hours")
    ensures c < |clinics| && clinics[c].isOpen && WithinOperatingHours(now, todayStart, clinics[c].hours) && p >= |patients| ==>
              r == Err(404, "Patient not found")
    ensures (c < |clinics| && clinics[c].isOpen && WithinOperatingHours(now, todayStart, clinics[c].hours)
             && p < |patients| && patients[p].currentQueue.Some?) ==> r == Err(400, "Patient already in queue")
  {
    if c >= |clinics| || !clinics[c].isOpen then Err(400, "Clinic is currently closed")
    else if !WithinOperatingHours(now, todayStart, clinics[c].hours) then Err(400, "Clinic is outside operating hours")
    else if p >= |patients| then Err(404, "Patient not found")
    else if patients[p].currentQueue.Some? then Err(400, "Patient already in queue")
    else Ok(())
  }

  /** The counters after a booking: a first booking of the session resets the clinic counter. */
  function AfterAssignment(counters: Store, c: ClinicId, a: Assignment): (r: Store)
    ensures a.resetsCounter ==> r == counters[ClinicCounter(c) := 0]
    ensures !a.resetsCounter ==> r == counters
  {
    if a.resetsCounter then counters[ClinicCounter(c) := 0] else counters
  }

  predicate Increasing(ids: seq<TicketId>) {
    forall a, b :: 0 <= a < b < |ids| ==> ids[a] < ids[b]
  }

  /** The ledger after the served pass has written the first k listed tickets. */
  ghost predicate ServedUpTo(ledger: seq<Ticket>, led: seq<Ticket>, ids: seq<TicketId>, k: nat, now: Time)
    requires k <= |ids|
  {
    && |led| == |ledger|
    && forall j :: 0 <= j < |ledger| ==> led[j] == (if j in ids[..k] then Serve(ledger[j], now) else ledger[j])
  }

  /** One more served write keeps ServedUpTo; the ticket written was still as fetched. */
  lemma ServeStep(ledger: seq<Ticket>, led: seq<Ticket>, ids: seq<TicketId>, k: nat, now: Time)
    requires AllIds(ledger, ids) && Increasing(ids) && k < |ids| && ServedUpTo(ledger, led, ids, k, now)
    ensures led[ids[k]] == ledger[ids[k]]
    ensures ServedUpTo(ledger, led[ids[k] := Serve(led[ids[k]], now)], ids, k + 1, now)
  {
    var id := ids[k];
    assert ids[..k + 1] == ids[..k] + [id];
    assert id !in ids[..k] by {
      forall a | 0 <= a < k ensures ids[..k][a] != id {
        assert ids[a] < ids[k];
      }
    }
  }

  /** The served pass of updateCurrentNumber: each listed ticket is marked served at `now` and its
      owner released from it, one ticket after the other. */
  method ServePass(ledger: seq<Ticket>, patients: seq<Patient>, ids: seq<TicketId>, now: Time)
    returns (led: seq<Ticket>, pats: seq<Patient>)
    requires AllIds(ledger, ids) && Increasing(ids)
    ensures |led| == |ledger|
    ensures forall j :: 0 <= j < |ledger| ==> led[j] == (if j in ids then Serve(ledger[j], now) else ledger[j])
    ensures forall j :: 0 <= j < |ledger| ==> led[j].patient == ledger[j].patient
    ensures pats == ReleaseAll(patients, ledger, ids)
  {
    led := ledger;
    pats := patients;
    var k := 0;
    assert ids[k..] == ids;
    while k < |ids|
      invariant 0 <= k <= |ids|
      invariant ServedUpTo(ledger, led, ids, k, now)
      invariant ReleaseAll(patients, ledger, ids) == ReleaseAll(pats, ledger, ids[k..])
    {
      var id := ids[k];
      ServeStep(ledger, led, ids, k, now);
      assert ids[k..][1..] == ids[k + 1..];
      pats := Release(pats, ledger[id].patient, id);
      led := led[id := Serve(led[id], now)];
      k := k + 1;
    }
    assert ids[..k] == ids;
  }

  /** The missed pass: each listed ticket is marked missed at `now`; its owner, already released
      from it by the served pass, is released again, which changes nothing. */
  method MissPass(ledger: seq<Ticket>, patients: seq<Patient>, ids: seq<TicketId>, now: Time)
    returns (led: seq<Ticket>, pats: seq<Patient>)
    requires AllIds(ledger, ids) && Increasing(ids)
    requires forall k :: 0 <= k < |ids| && ledger[ids[k]].patient < |patients| ==>
               patients[ledger[ids[k]].patient].currentQueue.None? && ids[k] in patients[ledger[ids[k]].patient].history
    ensures |led| == |ledger|
    ensures forall j :: 0 <= j < |ledger| ==> led[j] == (if j in ids then Miss(ledger[j], now) else ledger[j])
    ensures pats == patients
  {
    led := ledger;
    pats := patients;
    var k := 0;
    while k < |ids|
      invariant 0 <= k <= |ids|
      invariant |led| == |ledger|
      invariant forall j :: 0 <= j < |ledger| ==> led[j] == (if j in ids[..k] then Miss(ledger[j], now) else ledger[j])
      invariant pats == patients
    {
      var id := ids[k];
      assert ids[..k + 1] == ids[..k] + [id];
      assert id !in ids[..k] by {
        forall a | 0 <= a < k ensures ids[..k][a] != id {
          assert ids[a] < ids[k];
        }
      }
      ReleaseAllAgainIsIdentity(pats, ledger, [id]);
      led := led[id := Miss(led[id], now)];
      pats := Release(pats, led[id].patient, id);
      k := k + 1;
    }
    assert ids[..k] == ids;
  }

  /** The two passes together write exactly the advance of the ledger. */
  lemma AdvanceFromPasses(before: seq<Ticket>, c: ClinicId, current: int, n: int, now: Time,
                          served: seq<TicketId>, missed: seq<TicketId>, afterServed: seq<Ticket>, led: seq<Ticket>)
    requires served == Find(before, WaitingAtMost(c, n)) && missed == Find(before, WaitingBetween(c, current, n))
    requires |afterServed| == |before| && |led| == |before|
    requires forall j :: 0 <= j < |before| ==> afterServed[j] == (if j in served then Serve(before[j], now) else before[j])
    requires forall j :: 0 <= j < |before| ==> led[j] == (if j in missed then Miss(afterServed[j], now) else afterServed[j])
    ensures led == Advanced(before, c, current, n, now)
  {
    MissedAreServed(before, c, current, n);
    forall j | 0 <= j < |before| ensures led[j] == AdvanceTicket(before[j], c, current, n, now) {
      if Matches(before[j], WaitingAtMost(c, n)) {
        assert j in served;
      }
    }
  }

  /** After the served pass every owner of a ticket of the missed list is released from it. */
  lemma MissedOwnersReleased(patients: seq<Patient>, before: seq<Ticket>, c: ClinicId, current: int, n: int,
                             served: seq<TicketId>, missed: seq<TicketId>, released: seq<Patient>, afterServed: seq<Ticket>)
    requires served == Find(before, WaitingAtMost(c, n)) && missed == Find(before, WaitingBetween(c, current, n))
    requires released == ReleaseAll(patients, before, served)
    requires |afterServed| == |before|
    requires forall j :: 0 <= j < |before| ==> afterServed[j].patient == before[j].patient
    ensures forall k :: 0 <= k < |missed| && afterServed[missed[k]].patient < |released| ==>
              released[afterServed[missed[k]].patient].currentQueue.None? && missed[k] in released[afterServed[missed[k]].patient].history
  {
    ReleaseAllEffect(patients, before, served);
    MissedAreServed(before, c, current, n);
    forall k | 0 <= k < |missed| && afterServed[missed[k]].patient < |patients|
      ensures Owns(before, served, before[missed[k]].patient)
      ensures missed[k] in released[before[missed[k]].patient].history
    {
      var id := missed[k];
      assert id in served;
      var m :| 0 <= m < |served| && served[m] == id;
    }
  }

  /** Both passes of an advance of clinic c from `current` to n, over the lists fetched before any
      write: the resulting ledger is the advance of the old one, and the patients are those of the
      served pass alone, the missed pass releasing nobody new. */
  method AdvancePasses(before: seq<Ticket>, patients: seq<Patient>, c: ClinicId, current: int, n: int, now: Time)
    returns (led: seq<Ticket>, pats: seq<Patient>)
    ensures led == Advanced(before, c, current, n, now)
    ensures pats == ReleaseAll(patients, before, Find(before, WaitingAtMost(c, n)))
    ensures |pats| == |patients|
    ensures forall q :: 0 <= q < |patients| ==>
              pats[q].phone == patients[q].phone && (pats[q].currentQueue.None? || pats[q].currentQueue == patients[q].currentQueue)
  {
    var served := Find(before, WaitingAtMost(c, n));
    var missed := Find(before, WaitingBetween(c, current, n));
    var afterServed, released := ServePass(before, patients, served, now);
    MissedOwnersReleased(patients, before, c, current, n, served, missed, released, afterServed);
    led, pats := MissPass(afterServed, released, missed, now);
    AdvanceFromPasses(before, c, current, n, now, served, missed, afterServed, led);
    ReleaseAllEffect(patients, before, served);
  }

  /** The outcome of `updateCurrentNumber` on the collections it touches. The counter read with
      `await` is the current number; the action picks the target. An action without a target is
      a 400 that writes nothing. Otherwise the counter is set to the target, the two passes rewrite
      the tickets fetched before any write (`Advanced`), the owners of every waiting ticket numbered
      up to the target are released, and the reply is built from the lists fetched before the writes. */
  ghost function AdvanceResult(ledger: seq<Ticket>, patients: seq<Patient>, counters: Store, clinics: seq<Clinic>,
                               c: ClinicId, action: Action, now: Time): (Result<AdvanceReply>, seq<Ticket>, seq<Patient>, Store)
  {
    var current := AwaitedRead(counters, ClinicCounter(c));
    var target := Target(ledger, c, current, action);
    if target.Err? then (Err(target.status, target.message), ledger, patients, counters)
    else
      (AdvanceResponse(ledger, clinics, counters, c, current, target.value, now),
       Advanced(ledger, c, current, target.value, now),
       ReleaseAll(patients, ledger, Find(ledger, WaitingAtMost(c, target.value))),
       counters[ClinicCounter(c) := target.value])
  }

  /** Patients that keep their phones and either keep or lose their references stay valid. */
  lemma ReleasesKeepValid(patients: seq<Patient>, pats: seq<Patient>, bound: nat)
    requires |pats| == |patients| && PhonesUnique(patients) && ReferencesIn(patients, bound)
    requires forall q :: 0 <= q < |patients| ==>
               pats[q].phone == patients[q].phone && (pats[q].currentQueue.None? || pats[q].currentQueue == patients[q].currentQueue)
    ensures PhonesUnique(pats) && ReferencesIn(pats, bound)
  {
  }

  /** updateCurrentNumber on the collections it touches (see QueueEngine.UpdateCurrentNumber). */
  method Advance(ledger: seq<Ticket>, patients: seq<Patient>, counters: Store, clinics: seq<Clinic>, c: ClinicId, action: Action, now: Time)
    returns (r: Result<AdvanceReply>, led: seq<Ticket>, pats: seq<Patient>, store: Store)
    requires PhonesUnique(patients) && ReferencesIn(patients, |ledger|)
    ensures (r, led, pats, store) == AdvanceResult(ledger, patients, counters, clinics, c, action, now)
    ensures PhonesUnique(pats) && ReferencesIn(pats, |led|)
  {
    var current := AwaitedRead(counters, ClinicCounter(c));
    var target := Target(ledger, c, current, action);
    if target.Err? {
      return Err(target.status, target.message), ledger, patients, counters;
    }
    var n := target.value;
    store := counters[ClinicCounter(c) := n];
    led, pats := AdvancePasses(ledger, patients, c, current, n, now);
    ReleasesKeepValid(patients, pats, |led|);
    r := AdvanceResponse(ledger, clinics, counters, c, current, n, now);
  }

  /** The release loop of resetClinicQueue: one `$unset` / `$addToSet` update per ticket, in order. */
  method ReleaseOwners(patients: seq<Patient>, ledger: seq<Ticket>, ids: seq<TicketId>) returns (pats: seq<Patient>)
    requires AllIds(ledger, ids)
    ensures pats == ReleaseAll(patients, ledger, ids)
  {
    pats := patients;
    var k := 0;
    assert ids[k..] == ids;
    while k < |ids|
      invariant 0 <= k <= |ids|
      invariant ReleaseAll(patients, ledger, ids) == ReleaseAll(pats, ledger, ids[k..])
    {
      assert ids[k..][1..] == ids[k + 1..];
      pats := Release(pats, ledger[ids[k]].patient, ids[k]);
      k := k + 1;
    }
  }

  /** Releases keep the unique phone index and never point a booking reference anywhere new. */
  lemma ReleaseAllKeepsReferences(patients: seq<Patient>, ledger: seq<Ticket>, ids: seq<TicketId>, bound: nat)
    requires AllIds(ledger, ids)
    requires PhonesUnique(patients)
    requires forall q :: 0 <= q < |patients| && patients[q].currentQueue.Some? ==> patients[q].currentQueue.value < bound
    ensures PhonesUnique(ReleaseAll(patients, ledger, ids))
    ensures forall q :: 0 <= q < |patients| && ReleaseAll(patients, ledger, ids)[q].currentQueue.Some? ==>
              ReleaseAll(patients, ledger, ids)[q].currentQueue == patients[q].currentQueue
  {
    ReleaseAllEffect(patients, ledger, ids);
  }

  /** resetClinicQueue: the clinic counter is set to 0, every waiting ticket of the clinic is
      cancelled at `now`, and then the owner of every cancelled ticket of the clinic, old or new,
      is released from it. */
  ghost function QueueReset(counters: Store, ledger: seq<Ticket>, patients: seq<Patient>, c: ClinicId, now: Time)
    : (Store, seq<Ticket>, seq<Patient>)
  {
    var led := CancelMatching(ledger, ClinicStatus(c, Waiting), now);
    (counters[ClinicCounter(c) := 0], led, ReleaseCancelled(patients, led, c))
  }

  /** resetClinicQueue on the collections it touches. */
  method Reset(counters: Store, ledger: seq<Ticket>, patients: seq<Patient>, c: ClinicId, now: Time)
    returns (store: Store, led: seq<Ticket>, pats: seq<Patient>)
    requires PhonesUnique(patients) && ReferencesIn(patients, |ledger|)
    ensures (store, led, pats) == QueueReset(counters, ledger, patients, c, now)
    ensures PhonesUnique(pats) && ReferencesIn(pats, |led|)
  {
    store := counters[ClinicCounter(c) := 0];
    led := CancelMatching(ledger, ClinicStatus(c, Waiting), now);
    var ids := Find(led, ClinicStatus(c, Cancelled));
    ReleaseAllKeepsReferences(patients, led, ids, |led|);
    pats := ReleaseOwners(patients, led, ids);
  }

  /** After a reset the clinic has no waiting ticket, its counter reads 0, tickets of other clinics
      are untouched, and no owner of a ticket of the clinic that was waiting or cancelled still holds
      a booking reference. */
  lemma ResetMeaning(counters: Store, ledger: seq<Ticket>, patients: seq<Patient>, c: ClinicId, now: Time,
                     counters': Store, ledger': seq<Ticket>, patients': seq<Patient>)
    requires (counters', ledger', patients') == QueueReset(counters, ledger, patients, c, now)
    ensures Count(ledger', ClinicStatus(c, Waiting)) == 0
    ensures AwaitedRead(counters', ClinicCounter(c)) == 0
    ensures |ledger'| == |ledger| && forall i :: 0 <= i < |ledger| && ledger[i].clinic != c ==> ledger'[i] == ledger[i]
    ensures forall i :: (0 <= i < |ledger| && ledger[i].clinic == c && (ledger[i].status == Waiting || ledger[i].status == Cancelled)
                         && ledger[i].patient < |patients|) ==> patients'[ledger[i].patient].currentQueue.None?
  {
    ClinicCancelEffect(ledger, c, now);
    var ids := Find(ledger', ClinicStatus(c, Cancelled));
    ReleaseAllEffect(patients, ledger', ids);
    forall i | 0 <= i < |ledger| && ledger[i].clinic == c && (ledger[i].status == Waiting || ledger[i].status == Cancelled)
                && ledger[i].patient < |patients|
      ensures patients'[ledger[i].patient].currentQueue.None?
    {
      assert Matches(ledger'[i], ClinicStatus(c, Cancelled));
      assert i in ids;
      var k :| 0 <= k < |ids| && ids[k] == i;
      assert Owns(ledger', ids, ledger[i].patient);
    }
  }

  /** Every booking reference names a ticket below `bound`. */
  ghost predicate ReferencesIn(patients: seq<Patient>, bound: nat) {
    forall q :: 0 <= q < |patients| && patients[q].currentQueue.Some? ==> patients[q].currentQueue.value < bound
  }

  /** A patient with a phone not on file keeps the phone index unique. */
  lemma AddPatientKeepsUnique(patients: seq<Patient>, p: Patient, bound: nat)
    requires PhonesUnique(patients) && FindByPhone(patients, p.phone).None?
    requires ReferencesIn(patients, bound) && p.currentQueue.None?
    ensures PhonesUnique(patients + [p]) && ReferencesIn(patients + [p], bound)
  {
    var longer := patients + [p];
    forall i, j | 0 <= i < j < |longer| ensures longer[i].phone != longer[j].phone {
      if j == |patients| {
        assert longer[i] == patients[i];
      } else {
        assert longer[i] == patients[i] && longer[j] == patients[j];
      }
    }
    forall q | 0 <= q < |longer| && longer[q].currentQueue.Some? ensures longer[q].currentQueue.value < bound {
      assert q < |patients| && longer[q] == patients[q];
    }
  }

  /** Pointing one patient at a ticket below `bound` keeps the phones and the references valid. */
  lemma PointAtKeepsValid(patients: seq<Patient>, q: PatientId, id: TicketId, bound: nat)
    requires PhonesUnique(patients) && ReferencesIn(patients, bound) && q < |patients| && id < bound
    ensures PhonesUnique(patients[q := patients[q].(currentQueue := Some(id))])
    ensures ReferencesIn(patients[q := patients[q].(currentQueue := Some(id))], bound)
  {
  }

  lemma ReferencesGrow(patients: seq<Patient>, bound: nat, bound': nat)
    requires ReferencesIn(patients, bound) && bound <= bound'
    ensures ReferencesIn(patients, bound')
  {
  }

  /** The patient registerPatientAndAddToQueue books: the one holding the phone, or else a new one
      if the schema accepts it. */
  method FindOrCreatePatient(patients: seq<Patient>, name: string, phone: string, bound: nat)
    returns (r: Result<PatientId>, pats: seq<Patient>)
    requires PhonesUnique(patients) && ReferencesIn(patients, bound)
    ensures FindByPhone(patients, phone).Some? ==> r == Ok(FindByPhone(patients, phone).value) && pats == patients
    ensures FindByPhone(patients, phone).None? && CreatePatient(name, phone).Err? ==>
              r == Err(CreatePatient(name, phone).status, CreatePatient(name, phone).message) && pats == patients
    ensures FindByPhone(patients, phone).None? && CreatePatient(name, phone).Ok? ==>
              r == Ok(|patients|) && pats == patients + [CreatePatient(name, phone).value]
    ensures r.Ok? ==> r.value < |pats|
    ensures PhonesUnique(pats) && ReferencesIn(pats, bound)
  {
    var found := FindByPhone(patients, phone);
    if found.Some? {
      return Ok(found.value), patients;
    }
    var created := CreatePatient(name, phone);
    if created.Err? {
      return Err(created.status, created.message), patients;
    }
    AddPatientKeepsUnique(patients, created.value, bound);
    return Ok(|patients|), patients + [created.value];
  }

  /** bookNumber: after the checks, the session numbering picks the number (resetting the clinic
      counter for the first booking of a session), one waiting ticket is appended, the patient's
      booking reference is set without running the save hook, and the confirmation is pushed. A
      refused booking writes nothing. */
  ghost function BookResult(clinics: seq<Clinic>, patients: seq<Patient>, ledger: seq<Ticket>, counters: Store, outbox: seq<Push>,
                            c: ClinicId, p: PatientId, now: Time, todayStart: Time)
    : (Result<Booking>, seq<Ticket>, seq<Patient>, Store, seq<Push>)
  {
    var check := BookingCheck(clinics, patients, c, p, now, todayStart);
    if check.Err? then (Err(check.status, check.message), ledger, patients, counters, outbox)
    else
      var a := SessionNumber(ledger, c, clinics[c].lastStatusChange);
      var id := |ledger|;
      var led := ledger + [NewWaitingTicket(c, p, a.number, now)];
      var store := AfterAssignment(counters, c, a);
      var pats := patients[p := patients[p].(currentQueue := Some(id))];
      (Ok(Booking(id, led[id], WaitTime(clinics, store, led, c).value.totalWaitTime)), led, pats, store,
       outbox + Notification(pats, p, "Booking Confirmed", NumberBooked(a.number)))
  }

  method Book(clinics: seq<Clinic>, patients: seq<Patient>, ledger: seq<Ticket>, counters: Store, outbox: seq<Push>,
              c: ClinicId, p: PatientId, now: Time, todayStart: Time)
    returns (r: Result<Booking>, led: seq<Ticket>, pats: seq<Patient>, store: Store, sent: seq<Push>)
    requires PhonesUnique(patients) && ReferencesIn(patients, |ledger|)
    ensures (r, led, pats, store, sent) == BookResult(clinics, patients, ledger, counters, outbox, c, p, now, todayStart)
    ensures PhonesUnique(pats) && ReferencesIn(pats, |led|)
  {
    var check := BookingCheck(clinics, patients, c, p, now, todayStart);
    if check.Err? {
      return Err(check.status, check.message), ledger, patients, counters, outbox;
    }
    var a := SessionNumber(ledger, c, clinics[c].lastStatusChange);
    store := AfterAssignment(counters, c, a);
    var id := |ledger|;
    ReferencesGrow(patients, id, id + 1);
    PointAtKeepsValid(patients, p, id, id + 1);
    led := ledger + [NewWaitingTicket(c, p, a.number, now)];
    pats := patients[p := patients[p].(currentQueue := Some(id))];
    var waitTime := WaitTime(clinics, store, led, c);
    sent := outbox + Notification(pats, p, "Booking Confirmed", NumberBooked(a.number));
    r := Ok(Booking(id, led[id], waitTime.value.totalWaitTime));
  }

  /** registerPatientAndAddToQueue: a missing or closed clinic is refused before any write; the
      patient with that phone is reused (its name is not updated) or else created; then the session
      numbering, the counter reset and the ticket are as in bookNumber. There is no operating-hours
      check and no check for an existing booking: the reference is overwritten and the earlier
      ticket keeps waiting. */
  ghost predicate RegisterOutcome(ledger: seq<Ticket>, patients: seq<Patient>, counters: Store, clinics: seq<Clinic>,
                                  name: string, phone: string, c: ClinicId, now: Time,
                                  r: Result<Registration>, led: seq<Ticket>, pats: seq<Patient>, store: Store)
  {
    var found := FindByPhone(patients, phone);
    var created := CreatePatient(name, phone);
    var open := c < |clinics| && clinics[c].isOpen;
    && (!open ==> r == Err(400, "Clinic is currently closed") && led == ledger && pats == patients && store == counters)
    && (open && found.None? && created.Err? ==>
          r == Err(created.status, created.message) && led == ledger && pats == patients && store == counters)
    && (open && (found.Some? || created.Ok?) ==>
          var base := if found.Some? then patients else patients + [created.value];
          var q := if found.Some? then found.value else |patients|;
          var a := SessionNumber(ledger, c, clinics[c].lastStatusChange);
          && q < |base|
          && led == ledger + [NewWaitingTicket(c, q, a.number, now)]
          && store == AfterAssignment(counters, c, a)
          && pats == base[q := base[q].(currentQueue := Some(|ledger|))]
          && r == Ok(Registration(q, base[q].name, base[q].phone, a.number)))
  }

  method Register(ledger: seq<Ticket>, patients: seq<Patient>, counters: Store, clinics: seq<Clinic>,
                  name: string, phone: string, c: ClinicId, now: Time)
    returns (r: Result<Registration>, led: seq<Ticket>, pats: seq<Patient>, store: Store)
    requires PhonesUnique(patients) && ReferencesIn(patients, |ledger|)
    ensures RegisterOutcome(ledger, patients, counters, clinics, name, phone, c, now, r, led, pats, store)
    ensures PhonesUnique(pats) && ReferencesIn(pats, |led|)
  {
    if c >= |clinics| || !clinics[c].isOpen {
      return Err(400, "Clinic is currently closed"), ledger, patients, counters;
    }
    var who, found := FindOrCreatePatient(patients, name, phone, |ledger|);
    if who.Err? {
      return Err(who.status, who.message), ledger, patients, counters;
    }
    var q := who.value;
    var a := SessionNumber(ledger, c, clinics[c].lastStatusChange);
    store := AfterAssignment(counters, c, a);
    var id := |ledger|;
    ReferencesGrow(found, id, id + 1);
    PointAtKeepsValid(found, q, id, id + 1);
    led := ledger + [NewWaitingTicket(c, q, a.number, now)];
    var saved := PreSave(found[q].(currentQueue := Some(id)), true);
    pats := found[q := saved.value];
    r := Ok(Registration(q, pats[q].name, pats[q].phone, a.number));
  }

  lemma ConcatAssociative<T>(a: seq<T>, b: seq<T>, c: seq<T>)
    ensures a + (b + c) == (a + b) + c
  {
  }

  /** The loop of sendQueueUpdate over the selected tickets: the pushes it sends, in order. */
  method QueueUpdateLoop(ledger: seq<Ticket>, patients: seq<Patient>, ids: seq<TicketId>, current: int) returns (sent: seq<Push>)
    requires AllIds(ledger, ids)
    ensures sent == QueueUpdatePushes(ledger, patients, ids, current)
  {
    sent := [];
    var k := 0;
    while k < |ids| && ledger[ids[k]].patient < |patients|
      invariant 0 <= k <= |ids|
      invariant QueueUpdatePushes(ledger, patients, ids, current) == sent + QueueUpdatePushesFrom(ledger, patients, ids, k, current)
    {
      var push := UpdatePush(patients, ledger[ids[k]], current);
      ConcatAssociative(sent, push, QueueUpdatePushesFrom(ledger, patients, ids, k + 1, current));
      sent := sent + push;
      k := k + 1;
    }
  }

  /** The reply of a booking: the new ticket and its estimated wait in minutes. */
  datatype Booking = Booking(id: TicketId, ticket: Ticket, estimatedWait: int)

  /** The reply of registerPatientAndAddToQueue. */
  datatype Registration = Registration(patient: PatientId, name: string, phone: string, queueNumber: int)

  /** The reply of getClinicStatus. */
  datatype ClinicStatusReply = ClinicStatusReply(
    isOpen: bool,
    hours: OperatingHours,
    lastStatusChange: Time,
    name: string,
    currentTime: HourMinute,
    isWithinOperatingHours: bool)

  /** The reply of toggleDoctorAvailability. */
  datatype AvailabilityReply = AvailabilityReply(doctor: DoctorId, name: string, isAvailable: bool, lastStatusChange: Time)

  class QueueEngine {
    var clinics: seq<Clinic>
    var doctors: seq<Doctor>
    var patients: seq<Patient>
    var ledger: seq<Ticket>
    var counters: Store
    var outbox: seq<Push>

    /** The unique index on phone, and every booking reference names an existing ticket. */
    ghost predicate Valid()
      reads this
    {
      && PhonesUnique(patients)
      && ReferencesIn(patients, |ledger|)
    }

    constructor (clinics: seq<Clinic>, doctors: seq<Doctor>)
      ensures Valid()
      ensures this.clinics == clinics && this.doctors == doctors
      ensures patients == [] && ledger == [] && counters == map[] && outbox == []
    {
      this.clinics := clinics;
      this.doctors := doctors;
      patients := [];
      ledger := [];
      counters := map[];
      outbox := [];
    }

    /** bookNumber, on the engine's state (see BookResult). */
    method BookNumber(c: ClinicId, p: PatientId, now: Time, todayStart: Time) returns (r: Result<Booking>)
      requires Valid()
      modifies this
      ensures Valid()
      ensures clinics == old(clinics) && doctors == old(doctors)
      ensures (r, ledger, patients, counters, outbox) ==
                BookResult(old(clinics), old(patients), old(ledger), old(counters), old(outbox), c, p, now, todayStart)
    {
      var led, pats, store, sent;
      r, led, pats, store, sent := Book(clinics, patients, ledger, counters, outbox, c, p, now, todayStart);
      ledger, patients, counters, outbox := led, pats, store, sent;
    }

    /** registerPatient: a phone number already on file is refused; otherwise the schema decides
        whether the new patient is stored. */
    method RegisterPatient(name: string, phone: string) returns (r: Result<PatientId>)
      requires Valid()
      modifies this
      ensures Valid()
      ensures FindByPhone(old(patients), phone).Some? ==> r == Err(400, "Patient already exists") && unchanged(this)
      ensures FindByPhone(old(patients), phone).None? && CreatePatient(name, phone).Err? ==>
                r == Err(CreatePatient(name, phone).status, CreatePatient(name, phone).message) && unchanged(this)
      ensures FindByPhone(old(patients), phone).None? && CreatePatient(name, phone).Ok? ==>
                && r == Ok(|old(patients)|)
                && patients == old(patients) + [CreatePatient(name, phone).value]
                && clinics == old(clinics) && doctors == old(doctors) && ledger == old(ledger)
                && counters == old(counters) && outbox == old(outbox)
    {
      if FindByPhone(patients, phone).Some? {
        return Err(400, "Patient already exists");
      }
      var created := CreatePatient(name, phone);
      if created.Err? {
        return Err(created.status, created.message);
      }
      r := Ok(|patients|);
      patients := patients + [created.value];
    }

    /** cancelNumber: only a waiting ticket of the caller is cancelled (with its time), and the caller
        is released from it; the counter is not touched. Reading the ticket's clinic afterwards fails
        with 500 when the clinic no longer exists, after the writes. */
    method CancelNumber(id: TicketId, p: PatientId, now: Time) returns (r: Result<()>)
      requires Valid()
      modifies this
      ensures Valid()
      ensures !(id < |old(ledger)| && old(ledger)[id].patient == p && old(ledger)[id].status == Waiting) ==>
                r == Err(404, "Queue not found or already processed") && unchanged(this)
      ensures id < |old(ledger)| && old(ledger)[id].patient == p && old(ledger)[id].status == Waiting ==>
                && ledger == old(ledger)[id := old(ledger)[id].(status := Cancelled, cancelledAt := Some(now))]
                && patients == Release(old(patients), p, id)
                && clinics == old(clinics) && doctors == old(doctors) && counters == old(counters) && outbox == old(outbox)
                && (r.Ok? <==> old(ledger)[id].clinic < |clinics|)
                && (r.Err? ==> r.status == 500)
    {
      if !(id < |ledger| && ledger[id].patient == p && ledger[id].status == Waiting) {
        return Err(404, "Queue not found or already processed");
      }
      ledger := ledger[id := ledger[id].(status := Cancelled, cancelledAt := Some(now))];
      patients := Release(patients, p, id);
      if ledger[id].clinic >= |clinics| {
        return Err(500, "Cannot read properties of null (reading '_id')");
      }
      r := Ok(());
    }

    /** cancelBooking: the patient's waiting ticket is cancelled (without a cancellation time), then
        saving the patient with a cleared booking reference is rejected by the pre-save hook, so the
        patient keeps pointing at the cancelled ticket and the request ends with 500. */
    method CancelBooking(p: PatientId) returns (r: Result<()>)
      requires Valid()
      modifies this
      ensures Valid()
      ensures ActiveTicket(old(patients), old(ledger), p).None? ==>
                r == Err(400, "No active booking to cancel") && unchanged(this)
      ensures ActiveTicket(old(patients), old(ledger), p).Some? && old(ledger)[ActiveTicket(old(patients), old(ledger), p).value].status != Waiting ==>
                r == Err(400, "Cannot cancel already processed booking") && unchanged(this)
      ensures ActiveTicket(old(patients), old(ledger), p).Some? && old(ledger)[ActiveTicket(old(patients), old(ledger), p).value].status == Waiting ==>
                var t := ActiveTicket(old(patients), old(ledger), p).value;
                && ledger == old(ledger)[t := old(ledger)[t].(status := Cancelled)]
                && patients == old(patients)
                && clinics == old(clinics) && doctors == old(doctors) && counters == old(counters) && outbox == old(outbox)
                && r == Err(500, "Maximum call stack size exceeded")
    {
      var active := ActiveTicket(patients, ledger, p);
      if active.None? {
        return Err(400, "No active booking to cancel");
      }
      var t := active.value;
      if ledger[t].status != Waiting {
        return Err(400, "Cannot cancel already processed booking");
      }
      ledger := ledger[t := ledger[t].(status := Cancelled)];
      var saved := PreSave(patients[p].(currentQueue := None), true);
      assert saved.Err?;
      r := Err(saved.status, saved.message);
    }

    /** registerPatientAndAddToQueue, on the engine's state (see RegisterOutcome). */
    method RegisterPatientAndAddToQueue(name: string, phone: string, c: ClinicId, now: Time) returns (r: Result<Registration>)
      requires Valid()
      modifies this
      ensures Valid()
      ensures clinics == old(clinics) && doctors == old(doctors) && outbox == old(outbox)
      ensures RegisterOutcome(old(ledger), old(patients), old(counters), clinics, name, phone, c, now, r, ledger, patients, counters)
    {
      r, ledger, patients, counters := Register(ledger, patients, counters, clinics, name, phone, c, now);
    }

    /** updateCurrentNumber: the target comes from the (awaited) counter and the action; a refused
        action writes nothing. Otherwise the counter is set first, both ticket lists are fetched
        before any ticket is written, the served pass runs over every waiting ticket at or below the
        target and the missed pass then over those strictly between the old and the new number. The
        reply is computed last and fails with 500 when the clinic does not exist, after the writes. */
    method UpdateCurrentNumber(c: ClinicId, action: Action, now: Time) returns (r: Result<AdvanceReply>)
      requires Valid()
      modifies this
      ensures Valid()
      ensures clinics == old(clinics) && doctors == old(doctors) && outbox == old(outbox)
      ensures (r, ledger, patients, counters) == AdvanceResult(old(ledger), old(patients), old(counters), clinics, c, action, now)
    {
      var led, pats, store;
      r, led, pats, store := Advance(ledger, patients, counters, clinics, c, action, now);
      ledger, patients, counters := led, pats, store;
    }

    /** resetClinicQueue, for a clinic that exists (both callers have just loaded it). */
    method ResetClinicQueue(c: ClinicId, now: Time)
      requires Valid()
      modifies this
      ensures Valid()
      ensures clinics == old(clinics) && doctors == old(doctors) && outbox == old(outbox)
      ensures (counters, ledger, patients) == QueueReset(old(counters), old(ledger), old(patients), c, now)
    {
      var store, led, pats := Reset(counters, ledger, patients, c, now);
      counters, ledger, patients := store, led, pats;
    }

    /** toggleClinicStatus: the session flag flips and the status time is stamped; opening a clinic
        resets its queue first. */
    method ToggleClinicStatus(c: ClinicId, now: Time) returns (r: Result<bool>)
      requires Valid()
      modifies this
      ensures Valid()
      ensures doctors == old(doctors) && outbox == old(outbox)
      ensures c >= |old(clinics)| ==> r == Err(404, "Clinic not found") && unchanged(this)
      ensures c < |old(clinics)| ==>
                var nowOpen := !old(clinics)[c].isOpen;
                && r == Ok(nowOpen)
                && clinics == old(clinics)[c := old(clinics)[c].(isOpen := nowOpen, lastStatusChange := now)]
                && (nowOpen ==> (counters, ledger, patients) == QueueReset(old(counters), old(ledger), old(patients), c, now))
                && (!nowOpen ==> counters == old(counters) && ledger == old(ledger) && patients == old(patients))
    {
      if c >= |clinics| {
        return Err(404, "Clinic not found");
      }
      var clinic := clinics[c].(isOpen := !clinics[c].isOpen, lastStatusChange := now);
      if clinic.isOpen {
        ResetClinicQueue(c, now);
      }
      clinics := clinics[c := clinic];
      r := Ok(clinic.isOpen);
    }

    /** checkDailyReset. */
    method CheckDailyReset(c: ClinicId, todayStart: Time)
      modifies this
      ensures counters == DailyReset(old(counters), old(ledger), c, todayStart)
      ensures clinics == old(clinics) && doctors == old(doctors) && patients == old(patients)
      ensures ledger == old(ledger) && outbox == old(outbox)
    {
      counters := DailyReset(counters, ledger, c, todayStart);
    }

    /** getClinicStatus: the daily counter check, then an open clinic found outside its hours is
        closed and its queue reset; the reply describes the clinic after that. */
    method GetClinicStatus(c: ClinicId, now: Time, todayStart: Time) returns (r: Result<ClinicStatusReply>)
      requires Valid()
      modifies this
      ensures Valid()
      ensures doctors == old(doctors) && outbox == old(outbox)
      ensures c >= |old(clinics)| ==> r == Err(404, "Clinic not found") && unchanged(this)
      ensures c < |old(clinics)| ==>
                var clinic := old(clinics)[c];
                var within := WithinOperatingHours(now, todayStart, clinic.hours);
                var daily := DailyReset(old(counters), old(ledger), c, todayStart);
                && (clinic.isOpen && !within ==>
                      && clinics == old(clinics)[c := clinic.(isOpen := false, lastStatusChange := now)]
                      && (counters, ledger, patients) == QueueReset(daily, old(ledger), old(patients), c, now))
                && (!(clinic.isOpen && !within) ==>
                      clinics == old(clinics) && counters == daily && ledger == old(ledger) && patients == old(patients))
                && r == Ok(ClinicStatusReply(clinics[c].isOpen, clinic.hours, clinics[c].lastStatusChange, clinic.name,
                                             ClockOf(now, todayStart), within))
      ensures r.Ok? ==> (r.value.isOpen ==> r.value.isWithinOperatingHours)
    {
      if c >= |clinics| {
        return Err(404, "Clinic not found");
      }
      var clinic := clinics[c];
      CheckDailyReset(c, todayStart);
      var within := WithinOperatingHours(now, todayStart, clinic.hours);
      if clinic.isOpen && !within {
        clinic := clinic.(isOpen := false, lastStatusChange := now);
        clinics := clinics[c := clinic];
        ResetClinicQueue(c, now);
      }
      r := Ok(ClinicStatusReply(clinic.isOpen, clinic.hours, clinic.lastStatusChange, clinic.name, ClockOf(now, todayStart), within));
    }

    /** addDoctor: the new doctor is stored under the caller's clinic. */
    method AddDoctor(c: ClinicId, name: string, specialty: string, fee: Option<int>,
                     days: Option<seq<string>>, hours: Option<AvailableHours>, now: Time) returns (r: Result<DoctorId>)
      modifies this
      ensures clinics == old(clinics) && patients == old(patients) && ledger == old(ledger)
      ensures counters == old(counters) && outbox == old(outbox)
      ensures var made := NewDoctor(c, name, specialty, fee, days, hours, now);
              && (made.Err? ==> r == Err(made.status, made.message) && doctors == old(doctors))
              && (made.Ok? ==> r == Ok(|old(doctors)|) && doctors == old(doctors) + [made.value])
    {
      var made := NewDoctor(c, name, specialty, fee, days, hours, now);
      if made.Err? {
        return Err(made.status, made.message);
      }
      r := Ok(|doctors|);
      doctors := doctors + [made.value];
    }

    /** toggleDoctorAvailability: the doctor must belong to the caller's clinic. Making it
        unavailable resets its counter and cancels its waiting tickets; the release loop that
        follows names `Patient`, which the controller never imports, so the request ends in 500
        before any patient is touched (with no cancelled ticket the loop is skipped and the same
        happens at the equally missing `triggerQueueUpdate`). */
    method ToggleDoctorAvailability(c: ClinicId, d: DoctorId, isAvailable: bool, now: Time) returns (r: Result<AvailabilityReply>)
      requires Valid()
      modifies this
      ensures Valid()
      ensures clinics == old(clinics) && patients == old(patients) && outbox == old(outbox)
      ensures (d >= |old(doctors)| || old(doctors)[d].clinic != c) ==> r == Err(404, "Doctor not found") && unchanged(this)
      ensures d < |old(doctors)| && old(doctors)[d].clinic == c ==>
                var doctor := old(doctors)[d].(isAvailable := isAvailable, lastStatusChange := now);
                && doctors == old(doctors)[d := doctor]
                && (isAvailable ==>
                      counters == old(counters) && ledger == old(ledger) && r == Ok(AvailabilityReply(d, doctor.name, true, now)))
                && (!isAvailable ==>
                      && counters == old(counters)[DoctorCounter(d) := 0]
                      && ledger == CancelMatching(old(ledger), DoctorStatus(d, Waiting), now)
                      && r == Err(500, if Find(ledger, DoctorStatus(d, Cancelled)) != [] then "Patient is not defined"
                                       else "triggerQueueUpdate is not defined"))
    {
      if d >= |doctors| || doctors[d].clinic != c {
        return Err(404, "Doctor not found");
      }
      var doctor := doctors[d].(isAvailable := isAvailable, lastStatusChange := now);
      doctors := doctors[d := doctor];
      if isAvailable {
        return Ok(AvailabilityReply(d, doctor.name, doctor.isAvailable, doctor.lastStatusChange));
      }
      counters := counters[DoctorCounter(d) := 0];
      ledger := CancelMatching(ledger, DoctorStatus(d, Waiting), now);
      var cancelled := Find(ledger, DoctorStatus(d, Cancelled));
      if cancelled != [] {
        return Err(500, "Patient is not defined");
      }
      r := Err(500, "triggerQueueUpdate is not defined");
    }

    /** The midnight job: every clinic counter is set to 0 in turn; a write that fails (at clinic
        `failAt`) ends the job, and the later clinics keep their counters. */
    method MidnightReset(failAt: Option<nat>)
      modifies this
      ensures counters == ResetCounters(old(counters), StopAt(|clinics|, failAt))
      ensures clinics == old(clinics) && doctors == old(doctors) && patients == old(patients)
      ensures ledger == old(ledger) && outbox == old(outbox)
    {
      var i := 0;
      while i < |clinics|
        invariant 0 <= i <= |clinics|
        invariant failAt.Some? ==> i <= failAt.value
        invariant counters == ResetCounters(old(counters), i)
        invariant clinics == old(clinics) && doctors == old(doctors) && patients == old(patients)
        invariant ledger == old(ledger) && outbox == old(outbox)
      {
        if failAt == Some(i) {
          break;
        }
        counters := counters[ClinicCounter(i) := 0];
        i := i + 1;
      }
    }

    /** sendQueueUpdate: one "Queue Update" push per waiting ticket within five places of the
        counter, in ledger order; a ticket whose patient is gone ends the loop. */
    method SendQueueUpdate(c: ClinicId, current: int)
      modifies this
      ensures outbox == old(outbox) + QueueUpdatePushes(ledger, patients, Find(ledger, UpcomingWindow(c, current)), current)
      ensures clinics == old(clinics) && doctors == old(doctors) && patients == old(patients)
      ensures ledger == old(ledger) && counters == old(counters)
    {
      var sent := QueueUpdateLoop(ledger, patients, Find(ledger, UpcomingWindow(c, current)), current);
      outbox := outbox + sent;
    }
  }
}
