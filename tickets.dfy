/** The queue-entry document of models/Queue.js: its fields, its status enum and its defaults. */
module Tickets {
  import opened Wrappers

  type ClinicId = nat
  type DoctorId = nat
  type PatientId = nat
  /** Tickets live in an append-only ledger; a ticket's id is its position there. */
  type TicketId = nat
  /** A timestamp in milliseconds. */
  type Time = int

  datatype Status = Waiting | Served | Cancelled | Missed

  /** One queue entry. `doctor` is null for clinic-wide tickets. */
  datatype Ticket = Ticket(
    clinic: ClinicId,
    doctor: Option<DoctorId>,
    patient: PatientId,
    number: int,
    status: Status,
    bookedAt: Time,
    servedAt: Option<Time>,
    missedAt: Option<Time>,
    cancelledAt: Option<Time>)

  /** The enum's spelling of each status. */
  function StatusName(s: Status): string {
    match s
    case Waiting => "waiting"
    case Served => "served"
    case Cancelled => "cancelled"
    case Missed => "missed"
  }

  /** The enum validator: a status string is accepted only if it is one of the four names. */
  function ParseStatus(name: string): (r: Option<Status>)
    ensures r.Some? ==> StatusName(r.value) == name
  {
    if name == "waiting" then Some(Waiting)
    else if name == "served" then Some(Served)
    else if name == "cancelled" then Some(Cancelled)
    else if name == "missed" then Some(Missed)
    else None
  }

  lemma ParseStatusName(s: Status)
    ensures ParseStatus(StatusName(s)) == Some(s)
  {
  }

  lemma ParseStatusRejects(name: string)
    requires forall s: Status :: StatusName(s) != name
    ensures ParseStatus(name) == None
  {
    assert StatusName(Waiting) != name && StatusName(Served) != name;
    assert StatusName(Cancelled) != name && StatusName(Missed) != name;
  }

  /** The fields handed to `new Queue({...})`; an absent field is None. */
  datatype TicketFields = TicketFields(
    clinic: Option<ClinicId>,
    doctor: Option<DoctorId>,
    patient: Option<PatientId>,
    number: Option<int>,
    status: Option<string>,
    bookedAt: Option<Time>)

  /** Building and validating a document: clinic, patient and number are required, the status must
      be in the enum and defaults to waiting, the doctor defaults to null, bookedAt to the current time. */
  function CreateTicket(f: TicketFields, now: Time): (r: Result<Ticket>)
    ensures r.Ok? <==> f.clinic.Some? && f.patient.Some? && f.number.Some?
                       && (f.status.None? || ParseStatus(f.status.value).Some?)
    ensures r.Ok? ==> r.value.clinic == f.clinic.value && r.value.patient == f.patient.value
                      && r.value.number == f.number.value && r.value.doctor == f.doctor
    ensures r.Ok? && f.status.None? ==> r.value.status == Waiting
    ensures r.Ok? && f.status.Some? ==> StatusName(r.value.status) == f.status.value
    ensures r.Ok? ==> r.value.bookedAt == f.bookedAt.GetOr(now)
    ensures r.Ok? ==> r.value.servedAt.None? && r.value.missedAt.None? && r.value.cancelledAt.None?
  {
    if f.clinic.None? || f.patient.None? || f.number.None? then
      Err(500, "Queue validation failed")
    else
      var status := if f.status.None? then Some(Waiting) else ParseStatus(f.status.value);
      if status.None? then Err(500, "Queue validation failed")
      else Ok(Ticket(f.clinic.value, f.doctor, f.patient.value, f.number.value, status.value,
                     f.bookedAt.GetOr(now), None, None, None))
  }

  /** The ticket both booking paths create: clinic, patient and number given, status waiting, no doctor. */
  function NewWaitingTicket(clinic: ClinicId, patient: PatientId, number: int, now: Time): Ticket {
    Ticket(clinic, None, patient, number, Waiting, now, None, None, None)
  }

  /** The booking paths' `new Queue({clinic, patient, number, status: 'waiting', bookedAt: new Date()})`
      passes validation and yields exactly that waiting ticket, with no doctor. */
  lemma NewWaitingTicketValid(clinic: ClinicId, patient: PatientId, number: int, now: Time)
    ensures CreateTicket(TicketFields(Some(clinic), None, Some(patient), Some(number), Some("waiting"), Some(now)), now)
            == Ok(NewWaitingTicket(clinic, patient, number, now))
  {
  }
}
