/** The clinic document as the queue engine sees it: its session flag, the operating-hours window,
    the `averageProcessTime || 15` fallback and the key check of updateClinic. */
module Clinics {
  import opened Wrappers
  import opened Tickets

  /** An "HH:MM" setting, already split into hours and minutes. */
  datatype HourMinute = HourMinute(hour: int, minute: int)

  datatype OperatingHours = OperatingHours(opening: HourMinute, closing: HourMinute)

  datatype Clinic = Clinic(
    name: string,
    address: string,
    hours: OperatingHours,
    averageProcessTime: int,
    isOpen: bool,
    lastStatusChange: Time)

  /** Schema defaults: open 09:00 to 17:00, 15 minutes per patient, closed. */
  const DefaultHours := OperatingHours(HourMinute(9, 0), HourMinute(17, 0))
  const DefaultAverageProcessTime := 15
  const DefaultIsOpen := false

  const MinuteMs := 60000
  const HourMs := 3600000

  /** `new Date()` followed by `setHours(h, m, 0, 0)`: today's midnight plus h hours and m minutes
      (out-of-range values carry over, as setHours does). */
  function AtTimeOfDay(todayStart: Time, hm: HourMinute): Time {
    todayStart + hm.hour * HourMs + hm.minute * MinuteMs
  }

  function MinuteOfDay(hm: HourMinute): int {
    hm.hour * 60 + hm.minute
  }

  /** `now >= openingTime && now <= closingTime`; bookNumber rejects exactly the complement,
      `now < openingTime || now > closingTime`. */
  predicate WithinOperatingHours(now: Time, todayStart: Time, hours: OperatingHours) {
    AtTimeOfDay(todayStart, hours.opening) <= now <= AtTimeOfDay(todayStart, hours.closing)
  }

  /** The window in minute-of-day terms: `now` is within hours iff its offset from midnight lies
      between the opening and closing minute, both taken at second 0; in particular a closing time
      earlier than the opening time is never within hours. */
  lemma WithinOperatingHoursMeaning(now: Time, todayStart: Time, hours: OperatingHours)
    ensures WithinOperatingHours(now, todayStart, hours) <==>
              MinuteOfDay(hours.opening) * MinuteMs <= now - todayStart <= MinuteOfDay(hours.closing) * MinuteMs
    ensures MinuteOfDay(hours.closing) < MinuteOfDay(hours.opening) ==> !WithinOperatingHours(now, todayStart, hours)
  {
    assert AtTimeOfDay(todayStart, hours.opening) == todayStart + MinuteOfDay(hours.opening) * MinuteMs;
    assert AtTimeOfDay(todayStart, hours.closing) == todayStart + MinuteOfDay(hours.closing) * MinuteMs;
  }

  /** `now.toTimeString().slice(0, 5)` as an hour and a minute: the minute of today that contains
      `now`. */
  function ClockOf(now: Time, todayStart: Time): (r: HourMinute)
    ensures AtTimeOfDay(todayStart, r) <= now < AtTimeOfDay(todayStart, r) + MinuteMs
    ensures 0 <= r.minute < 60
    ensures todayStart <= now < todayStart + 24 * HourMs ==> 0 <= r.hour < 24
  {
    var offset := now - todayStart;
    HourMinute(offset / HourMs, (offset % HourMs) / MinuteMs)
  }

  /** Within operating hours, the clock reading lies between the opening and closing minute. */
  lemma ClockWithinHours(now: Time, todayStart: Time, hours: OperatingHours)
    requires WithinOperatingHours(now, todayStart, hours)
    ensures MinuteOfDay(hours.opening) <= MinuteOfDay(ClockOf(now, todayStart)) <= MinuteOfDay(hours.closing)
  {
    var clock := ClockOf(now, todayStart);
    WithinOperatingHoursMeaning(now, todayStart, hours);
    assert AtTimeOfDay(todayStart, clock) == todayStart + MinuteOfDay(clock) * MinuteMs;
  }

  /** `averageProcessTime || 15`: a zero setting falls back to the default. */
  function AverageOrDefault(a: int): (r: int)
    ensures r != 0
    ensures a != 0 ==> r == a
    ensures a == 0 ==> r == DefaultAverageProcessTime
  {
    if a != 0 then a else DefaultAverageProcessTime
  }

  /** `clinic?.averageProcessTime || 15`: a missing clinic also falls back to the default. */
  function AverageFor(clinics: seq<Clinic>, c: ClinicId): (r: int)
    ensures r != 0
    ensures c >= |clinics| ==> r == DefaultAverageProcessTime
    ensures c < |clinics| ==> r == AverageOrDefault(clinics[c].averageProcessTime)
  {
    if c < |clinics| then AverageOrDefault(clinics[c].averageProcessTime) else DefaultAverageProcessTime
  }

  // ---------------------------------------------------------------------------------------------
  // Update key checks (updateClinic here, updateDoctor in Doctors)

  /** `updates.every(update => allowedUpdates.includes(update))` */
  function Every(keys: seq<string>, allowed: set<string>): (ok: bool)
    ensures ok <==> forall k :: k in keys ==> k in allowed
    decreases |keys|
  {
    if keys == [] then true
    else
      assert forall k :: k in keys <==> k == keys[0] || k in keys[1..];
      keys[0] in allowed && Every(keys[1..], allowed)
  }

  /** The outcome of a key check: 400 "Invalid updates!" or leave to apply the update. */
  function CheckUpdateKeys(keys: seq<string>, allowed: set<string>): (r: Result<()>)
    ensures r.Ok? <==> forall k :: k in keys ==> k in allowed
    ensures r.Err? ==> r.status == 400 && r.message == "Invalid updates!"
  {
    if Every(keys, allowed) then Ok(()) else Err(400, "Invalid updates!")
  }

  const ClinicUpdatable: set<string> := {"name", "phone", "address", "services", "operatingHours"}

  /** updateClinic accepts an empty body, accepts any body of profile fields, and refuses any body
      that would touch the session state (isOpen, lastStatusChange) or the wait setting. */
  lemma ClinicUpdateKeys(keys: seq<string>)
    ensures CheckUpdateKeys([], ClinicUpdatable).Ok?
    ensures (forall k :: k in keys ==> k in ClinicUpdatable) ==> CheckUpdateKeys(keys, ClinicUpdatable).Ok?
    ensures ("isOpen" in keys || "lastStatusChange" in keys || "averageProcessTime" in keys) ==>
              CheckUpdateKeys(keys, ClinicUpdatable) == Err(400, "Invalid updates!")
  {
  }
}
