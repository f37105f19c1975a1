# Intezo clinic queue engine in Dafny

This project models the queue engine of Intezo, a walk-in clinic queue service, and proves
properties of the model.

In Intezo, a patient books a numbered ticket at a clinic. The clinic advances a "now serving"
counter, and patients are told their position and an estimated wait. The backend keeps its state
in three places:
- tickets, patients, clinics and doctors in MongoDB;
- one counter per clinic and per doctor in Redis;
- realtime broadcasts through Pusher.

Here that state is one sequential object, `Engine.QueueEngine`. Its fields are:
- the clinic, doctor, patient and ticket collections, as sequences indexed by id (an id at or
  past the end is "not found");
- the counter store, a map from counter key to integer;
- an outbox of push messages.

The controller operations that write tickets, counters, patients' queue references or the clinic's
open flag are methods of that object. The profile writes listed under "Left out" (clinic and
doctor updates and deletions, the patient profile and token updates) are not. Each method states its whole
new state through functions defined in the other modules, and the properties of those functions
are proved as lemmas beside them. The larger operations (booking, registration, advancing, the
queue reset) are also written as module-level methods over the collections they touch, proved
against a ghost function that gives the new state and reply (`BookResult`, `AdvanceResult`,
`QueueReset`, and the predicate `RegisterOutcome`).

A push message keeps its body as data: a plain text, a booked number, or a place in the queue.
`NotificationService.BodyText` renders it as the template string the source builds, and the
number reads back from the rendered text.

The modules:
- `Tickets`: the queue-entry document (`Queue` model), its status enum and its defaults.
- `Ledger`: the Mongo queries the controllers run, stated over the ticket ledger:
  - a filter as data, with `find` in natural order;
  - `sort('number')`, `limit(k)`, `findOne` sorted up or down, and `countDocuments`.
- `Counters`: the Redis counters. An awaited read `parseInt(await get(k) || 0)` reads a missing
  key as 0. A read inside `Promise.all` (`get(k) || 0` on the promise) reads a missing key as NaN,
  which the model writes as `None`.
- `Numbering`: the number a booking gets. It is one past the highest non-cancelled number booked
  since the clinic's last status change, or 1 with a counter reset. This module also holds the
  day-scoped `getNextQueueNumber`.
- `Patients`: the patient document: the phone validator, the defaults, the set-like history, the
  pre-save hook, and the `$unset currentQueue` / `$addToSet queueHistory` release.
- `Clinics`: the operating-hours window, the `averageProcessTime || 15` fallback and the
  update-key check.
- `Doctors`: addDoctor's defaults, updateDoctor's key check, the name-ordered doctor list, and the
  two views of a doctor's queue.
- `Estimates`: calculateWaitTime, and the patient's position and wait in both the controller and
  the `/queue-status` route.
- `Progression`: updateCurrentNumber's target and its served and missed passes.
- `Readouts`: the clinic dashboard, the broadcast snapshot, the public queue data and the patient
  history filter.
- `Resets`:
  - the bulk cancellations;
  - the release of the owners of cancelled tickets;
  - the daily counter check;
  - the midnight job over every clinic counter.
- `Carrier`: `detectCarrier`.
- `Notification`: `validatePakNumber`, the email-to-SMS mail and the channel choice of
  `notifyPatient`.
- `NotificationService`: `sendNotification`'s guard and the five-ahead `sendQueueUpdate` round.
- `PusherAuth`: the socket id and channel name check of the realtime auth middleware.
- `Engine`: the state object and its operations.

Time is a millisecond timestamp. The current time `now` and today's midnight `todayStart` are
parameters. A failure that the handler reports after some writes have gone through is modelled as
an `Err` result, with those writes already applied to the state.

Where the code differs from what its comments and route names suggest, the model follows the code:
- `cancelBooking` cancels the ticket, but saving the patient then fails (see Patients.PreSave).
  The patient keeps its booking reference, and the request ends in 500.
- Making a doctor unavailable resets the counter and cancels the tickets, then fails with a
  `ReferenceError`. `Patient` and `triggerQueueUpdate` are never imported in
  `doctorController.js`.
- `updateCurrentNumber` fetches both ticket lists before writing. So a missed ticket is written
  twice: first served, then missed. It ends `missed` but carries a serve time, and it is counted
  in `served`.
- The reset after opening a clinic releases the owner of every cancelled ticket of the clinic,
  including tickets cancelled on earlier days. It can clear the reference of a patient who is
  waiting at another clinic.

## Model

| member | source | states |
|---|---|---|
| Tickets.ParseStatus | Intezo-master/backend/models/Queue.js:24-28 | a status string is accepted only as one of the four enum names, and maps to the status of that name |
| Tickets.ParseStatusName | Intezo-master/backend/models/Queue.js:24-28 | every status's enum name is accepted and maps back to that status |
| Tickets.ParseStatusRejects | Intezo-master/backend/models/Queue.js:24-28 | a string that is no status name is refused |
| Tickets.CreateTicket | Intezo-master/backend/models/Queue.js:4-36 | a document validates iff clinic, patient and number are given and the status (if any) is in the enum; status defaults to waiting, doctor to null, bookedAt to now; no serve, miss or cancel time |
| Tickets.NewWaitingTicketValid | Intezo-master/backend/controllers/queueController.js:174-181 | the booking's `new Queue({...})` validates and is a waiting ticket without a doctor |
| Ledger.Find | Intezo-master/backend/controllers/queueController.js:258-269 | `find` lists exactly the matching tickets, each once, in ledger order |
| Ledger.CountZero | Intezo-master/backend/controllers/queueController.js:130-140 | `countDocuments` is 0 iff no ticket matches |
| Ledger.CountIsCardinality | Intezo-master/backend/controllers/queueController.js:79-83 | `countDocuments` equals the number of matching tickets |
| Ledger.SortIds | Intezo-master/backend/controllers/queueController.js:306-311 | `sort('number')` orders a list by number (ties in ledger order) and is a permutation of it |
| Ledger.Ascending | Intezo-master/backend/controllers/queueController.js:306-311 | the sorted find lists every matching ticket once, in number order |
| Ledger.First | Intezo-master/backend/controllers/queueController.js:306-313 | `sort('number').limit(k)` gives min(k, count) matching tickets in order, and any matching ticket left out comes after all of them |
| Ledger.Lowest | Intezo-master/backend/controllers/queueController.js:213-222 | `findOne(f).sort('number')` is None iff nothing matches, else a match with the smallest number |
| Ledger.Highest | Intezo-master/backend/controllers/queueController.js:150-160 | `findOne(f).sort({number: -1})` is None iff nothing matches, else a match with the largest number |
| Counters.ReadsAgreeOnPresentKeys | Intezo-master/backend/controllers/queueController.js:47-77 | the awaited and the `Promise.all` reads agree on a present key; on a missing key one gives 0 and the other NaN |
| Numbering.OnePastMax | Intezo-master/backend/controllers/queueController.js:150-160 | the result is one past the highest number in scope, or 1 when the scope is empty |
| Numbering.OnePastMaxUnique | Intezo-master/backend/controllers/queueController.js:150-160 | that characterisation fixes the number |
| Numbering.OnePastMaxAppendOutside | Intezo-master/backend/controllers/queueController.js:129-134 | a ticket outside the scope does not change the number |
| Numbering.OnePastMaxAppendInside | Intezo-master/backend/controllers/queueController.js:150-160 | a ticket in scope raises the number to at least one past its own |
| Numbering.SessionNumber | Intezo-master/backend/controllers/queueController.js:130-171 | the counter is reset (and the number is 1) iff no non-cancelled ticket of the clinic was booked since the last status change; the number is one past the highest such ticket |
| Numbering.SessionNumberMeaning | Intezo-master/backend/controllers/queueController.js:130-171 | the reset happens exactly without such tickets; otherwise the number exceeds each and equals one of them plus one |
| Numbering.SessionNumberIgnoresCancelled | Intezo-master/backend/controllers/queueController.js:129-134 | a cancelled ticket never changes the next number |
| Numbering.SessionNumberAfterBooking | Intezo-master/backend/controllers/queueController.js:150-181 | after a booking numbered by the policy, the next booking gets that number plus one, without a reset |
| Numbering.FreshSessionNumbersAreConsecutive | Intezo-master/backend/controllers/queueController.js:140-181 | after a session start, k bookings in a row get the numbers 1..k in order |
| Numbering.BookInTurnKeepsPrefix | Intezo-master/backend/controllers/queueController.js:174-181 | bookings only append to the ledger |
| Numbering.BookInTurnFirst | Intezo-master/backend/controllers/queueController.js:150-181 | the first booking of a run is appended right after the ledger with the session's next number |
| Numbering.BookInTurnNumberAt | Intezo-master/backend/controllers/queueController.js:150-181 | once the next number is m, the j-th of a run of bookings carries m plus its offset in the run |
| Numbering.BookInTurnFrom | Intezo-master/backend/controllers/queueController.js:150-181 | once the next number is m, k bookings get m..m+k-1 |
| Numbering.CancelledTopNumberIsReissued | Intezo-master/backend/controllers/queueController.js:129-160 | with tickets 1 and 2 booked and 2 cancelled, the next booking is numbered 2 again |
| Numbering.NextQueueNumber | Intezo-master/backend/models/Queue.js:39-50 | 1 when the (clinic, doctor) pair has no ticket since midnight; otherwise one past the highest such number, cancelled ones included; a null doctor selects the tickets without a doctor |
| Numbering.NextQueueNumberIgnoresOtherScopes | Intezo-master/backend/models/Queue.js:43-49 | tickets of another clinic or doctor, or from before midnight, do not change the result |
| Numbering.NextQueueNumberCountsCancelled | Intezo-master/backend/models/Queue.js:43-49 | a cancelled ticket at the top of the day's scope still raises the next number |
| Numbering.NextQueueNumberPositive | Intezo-master/backend/models/Queue.js:49 | with non-negative numbers in scope the result is at least 1 |
| Patients.ValidPhoneShape | Intezo-master/backend/models/Patient.js:14 | a valid phone has 10 to 13 characters, ends in the ten-character mobile body, and its length fixes its prefix |
| Patients.CreatePatient | Intezo-master/backend/models/Patient.js:3-27 | a patient is created iff name is non-empty and the phone is valid, with null token, null booking and empty history |
| Patients.FindByPhone | Intezo-master/backend/controllers/patientController.js:14 | `findOne({phone})` is None iff no patient has that phone, else the first one with it |
| Patients.AddToSet | Intezo-master/backend/models/Patient.js:37-40 | `$addToSet` leaves the value in the history exactly once, keeps the old entries in order and never adds a duplicate |
| Patients.PreSave | Intezo-master/backend/models/Patient.js:44-63 | the hook lets a save through unchanged unless currentQueue was modified to null, in which case the self-reading virtual overflows the stack and the save fails with 500 |
| Patients.Release | Intezo-master/backend/controllers/queueController.js:277-285 | the owner (if it exists) loses its booking reference and has the ticket in its history; every other patient is unchanged |
| Patients.ReleaseAllSnoc | Intezo-master/backend/controllers/clinicController.js:229-240 | releasing one more ticket after a run of releases is the run over the longer list |
| Patients.ReleaseAllUntouched | Intezo-master/backend/controllers/queueController.js:272-303 | a patient owning none of the released tickets is left exactly as it was |
| Patients.ReleaseAllKeeps | Intezo-master/backend/controllers/queueController.js:272-303 | releases keep every patient's name, phone and token, and histories only grow and stay duplicate-free |
| Patients.ReleaseAllOwner | Intezo-master/backend/controllers/queueController.js:272-303 | an owner of a released ticket ends with no booking reference |
| Patients.ReleaseAllHistory | Intezo-master/backend/controllers/queueController.js:272-303 | each released ticket ends in its owner's history |
| Patients.ReleaseAllEffect | Intezo-master/backend/controllers/queueController.js:272-303 | after releases, owners have no reference and hold each of their tickets in history; non-owners are unchanged; names, phones, tokens are kept and histories only grow, duplicate-free |
| Patients.ReleaseAllAgainIsIdentity | Intezo-master/backend/controllers/queueController.js:288-303 | releasing already released owners changes nothing |
| Clinics.ClockOf | Intezo-master/backend/controllers/clinicController.js:267 | the current time as hour and minute: the minute of today that contains now, with minute below 60 and hour below 24 on the same day |
| Clinics.ClockWithinHours | Intezo-master/backend/controllers/clinicController.js:267-281 | within operating hours, the clock reading lies between the opening and closing minute |
| Clinics.WithinOperatingHoursMeaning | Intezo-master/backend/controllers/clinicController.js:270-281 | within hours iff opening <= now <= closing the same day; a closing time before the opening time is never within hours |
| Clinics.AverageOrDefault | Intezo-master/backend/controllers/queueController.js:76 | `averageProcessTime \|\| 15`: a zero setting gives 15, any other value is kept |
| Clinics.AverageFor | Intezo-master/backend/controllers/patientController.js:78 | a missing clinic also gives 15 |
| Clinics.Every | Intezo-master/backend/controllers/clinicController.js:49 | `every` holds iff each key is allowed |
| Clinics.CheckUpdateKeys | Intezo-master/backend/controllers/clinicController.js:47-53 | the update is refused with 400 "Invalid updates!" iff some key is not allowed |
| Clinics.ClinicUpdateKeys | Intezo-master/backend/controllers/clinicController.js:47-53 | updateClinic accepts an empty body and any body of profile fields, and refuses a body touching the session flag or the average |
| Doctors.NewDoctor | Intezo-master/backend/controllers/doctorController.js:49-58 | the doctor is stored iff name and specialty are given and the days are week days; fee defaults to 0, days to Monday..Friday, hours to 09:00-17:00; it starts active and available |
| Doctors.DoctorUpdateKeys | Intezo-master/backend/controllers/doctorController.js:79-85 | updateDoctor accepts an empty body and any listed fields, and refuses isAvailable and clinic |
| Doctors.NameOrderTotal | Intezo-master/backend/controllers/doctorController.js:12 | any two distinct names are ordered one way or the other |
| Doctors.InsertByNameSorted | Intezo-master/backend/controllers/doctorController.js:12 | inserting into a name-sorted list keeps it sorted |
| Doctors.ActiveOf | Intezo-master/backend/controllers/doctorController.js:10 | exactly the clinic's active doctors, each once |
| Doctors.SortByName | Intezo-master/backend/controllers/doctorController.js:12 | `sort({name: 1})` is sorted by name and a permutation of its input |
| Doctors.ListDoctors | Intezo-master/backend/controllers/doctorController.js:10-12 | getDoctors lists exactly the clinic's active doctors, once each, in name order |
| Doctors.PermutationKeepsElements | Intezo-master/backend/controllers/doctorController.js:10-12 | sorting a duplicate-free list keeps exactly its elements, once each |
| Doctors.KeepAbove | Intezo-master/backend/controllers/doctorController.js:215-216 | `filter(q => q.number > current)` keeps exactly the tickets above the counter, in order, and nothing when the counter is NaN |
| Doctors.DoctorUpcoming | Intezo-master/backend/controllers/doctorController.js:202-216 | the doctor's first ten waiting tickets in number order (`Ledger.First`), keeping exactly those above the counter, in order; all waiting above the counter when fewer than ten wait; nothing when the counter is NaN |
| Doctors.DoctorQueueStatus | Intezo-master/backend/controllers/doctorController.js:195-232 | 404 iff the doctor is missing; otherwise the stored doctor's name, specialty and isAvailable; a missing counter is NaN, so the list is empty and totalWaiting is 0 |
| Doctors.DoctorCurrentQueue | Intezo-master/backend/controllers/doctorController.js:252-288 | 404 iff the doctor is missing; otherwise the stored doctor's name, specialty and isAvailable; a missing counter reads 0; hasNextPatient iff the list is non-empty |
| Doctors.DoctorViewsAgree | Intezo-master/backend/controllers/doctorController.js:199-272 | the two doctor views agree while the counter exists; without it the status view is empty |
| Estimates.WaitTime | Intezo-master/backend/controllers/queueController.js:72-90 | a missing clinic throws; waitingCount is the number of waiting tickets above the awaited counter; totalWaitTime = waitingCount × (average or 15) |
| Estimates.StandingOf | Intezo-master/backend/routes/patientRoutes.js:55-70 | position = number − counter; positionInQueue is position clamped at 0; the wait is positionInQueue × average, 0 exactly when the ticket is not ahead |
| Estimates.ActiveTicket | Intezo-master/backend/controllers/patientController.js:64-68 | a patient has an active ticket iff it exists and its reference names an existing ticket |
| Estimates.CurrentQueueStatus | Intezo-master/backend/controllers/patientController.js:62-95 | 404 "No active queue found" without an active ticket; otherwise the standing against the counter, the ticket's number and status, and the clinic's name and address (both absent when the clinic is missing) |
| Estimates.RouteQueueStatus | Intezo-master/backend/routes/patientRoutes.js:36-83 | 404 without an active ticket; 500 when the ticket's clinic is gone; otherwise the standing, the ticket's number, status and bookedAt unchanged, and the stored clinic's name, address and operating hours |
| Estimates.StatusViewsAgree | Intezo-master/backend/routes/patientRoutes.js:54-70 | whenever the route answers, the controller answers with the same position, wait and counter |
| Progression.NextAvailableNumber | Intezo-master/backend/controllers/queueController.js:231-246 | the smallest number of a waiting ticket of the clinic above the counter, or None iff there is none |
| Progression.Target | Intezo-master/backend/controllers/queueController.js:226-252 | `next` targets that number or fails "No more patients to serve"; `specific` takes the parsed newNumber whenever the raw value is truthy (so a raw "0" moves the counter to 0); anything else is "Invalid action"; errors are 400 |
| Progression.Advanced | Intezo-master/backend/controllers/queueController.js:271-303 | the ledger after the two passes has the same length and each ticket rewritten by the per-ticket rule |
| Progression.AdvanceEffect | Intezo-master/backend/controllers/queueController.js:254-303 | a waiting ticket of the clinic at or below the target becomes served; one strictly between the old counter and the target ends missed with both times; every other ticket is untouched |
| Progression.AdvanceLeavesOnlyHigherWaiting | Intezo-master/backend/controllers/queueController.js:257-303 | after an advance no ticket of the clinic waits at or below the target, and tickets above it keep waiting |
| Progression.NextMissesNobody | Intezo-master/backend/controllers/queueController.js:231-269 | under `next` the missed list is empty |
| Progression.MissedAreServed | Intezo-master/backend/controllers/queueController.js:258-269 | every missed ticket is also in the served list, so missed ≤ served |
| Progression.AdvanceResponse | Intezo-master/backend/controllers/queueController.js:305-335 | 500 iff the clinic is missing (the wait estimate throws after the writes); otherwise the reply's currentNumber is the target; the other fields are stated by `AdvanceResponseMeaning` |
| Progression.AdvanceResponseMeaning | Intezo-master/backend/controllers/queueController.js:305-335 | the served and missed counts are those of the lists fetched before the writes, missed ≤ served; upcoming is `sort('number').limit(5)` of the tickets waiting above the target after the writes (`Ledger.First`), so any ticket left out comes after five listed ones; waitTime is the count waiting above the target times the clinic's average minutes; and hasNextPatient holds iff some ticket of the clinic waited above the target |
| Readouts.QueueDashboard | Intezo-master/backend/controllers/clinicController.js:76-94 | current is the lowest waiting number (0 when nobody waits), not the counter; upcoming is the first five waiting tickets |
| Readouts.LowestLeadsFirst | Intezo-master/backend/controllers/clinicController.js:79-88 | the dashboard's current number is the number at the head of its upcoming list |
| Readouts.BroadcastSnapshot | Intezo-master/backend/controllers/queueController.js:47-69 | the counter as read inside `Promise.all` (NaN when missing), the first ten waiting tickets, the waiting count of calculateWaitTime, and hasNextPatient iff anybody waits |
| Readouts.QueueUpdate | Intezo-master/backend/controllers/queueController.js:10-43 | triggerQueueUpdate carries the caller's data or a fresh snapshot plus the clinic's flag and hours, and fails for a missing clinic |
| Readouts.PublicQueueData | Intezo-master/backend/controllers/queueController.js:343-385 | fails when the counter is missing (NaN); otherwise the counter, the first ten waiting tickets, the default 15 minutes and the waiting count above the counter |
| Readouts.PublicAgreesWithBroadcast | Intezo-master/backend/controllers/queueController.js:343-385 | the public view and the broadcast snapshot list the same tickets and waiting count when the counter exists |
| Readouts.QueueHistory | Intezo-master/backend/controllers/patientController.js:262-265 | exactly the patient's served and cancelled tickets; missed and waiting ones are excluded |
| Carrier.StripPrefix | Intezo-master/backend/services/carrier.js:25 | at most one leading `+92`, `92` or `0` is removed, tried in that order, and only at index 0; a string starting with none of them is unchanged |
| Carrier.RemoveSpaces | Intezo-master/backend/services/carrier.js:25 | a single character is removed iff it is whitespace; the characters left are exactly the non-whitespace ones, a string without whitespace is unchanged |
| Carrier.RemoveSpacesAppend | Intezo-master/backend/services/carrier.js:25 | removal distributes over concatenation, so with the one-character case every whitespace character is dropped and the rest kept in order |
| Carrier.FirstThree | Intezo-master/backend/services/carrier.js:25 | the first three characters, or the whole string when shorter |
| Carrier.Lookup | Intezo-master/backend/services/carrier.js:2-26 | only a listed three-digit code starting with 3 gives a carrier; anything else is 'other' |
| Carrier.DetectCarrier | Intezo-master/backend/services/carrier.js:24-27 | the table entry for the first three characters after normalisation; an input shorter than 3 after normalisation is 'other' |
| Carrier.CarrierOfValidPhone | Intezo-master/backend/services/carrier.js:24-27 | for a number the patient validator accepts, the carrier is decided by the first three digits of its mobile body |
| Carrier.DoubleZeroIsOther | Intezo-master/backend/services/carrier.js:25-26 | "00…" keeps one 0 and is 'other' |
| Carrier.LeadingSpaceBlocksPrefix | Intezo-master/backend/services/carrier.js:25 | a leading space is removed in place of the prefix, so " 0…" keeps its 0 and is 'other' |
| Notification.PakNumberMatchesSchema | Intezo-master/backend/services/notification.js:83-85 | validatePakNumber accepts exactly the strings the patient phone validator accepts |
| Notification.CarrierDomain | Intezo-master/backend/services/notification.js:22-27 | Warid and 'other' have no gateway; the four listed carriers do |
| Notification.Prefix | Intezo-master/backend/services/notification.js:41 | `slice(0, n)` is the first n characters, or the whole string |
| Notification.SmsEmail | Intezo-master/backend/services/notification.js:29-47 | sendSms fails "Unsupported carrier for <phone>" iff the carrier has no gateway; otherwise the mail goes to `<phone>@<gateway>` with the first 160 characters of the message |
| Notification.SmsForValidPhone | Intezo-master/backend/services/notification.js:29-41 | for a valid phone the SMS goes out iff its operator code maps to Jazz, Zong, Ufone or Telenor |
| Notification.NotifyPatient | Intezo-master/backend/services/notification.js:61-75 | an SMS only when the patient has a phone and a supported carrier, a push with the first 100 characters only when it has a token, nothing for a missing patient |
| NotificationService.Notification | Intezo-master/backend/services/notificationService.js:12-32 | sendNotification sends nothing to a missing patient or one without a token, otherwise exactly one push to the token |
| NotificationService.NatText | Intezo-master/backend/services/notificationService.js:52 | `${n}` of a non-negative number is a non-empty string of decimal digits with no leading zero (just "0" for 0) |
| NotificationService.NatTextRoundTrip | Intezo-master/backend/services/notificationService.js:52 | the rendering reads back as the same number |
| NotificationService.WindowPositions | Intezo-master/backend/services/notificationService.js:38-48 | a ticket is selected iff it is a waiting ticket of the clinic one to five places after the counter |
| NotificationService.UpdatePush | Intezo-master/backend/services/notificationService.js:47-53 | one push when the ticket's patient has a token, none otherwise; that push is the "Queue Update" push to the token with the ticket's place after the counter |
| NotificationService.WithNumber | Intezo-master/backend/services/notificationService.js:52 | a template followed by `${n}` starts with the template, and the rest is a canonical digit string (no leading zero) that reads back as n, after a minus sign when n is negative |
| NotificationService.CanonicalIsNatText | Intezo-master/backend/services/notificationService.js:52 | `NatText(n)` is the only digit string without a leading zero whose value is n, so the rendering is exactly JavaScript's |
| NotificationService.CanonicalPositive | Intezo-master/backend/services/notificationService.js:52 | a digit string not starting with 0 has a value of at least 1 |
| NotificationService.ReadsAsIsTemplate | Intezo-master/backend/services/notificationService.js:52 | a text that reads as n after a template is exactly the template, a minus sign for a negative n, and `NatText` of n's size |
| NotificationService.BodyText | Intezo-master/backend/services/notificationService.js:52 | a push body renders as its text, or as its template followed by the number it carries, which reads back and, by `ReadsAsIsTemplate`, is exactly the template string (the booking confirmation is "Your queue number is " followed by the booked number) |
| NotificationService.EachSelectedNotifiedOnce | Intezo-master/backend/services/notificationService.js:47-54 | when every selected patient exists with a token, the j-th push is the "Queue Update" push for the j-th selected ticket, with its place, and there is one per ticket |
| PusherAuth.Pick | Intezo-master/backend/middleware/validatePusherAuth.js:12-13 | the body's value when truthy, otherwise the query's |
| PusherAuth.ValidatePusherAuth | Intezo-master/backend/middleware/validatePusherAuth.js:11-27 | 400 "socket_id is required" first, then "channel_name is required"; on success both values are non-empty and each comes from the body when present there, else from the query |
| Resets.ClinicCancelEffect | Intezo-master/backend/controllers/clinicController.js:204-217 | the clinic's waiting tickets become cancelled at now; every other ticket is untouched; none of the clinic's tickets waits afterwards |
| Resets.DoctorCancelEffect | Intezo-master/backend/controllers/doctorController.js:142-156 | the doctor's waiting tickets become cancelled at now, every other ticket is untouched |
| Resets.ReleaseCancelled | Intezo-master/backend/controllers/clinicController.js:222-240 | the release of every cancelled ticket of the clinic keeps the number of patients |
| Resets.StaleCancellationReleasesActiveBooking | Intezo-master/backend/controllers/clinicController.js:222-240 | a patient with an old cancelled ticket at the clinic loses its reference to a ticket still waiting at another clinic |
| Resets.DailyReset | Intezo-master/backend/controllers/clinicController.js:10-31 | checkDailyReset either leaves the counters or sets the clinic's to 0 |
| Resets.DailyResetMeaning | Intezo-master/backend/controllers/clinicController.js:15-27 | the write happens iff no ticket of the clinic (any status) was booked since midnight and the counter is positive; other counters are kept |
| Resets.ResetCountersEffect | Intezo-master/backend/cron/dailyReset.js:10-16 | after the first n iterations each of those clinics' counters is 0; every other key, doctor counters included, keeps its presence and value |
| Resets.ResetCountersIdempotent | Intezo-master/backend/cron/dailyReset.js:14 | running the job twice leaves the same counters as running it once |
| Resets.StopAt | Intezo-master/backend/cron/dailyReset.js:6-22 | the job covers every clinic, or stops before the clinic whose write fails |
| Engine.BookingCheck | Intezo-master/backend/controllers/queueController.js:99-123 | bookNumber's refusals in order: closed or missing clinic (400), outside hours (400), missing patient (404), already queued (400); it passes iff none applies |
| Engine.AfterAssignment | Intezo-master/backend/controllers/queueController.js:140-147 | the first booking of a session sets the clinic counter to 0; later bookings leave the counters alone |
| Engine.ServePass | Intezo-master/backend/controllers/queueController.js:271-286 | each listed ticket is marked served at now and its owner released, ticket after ticket; the other tickets are untouched |
| Engine.MissPass | Intezo-master/backend/controllers/queueController.js:288-303 | each listed ticket is marked missed at now; owners already released stay as they are |
| Engine.AdvanceFromPasses | Intezo-master/backend/controllers/queueController.js:271-303 | the served pass then the missed pass give the ledger `Progression.Advanced` describes |
| Engine.MissedOwnersReleased | Intezo-master/backend/controllers/queueController.js:288-303 | after the served pass every owner of a missed ticket is already released from it |
| Engine.AdvancePasses | Intezo-master/backend/controllers/queueController.js:257-303 | the two passes give the advanced ledger, release the owners of the served list, and never point a reference anywhere new |
| Engine.Advance | Intezo-master/backend/controllers/queueController.js:224-335 | a refused action changes nothing; otherwise counter := target, ledger advanced, owners released and the reply built, exactly as `Engine.AdvanceResult` computes them; phones stay unique and references stay below the ledger's length |
| Engine.ReleaseOwners | Intezo-master/backend/controllers/clinicController.js:229-240 | the release loop releases each listed ticket's owner in order |
| Engine.ReleaseAllKeepsReferences | Intezo-master/backend/controllers/clinicController.js:229-240 | releases keep phones unique and only ever clear booking references |
| Engine.ResetMeaning | Intezo-master/backend/controllers/clinicController.js:199-250 | after a reset the clinic has no waiting ticket, its counter reads 0, other clinics' tickets are untouched, and no owner of the clinic's waiting or cancelled tickets keeps a reference |
| Engine.QueueUpdateLoop | Intezo-master/backend/services/notificationService.js:47-54 | the loop sends exactly the pushes of the selected tickets, in order, stopping at a missing patient |
| Engine.Book | Intezo-master/backend/controllers/queueController.js:94-211 | the reply and the new ledger, patients, counters and outbox are `Engine.BookResult`'s, and phones stay unique with every reference below the ledger's length |
| Engine.QueueEngine.BookNumber | Intezo-master/backend/controllers/queueController.js:94-211 | the new state and reply are `Engine.BookResult`'s: a refused booking writes nothing; otherwise one waiting ticket with the session number is appended, the counter is reset on a session's first booking, the patient points at the ticket, the confirmation is pushed, and the reply carries the wait estimate |
| Engine.QueueEngine.RegisterPatient | Intezo-master/backend/controllers/patientController.js:9-30 | a phone already on file gives 400 and creates nothing; otherwise the schema decides and the new patient is appended |
| Engine.QueueEngine.CancelNumber | Intezo-master/backend/controllers/queueController.js:409-465 | only a waiting ticket of the caller is cancelled (with its time) and the caller released; the counter is untouched; a missing clinic gives 500 after the writes; otherwise 404 with no change |
| Engine.QueueEngine.CancelBooking | Intezo-master/backend/controllers/patientController.js:98-132 | 400 with no change without an active ticket or for a processed one; otherwise the ticket is cancelled without a time and the patient save fails, leaving the patient unchanged, with 500 |
| Engine.FindOrCreatePatient | Intezo-master/backend/controllers/patientController.js:146-153 | the patient holding the phone is reused unchanged; otherwise the schema decides, and a new patient is appended at the end; the phone index stays unique |
| Engine.Register | Intezo-master/backend/controllers/patientController.js:136-234 | the reply and the new ledger, patients and counters are as `Engine.RegisterOutcome` states, and phones stay unique with every reference below the ledger's length |
| Engine.QueueEngine.RegisterPatientAndAddToQueue | Intezo-master/backend/controllers/patientController.js:136-234 | as `Engine.RegisterOutcome` states: a missing or closed clinic is refused before any write; the patient with that phone is reused or created; numbering as in bookNumber, with no hours check and no already-queued check, so an existing reference is overwritten |
| Engine.QueueEngine.UpdateCurrentNumber | Intezo-master/backend/controllers/queueController.js:224-340 | the state and reply are `Engine.AdvanceResult`'s, with phones unique and references valid afterwards |
| Engine.Reset | Intezo-master/backend/controllers/clinicController.js:199-250 | the new counters, ledger and patients are `Engine.QueueReset`'s, and phones stay unique with every reference below the ledger's length |
| Engine.QueueEngine.ResetClinicQueue | Intezo-master/backend/controllers/clinicController.js:199-250 | counter := 0, the clinic's waiting tickets cancelled, then every cancelled ticket's owner released (`QueueReset`) |
| Engine.QueueEngine.ToggleClinicStatus | Intezo-master/backend/controllers/clinicController.js:164-195 | 404 for a missing clinic; otherwise isOpen flips and lastStatusChange := now, and the queue is reset only when the clinic opens |
| Engine.QueueEngine.CheckDailyReset | Intezo-master/backend/controllers/clinicController.js:10-31 | the counters become `Resets.DailyReset` of the old ones, nothing else changes |
| Engine.QueueEngine.GetClinicStatus | Intezo-master/backend/controllers/clinicController.js:253-304 | the daily check runs; an open clinic outside hours is closed and its queue reset, otherwise nothing else changes; the reply carries the clinic's fields, the clock reading `ClockOf(now)` and the within-hours flag; a reply that says open is always within hours |
| Engine.QueueEngine.AddDoctor | Intezo-master/backend/controllers/doctorController.js:39-74 | the doctor `Doctors.NewDoctor` builds is appended, or its validation error returned with no change |
| Engine.QueueEngine.ToggleDoctorAvailability | Intezo-master/backend/controllers/doctorController.js:126-192 | 404 with no change for a doctor of another clinic or none; otherwise availability and time are set; making it unavailable also zeroes its counter and cancels its waiting tickets, then fails with 500 before any patient is touched |
| Engine.QueueEngine.MidnightReset | Intezo-master/backend/cron/dailyReset.js:6-22 | the counters become `Resets.ResetCounters` over the clinics before the failing one (all of them when nothing fails) |
| Engine.QueueEngine.SendQueueUpdate | Intezo-master/backend/services/notificationService.js:35-58 | the outbox grows by exactly the pushes of the five-ahead window, in ledger order, and nothing else changes |

## Left out

- Mongo, Redis, Pusher, Firebase and nodemailer are not called. Their reads and writes are field
  updates, and the messages sent are entries of the outbox (pushes) or results (mails). A send
  that fails is not modelled, because each send's failure is swallowed.
- Broadcasts (`pusher.trigger`, `broadcastClinicStatus`, `realtime.js`) are not stored. Their
  payloads are the functions of `Readouts`. A Pusher failure, which `triggerQueueUpdate` would
  rethrow as a 500, is not modelled.
- Concurrency: the `Promise.all` interleavings and the read-then-write races between requests are
  not modelled. Each request runs to completion alone, and the served pass runs in list order
  before the missed pass.
- Operating hours are already split into hour and minute. Parsing "HH:MM", and the NaN a malformed
  setting gives, are not modelled.
- Progression.Target: `specific` carries the raw value's truthiness and its `parseInt` result. A
  truthy value that `parseInt` turns into NaN (such as "abc") is refused here with 400 "Invalid
  action"; the source goes on with NaN and writes it to the counter, which holds integers here.
  Mongoose then fails to cast `number: {$lte: NaN}`, so the source answers 500 with the counter
  left holding "NaN".
- Estimates.CurrentQueueStatus: `currentServing` is the raw Redis string in the source (no
  `parseInt`; the number 0 when the key is missing); the model reports it as the integer it holds.
- Clinics.ClockOf: `toTimeString().slice(0, 5)` renders the clock as zero-padded "HH:MM" text in
  the server's time zone; the model gives the hour and minute relative to `todayStart`, not the text.
- Progression.AdvanceResponse: its own contract states only the 500 case and currentNumber; the
  counts, upcoming, waitTime and hasNextPatient are stated by `Progression.AdvanceResponseMeaning`.
- `updateClinic` and `updateDoctor` write the request body into the record with Mongoose's
  validators; only their key checks are modelled (`Clinics.CheckUpdateKeys`,
  `Doctors.DoctorUpdateKeys`), not the field writes, because the body is arbitrary JSON.
- `deleteClinic` and `deleteDoctor` are not modelled. Records are sequence positions here, so a
  deletion would renumber every later id.
- Notification.Prefix: strings are sequences of Unicode code points, so `slice(0, 160)` and
  `slice(0, 100)` keep that many code points. JavaScript counts UTF-16 code units, so a character
  outside the Basic Multilingual Plane (an emoji) counts twice there and once here.
  `Carrier.FirstThree` counts the same way, which no key of the carrier table can show.
- Doctors.SortByName: Mongo leaves the order of equal names unspecified; the model breaks ties by
  insertion order, and `ListDoctors` promises that order.
- Ledger.Ascending: Mongo leaves the order of equal numbers unspecified; the model breaks ties by
  ledger (insertion) order.
- Readouts.QueueHistory: the `sort({servedAt: -1, bookedAt: -1})` of the history is not modelled;
  the list is in ledger order.
- Numbering.SessionNumber: bookNumber's fallback to the highest number ever cannot run, because a
  positive count means `findOne` on the same filter finds a ticket. The model has no such branch.
- Patients.PreSave: the hook's history branch would read the `_originalCurrentQueue` virtual, whose
  getter reads itself. The model takes that as the stack overflow that rejects the save, and does
  not keep history through the hook.
- Patients.CreatePatient: a new patient's default currentQueue is taken as unmodified, so the hook
  lets the first save through.
- Patients.CreatePatient: absent and empty fields are both modelled as the empty string.
- Doctors.NewDoctor: a partial `availableHours` object is taken as given.
- Doctors.NewDoctor: `consultationFee || 0` on an absent fee is modelled as `None`.
- Engine.QueueEngine.ToggleDoctorAvailability: `isAvailable` is a boolean; an absent or
  non-boolean body value is not modelled.
- Engine.QueueEngine.BookNumber: the auth lookup of `req.clinic` / `req.patient` is not modelled;
  the ids are parameters.
- `sendOtp` is not modelled, because its code comes from `Math.random`.
- `getPatientProfile`, `updateFCMToken`, `updatePatientInfo`, `getQueueAnalytics` and
  `debugQueueStatus` are plain reads, writes or reports outside the queue engine.
- Authentication, the route wiring, the connection code and the cron schedule are not modelled;
  only the midnight loop's body is.
