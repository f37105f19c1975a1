/** The doctor document and the doctor-side reads: addDoctor's defaults, updateDoctor's key check,
    the name-ordered list of active doctors, and the two views of a doctor's queue. */
module Doctors {
  import opened Wrappers
  import opened Tickets
  import opened Ledger
  import opened Counters
  import opened Clinics

  datatype AvailableHours = AvailableHours(start: string, end: string)

  datatype Doctor = Doctor(
    name: string,
    specialty: string,
    clinic: ClinicId,
    isActive: bool,
    isAvailable: bool,
    consultationFee: int,
    availableDays: seq<string>,
    availableHours: AvailableHours,
    lastStatusChange: Time)

  /** The values the availableDays enum admits. */
  const WeekDays: set<string> := {"Monday", "Tuesday", "Wednesday", "Thursday", "Friday", "Saturday", "Sunday"}
  const DefaultDays: seq<string> := ["Monday", "Tuesday", "Wednesday", "Thursday", "Friday"]
  const DefaultAvailableHours := AvailableHours("09:00", "17:00")

  /** addDoctor: `consultationFee || 0`, `availableDays || [Monday..Friday]` (any array, even an
      empty one, is truthy), `availableHours || {09:00, 17:00}`; the doctor starts active and
      available. Saving fails with 500 when name or specialty is missing or a day is not a week day. */
  function NewDoctor(clinic: ClinicId, name: string, specialty: string, fee: Option<int>,
                     days: Option<seq<string>>, hours: Option<AvailableHours>, now: Time): (r: Result<Doctor>)
    ensures r.Ok? <==> name != "" && specialty != "" && forall day :: day in days.GetOr(DefaultDays) ==> day in WeekDays
    ensures r.Err? ==> r.status == 500
    ensures r.Ok? ==> r.value.clinic == clinic && r.value.name == name && r.value.specialty == specialty
    ensures r.Ok? ==> r.value.isActive && r.value.isAvailable
    ensures r.Ok? ==> r.value.consultationFee == (if fee.Some? then fee.value else 0)
    ensures r.Ok? && days.None? ==> r.value.availableDays == DefaultDays
    ensures r.Ok? && days.Some? ==> r.value.availableDays == days.value
    ensures r.Ok? ==> r.value.availableHours == (if hours.Some? then hours.value else DefaultAvailableHours)
  {
    var chosenDays := days.GetOr(DefaultDays);
    if name == "" || specialty == "" then Err(500, "Doctor validation failed: required field missing")
    else if !Every(chosenDays, WeekDays) then Err(500, "Doctor validation failed: invalid availableDays")
    else
      Ok(Doctor(name, specialty, clinic, true, true,
                if fee.Some? && fee.value != 0 then fee.value else 0,
                chosenDays, hours.GetOr(DefaultAvailableHours), now))
  }

  const DoctorUpdatable: set<string> :=
    {"name", "specialty", "consultationFee", "availableDays", "availableHours", "isActive"}

  /** updateDoctor accepts an empty body and any body of listed fields, and refuses a body that
      touches availability (that goes through toggleDoctorAvailability) or the owning clinic. */
  lemma DoctorUpdateKeys(keys: seq<string>)
    ensures CheckUpdateKeys([], DoctorUpdatable).Ok?
    ensures (forall k :: k in keys ==> k in DoctorUpdatable) ==> CheckUpdateKeys(keys, DoctorUpdatable).Ok?
    ensures ("isAvailable" in keys || "clinic" in keys) ==> CheckUpdateKeys(keys, DoctorUpdatable) == Err(400, "Invalid updates!")
  {
  }

  // ---------------------------------------------------------------------------------------------
  // getDoctors: `Doctor.find({clinic, isActive: true}).sort({name: 1})`

  /** Strict string order, character by character (code-point order, which is also the byte order
      of the stored UTF-8). */
  predicate NameBefore(a: string, b: string)
    decreases |a|
  {
    |b| > 0 && (|a| == 0 || a[0] < b[0] || (a[0] == b[0] && NameBefore(a[1..], b[1..])))
  }

  lemma {:induction false} NameOrderTotal(a: string, b: string)
    ensures a == b || NameBefore(a, b) || NameBefore(b, a)
    decreases |a|
  {
    if |a| > 0 && |b| > 0 && a[0] == b[0] {
      NameOrderTotal(a[1..], b[1..]);
      if a[1..] == b[1..] {
        assert a == [a[0]] + a[1..] && b == [b[0]] + b[1..];
      }
    }
  }

  predicate DoctorIds(doctors: seq<Doctor>, ids: seq<DoctorId>) {
    forall k :: 0 <= k < |ids| ==> ids[k] < |doctors|
  }

  /** Name order, ties in insertion order. */
  predicate ByName(doctors: seq<Doctor>, i: DoctorId, j: DoctorId)
    requires i < |doctors| && j < |doctors|
  {
    NameBefore(doctors[i].name, doctors[j].name) || (doctors[i].name == doctors[j].name && i <= j)
  }

  lemma ByNameTotal(doctors: seq<Doctor>, i: DoctorId, j: DoctorId)
    requires i < |doctors| && j < |doctors|
    ensures ByName(doctors, i, j) || ByName(doctors, j, i)
  {
    NameOrderTotal(doctors[i].name, doctors[j].name);
  }

  predicate SortedByName(doctors: seq<Doctor>, ids: seq<DoctorId>)
    requires DoctorIds(doctors, ids)
  {
    forall k :: 0 <= k < |ids| - 1 ==> ByName(doctors, ids[k], ids[k + 1])
  }

  function InsertByName(doctors: seq<Doctor>, x: DoctorId, ids: seq<DoctorId>): (r: seq<DoctorId>)
    requires x < |doctors| && DoctorIds(doctors, ids)
    ensures DoctorIds(doctors, r) && |r| == |ids| + 1
    ensures multiset(r) == multiset(ids) + multiset{x}
    ensures r[0] == x || (ids != [] && r[0] == ids[0])
    decreases |ids|
  {
    if ids == [] then [x]
    else if ByName(doctors, x, ids[0]) then [x] + ids
    else
      assert ids == [ids[0]] + ids[1..];
      [ids[0]] + InsertByName(doctors, x, ids[1..])
  }

  lemma {:induction false} InsertByNameSorted(doctors: seq<Doctor>, x: DoctorId, ids: seq<DoctorId>)
    requires x < |doctors| && DoctorIds(doctors, ids) && SortedByName(doctors, ids)
    ensures SortedByName(doctors, InsertByName(doctors, x, ids))
    decreases |ids|
  {
    var r := InsertByName(doctors, x, ids);
    if ids == [] {
    } else if ByName(doctors, x, ids[0]) {
      forall k | 0 <= k < |r| - 1 ensures ByName(doctors, r[k], r[k + 1]) {
        if k > 0 {
          assert r[k] == ids[k - 1] && r[k + 1] == ids[k];
        }
      }
    } else {
      ByNameTotal(doctors, x, ids[0]);
      var tail := ids[1..];
      var rest := InsertByName(doctors, x, tail);
      InsertByNameSorted(doctors, x, tail);
      assert r == [ids[0]] + rest;
      forall k | 0 <= k < |r| - 1 ensures ByName(doctors, r[k], r[k + 1]) {
        if k == 0 {
          if rest[0] != x {
            assert rest[0] == ids[1];
          }
        } else {
          assert r[k] == rest[k - 1] && r[k + 1] == rest[k];
        }
      }
    }
  }

  /** The clinic's active doctors, in insertion order. */
  function ActiveOf(doctors: seq<Doctor>, c: ClinicId): (ids: seq<DoctorId>)
    ensures forall k :: 0 <= k < |ids| ==> ids[k] < |doctors| && doctors[ids[k]].clinic == c && doctors[ids[k]].isActive
    ensures forall i :: 0 <= i < |doctors| && doctors[i].clinic == c && doctors[i].isActive ==> i in ids
    ensures forall a, b :: 0 <= a < b < |ids| ==> ids[a] < ids[b]
    decreases |doctors|
  {
    if |doctors| == 0 then []
    else
      var n := |doctors| - 1;
      var prev := ActiveOf(doctors[..n], c);
      assert forall k :: 0 <= k < |prev| ==> doctors[..n][prev[k]] == doctors[prev[k]];
      if doctors[n].clinic == c && doctors[n].isActive then prev + [n] else prev
  }

  function SortByName(doctors: seq<Doctor>, ids: seq<DoctorId>): (r: seq<DoctorId>)
    requires DoctorIds(doctors, ids)
    ensures DoctorIds(doctors, r) && SortedByName(doctors, r)
    ensures multiset(r) == multiset(ids)
    decreases |ids|
  {
    if ids == [] then []
    else
      assert ids == [ids[0]] + ids[1..];
      var rest := SortByName(doctors, ids[1..]);
      InsertByNameSorted(doctors, ids[0], rest);
      InsertByName(doctors, ids[0], rest)
  }

  /** getDoctors: exactly the clinic's active doctors, each once, in name order. */
  function ListDoctors(doctors: seq<Doctor>, c: ClinicId): (r: seq<DoctorId>)
    ensures DoctorIds(doctors, r) && SortedByName(doctors, r)
    ensures forall i :: i in r <==> 0 <= i < |doctors| && doctors[i].clinic == c && doctors[i].isActive
    ensures forall a, b :: 0 <= a < b < |r| ==> r[a] != r[b]
  {
    var active := ActiveOf(doctors, c);
    var r := SortByName(doctors, active);
    PermutationKeepsElements(active, r);
    r
  }

  /** A permutation of a strictly increasing list has the same elements, each once. */
  lemma PermutationKeepsElements(s: seq<DoctorId>, r: seq<DoctorId>)
    requires forall a, b :: 0 <= a < b < |s| ==> s[a] < s[b]
    requires multiset(r) == multiset(s)
    ensures forall i :: i in r <==> i in s
    ensures forall a, b :: 0 <= a < b < |r| ==> r[a] != r[b]
  {
    assert forall i :: i in r <==> i in multiset(r);
    assert forall i :: i in s <==> i in multiset(s);
    DistinctCounts(s);
    CountsDistinct(r);
  }

  /** A list holding each id at most once has no repeated entry. */
  lemma {:induction false} CountsDistinct(r: seq<DoctorId>)
    requires forall x :: multiset(r)[x] <= 1
    ensures forall a, b :: 0 <= a < b < |r| ==> r[a] != r[b]
    decreases |r|
  {
    if r != [] {
      var t := r[1..];
      assert r == [r[0]] + t;
      assert multiset(r) == multiset{r[0]} + multiset(t);
      forall x ensures multiset(t)[x] <= 1 {
        assert multiset(r)[x] == multiset{r[0]}[x] + multiset(t)[x];
      }
      CountsDistinct(t);
      assert multiset(r)[r[0]] == 1 + multiset(t)[r[0]];
      assert multiset(t)[r[0]] == 0;
      forall a, b | 0 <= a < b < |r| ensures r[a] != r[b] {
        assert r[b] == t[b - 1] && r[b] in t;
        if a > 0 {
          assert r[a] == t[a - 1];
        }
      }
    }
  }

  /** A strictly increasing list holds each id at most once. */
  lemma {:induction false} DistinctCounts(s: seq<DoctorId>)
    requires forall a, b :: 0 <= a < b < |s| ==> s[a] < s[b]
    ensures forall x :: multiset(s)[x] <= 1
    decreases |s|
  {
    if s != [] {
      var tail := s[1..];
      DistinctCounts(tail);
      assert s == [s[0]] + tail;
      assert s[0] !in tail;
      assert multiset(tail)[s[0]] == 0;
    }
  }

  // ---------------------------------------------------------------------------------------------
  // A doctor's queue

  /** `waitingPatients.filter(q => q.number > current)`, where current may be NaN (None). */
  function KeepAbove(ledger: seq<Ticket>, ids: seq<TicketId>, current: Option<int>): (r: seq<TicketId>)
    requires AllIds(ledger, ids)
    ensures AllIds(ledger, r) && |r| <= |ids|
    ensures forall i :: i in r ==> i in ids
    ensures forall k :: 0 <= k < |ids| ==> (ids[k] in r <==> GreaterThan(ledger[ids[k]].number, current))
    ensures Sorted(ledger, ids) ==> Sorted(ledger, r)
    ensures current.None? ==> r == []
    decreases |ids|
  {
    if ids == [] then []
    else
      var rest := KeepAbove(ledger, ids[1..], current);
      assert forall k :: 1 <= k < |ids| ==> ids[k] == ids[1..][k - 1];
      if GreaterThan(ledger[ids[0]].number, current) then
        assert Sorted(ledger, ids) ==> forall i :: i in rest ==> AtOrBefore(ledger, ids[0], i);
        [ids[0]] + rest
      else rest
  }

  /** getDoctorQueueStatus's and getDoctorCurrentQueue's common part: the doctor's first ten
      waiting tickets in number order, keeping those above the doctor's counter. */
  function DoctorUpcoming(ledger: seq<Ticket>, d: DoctorId, current: Option<int>): (r: seq<TicketId>)
    ensures AllIds(ledger, r) && Sorted(ledger, r) && |r| <= 10
    ensures forall a :: 0 <= a < |r| ==> Matches(ledger[r[a]], DoctorStatus(d, Waiting)) && GreaterThan(ledger[r[a]].number, current)
    ensures current.None? ==> r == []
    ensures Count(ledger, DoctorStatus(d, Waiting)) < 10 ==>
              forall i: TicketId :: i < |ledger| && Matches(ledger[i], DoctorStatus(d, Waiting)) && GreaterThan(ledger[i].number, current) ==> i in r
    ensures forall i :: i in r <==> i in First(ledger, DoctorStatus(d, Waiting), 10) && GreaterThan(ledger[i].number, current)
    ensures r == KeepAbove(ledger, First(ledger, DoctorStatus(d, Waiting), 10), current)
  {
    var first := First(ledger, DoctorStatus(d, Waiting), 10);
    var r := KeepAbove(ledger, first, current);
    forall a | 0 <= a < |r| ensures Matches(ledger[r[a]], DoctorStatus(d, Waiting)) && GreaterThan(ledger[r[a]].number, current) {
      var k := IndexOf(first, r[a]);
    }
    r
  }

  datatype DoctorQueueStatusReply = DoctorQueueStatusReply(
    name: string, specialty: string, isAvailable: bool,
    currentNumber: Option<int>, upcoming: seq<TicketId>, totalWaiting: nat)

  /** getDoctorQueueStatus: the counter is read inside `Promise.all`, so a missing counter is NaN and
      nothing is above it. An unknown doctor gives 404. */
  function DoctorQueueStatus(doctors: seq<Doctor>, counters: Store, ledger: seq<Ticket>, d: DoctorId): (r: Result<DoctorQueueStatusReply>)
    ensures r.Err? <==> d >= |doctors|
    ensures r.Err? ==> r.status == 404 && r.message == "Doctor not found"
    ensures r.Ok? ==> r.value.currentNumber == RacedRead(counters, DoctorCounter(d))
    ensures r.Ok? ==> r.value.upcoming == DoctorUpcoming(ledger, d, RacedRead(counters, DoctorCounter(d)))
    ensures r.Ok? ==> r.value.totalWaiting == |r.value.upcoming| <= 10
    ensures r.Ok? && DoctorCounter(d) !in counters ==> r.value.upcoming == [] && r.value.totalWaiting == 0
    ensures r.Ok? ==> r.value.name == doctors[d].name && r.value.specialty == doctors[d].specialty
                      && r.value.isAvailable == doctors[d].isAvailable
  {
    if d >= |doctors| then Err(404, "Doctor not found")
    else
      var current := RacedRead(counters, DoctorCounter(d));
      var upcoming := DoctorUpcoming(ledger, d, current);
      var doc := doctors[d];
      Ok(DoctorQueueStatusReply(doc.name, doc.specialty, doc.isAvailable, current, upcoming, |upcoming|))
  }

  datatype DoctorCurrentQueueReply = DoctorCurrentQueueReply(
    name: string, specialty: string, isAvailable: bool,
    currentNumber: int, upcoming: seq<TicketId>, totalWaiting: nat, hasNextPatient: bool)

  /** getDoctorCurrentQueue: the counter is awaited, so a missing counter reads as 0. */
  function DoctorCurrentQueue(doctors: seq<Doctor>, counters: Store, ledger: seq<Ticket>, d: DoctorId): (r: Result<DoctorCurrentQueueReply>)
    ensures r.Err? <==> d >= |doctors|
    ensures r.Err? ==> r.status == 404 && r.message == "Doctor not found"
    ensures r.Ok? ==> r.value.currentNumber == AwaitedRead(counters, DoctorCounter(d))
    ensures r.Ok? ==> r.value.upcoming == DoctorUpcoming(ledger, d, Some(AwaitedRead(counters, DoctorCounter(d))))
    ensures r.Ok? ==> r.value.totalWaiting == |r.value.upcoming| <= 10
    ensures r.Ok? ==> (r.value.hasNextPatient <==> r.value.upcoming != [])
    ensures r.Ok? ==> r.value.name == doctors[d].name && r.value.specialty == doctors[d].specialty
                      && r.value.isAvailable == doctors[d].isAvailable
  {
    if d >= |doctors| then Err(404, "Doctor not found")
    else
      var current := AwaitedRead(counters, DoctorCounter(d));
      var upcoming := DoctorUpcoming(ledger, d, Some(current));
      var doc := doctors[d];
      Ok(DoctorCurrentQueueReply(doc.name, doc.specialty, doc.isAvailable, current, upcoming, |upcoming|, |upcoming| > 0))
  }

  /** The two views agree while the doctor's counter exists; once it is missing the status view
      lists nobody while the current-queue view lists every waiting ticket above 0. */
  lemma DoctorViewsAgree(doctors: seq<Doctor>, counters: Store, ledger: seq<Ticket>, d: DoctorId)
    requires d < |doctors|
    ensures DoctorCounter(d) in counters ==>
              DoctorQueueStatus(doctors, counters, ledger, d).value.upcoming == DoctorCurrentQueue(doctors, counters, ledger, d).value.upcoming
    ensures DoctorCounter(d) !in counters ==>
              DoctorQueueStatus(doctors, counters, ledger, d).value.upcoming == [] &&
              DoctorCurrentQueue(doctors, counters, ledger, d).value.upcoming == DoctorUpcoming(ledger, d, Some(0))
  {
  }
}
