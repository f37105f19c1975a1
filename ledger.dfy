/** The queries the controllers run against the queue collection: a Mongo filter as data,
    `find` in natural (ledger) order, `.sort('number')`, `.limit(k)`, `countDocuments`. */
module Ledger {
  import opened Wrappers
  import opened Tickets

  /** A query filter. Every present component must hold: clinic, doctor and patient equality,
      status membership, `number > numberAbove`, `number <= numberAtMost`, `number < numberBelow`,
      `bookedAt >= bookedSince`. A doctor condition holds the doctor a ticket must have, where
      `None` is Mongo's `doctor: null` and matches the tickets without a doctor. */
  datatype Filter = Filter(
    clinic: Option<ClinicId>,
    doctor: Option<Option<DoctorId>>,
    patient: Option<PatientId>,
    statuses: set<Status>,
    numberAbove: Option<int>,
    numberAtMost: Option<int>,
    numberBelow: Option<int>,
    bookedSince: Option<Time>)

  const AnyStatus: set<Status> := {Waiting, Served, Cancelled, Missed}
  const NotCancelled: set<Status> := {Waiting, Served, Missed}

  lemma StatusSets(s: Status)
    ensures s in AnyStatus
    ensures s in NotCancelled <==> s != Cancelled
  {
  }

  predicate Matches(t: Ticket, f: Filter) {
    && (f.clinic.None? || t.clinic == f.clinic.value)
    && (f.doctor.None? || t.doctor == f.doctor.value)
    && (f.patient.None? || t.patient == f.patient.value)
    && t.status in f.statuses
    && (f.numberAbove.None? || t.number > f.numberAbove.value)
    && (f.numberAtMost.None? || t.number <= f.numberAtMost.value)
    && (f.numberBelow.None? || t.number < f.numberBelow.value)
    && (f.bookedSince.None? || t.bookedAt >= f.bookedSince.value)
  }

  /** `{clinic: c, status: s}` */
  function ClinicStatus(c: ClinicId, s: Status): Filter {
    Filter(Some(c), None, None, {s}, None, None, None, None)
  }

  /** `{clinic: c, status: 'waiting', number: {$gt: n}}` */
  function WaitingAbove(c: ClinicId, n: int): Filter {
    Filter(Some(c), None, None, {Waiting}, Some(n), None, None, None)
  }

  /** `{clinic: c, number: {$lte: n}, status: 'waiting'}` */
  function WaitingAtMost(c: ClinicId, n: int): Filter {
    Filter(Some(c), None, None, {Waiting}, None, Some(n), None, None)
  }

  /** `{clinic: c, number: {$gt: lo, $lt: hi}, status: 'waiting'}` */
  function WaitingBetween(c: ClinicId, lo: int, hi: int): Filter {
    Filter(Some(c), None, None, {Waiting}, Some(lo), None, Some(hi), None)
  }

  /** `{clinic: c, bookedAt: {$gte: since}}`, any status. */
  function BookedSince(c: ClinicId, since: Time): Filter {
    Filter(Some(c), None, None, AnyStatus, None, None, None, Some(since))
  }

  /** `{doctor: d, status: s}` */
  function DoctorStatus(d: DoctorId, s: Status): Filter {
    Filter(None, Some(Some(d)), None, {s}, None, None, None, None)
  }

  predicate AllIds(ledger: seq<Ticket>, ids: seq<TicketId>) {
    forall k :: 0 <= k < |ids| ==> ids[k] < |ledger|
  }

  /** `Queue.find(f)`: the matching ids, in ledger order. */
  function Find(ledger: seq<Ticket>, f: Filter): (ids: seq<TicketId>)
    ensures forall k :: 0 <= k < |ids| ==> ids[k] < |ledger| && Matches(ledger[ids[k]], f)
    ensures forall i :: 0 <= i < |ledger| && Matches(ledger[i], f) ==> i in ids
    ensures forall a, b :: 0 <= a < b < |ids| ==> ids[a] < ids[b]
    decreases |ledger|
  {
    if |ledger| == 0 then []
    else
      var n := |ledger| - 1;
      var prev := Find(ledger[..n], f);
      PrefixMatches(ledger, n, f, prev);
      if Matches(ledger[n], f) then prev + [n] else prev
  }

  /** What Find reports about a prefix of the ledger holds of the ledger itself. */
  lemma PrefixMatches(ledger: seq<Ticket>, n: nat, f: Filter, ids: seq<TicketId>)
    requires n <= |ledger|
    requires forall k :: 0 <= k < |ids| ==> ids[k] < n && Matches(ledger[..n][ids[k]], f)
    requires forall i :: 0 <= i < n && Matches(ledger[..n][i], f) ==> i in ids
    ensures forall k :: 0 <= k < |ids| ==> ids[k] < n && Matches(ledger[ids[k]], f)
    ensures forall i :: 0 <= i < n && Matches(ledger[i], f) ==> i in ids
  {
    forall i | 0 <= i < n ensures ledger[..n][i] == ledger[i] { }
  }

  /** `Queue.countDocuments(f)` */
  function Count(ledger: seq<Ticket>, f: Filter): nat {
    |Find(ledger, f)|
  }

  lemma CountZero(ledger: seq<Ticket>, f: Filter)
    ensures Count(ledger, f) == 0 <==> forall i :: 0 <= i < |ledger| ==> !Matches(ledger[i], f)
  {
    if Count(ledger, f) != 0 {
      var ids := Find(ledger, f);
      assert ids[0] < |ledger| && Matches(ledger[ids[0]], f);
    }
  }

  /** The matching tickets as a set. */
  ghost function MatchSet(ledger: seq<Ticket>, f: Filter): set<TicketId> {
    set i: TicketId | i < |ledger| && Matches(ledger[i], f)
  }

  /** `countDocuments` is the number of matching tickets: `Find` lists each of them exactly once. */
  lemma CountIsCardinality(ledger: seq<Ticket>, f: Filter)
    ensures Count(ledger, f) == |MatchSet(ledger, f)|
  {
    var ids := Find(ledger, f);
    IncreasingCardinality(ids);
    assert Elements(ids) == MatchSet(ledger, f);
  }

  ghost function Elements(s: seq<TicketId>): set<TicketId> {
    set x | x in s
  }

  lemma ElementsCons(s: seq<TicketId>)
    requires s != []
    ensures Elements(s) == Elements(s[1..]) + {s[0]}
  {
    assert s == [s[0]] + s[1..];
    forall x ensures x in s <==> x in s[1..] || x == s[0] {
    }
  }

  lemma AddFresh(a: set<TicketId>, x: TicketId)
    requires x !in a
    ensures |a + {x}| == |a| + 1
  {
    assert a * {x} == {};
  }

  lemma {:induction false} IncreasingCardinality(s: seq<TicketId>)
    requires forall a, b :: 0 <= a < b < |s| ==> s[a] < s[b]
    ensures |Elements(s)| == |s|
    decreases |s|
  {
    if s != [] {
      var t := s[1..];
      forall a, b | 0 <= a < b < |t| ensures t[a] < t[b] {
        assert t[a] == s[a + 1] && t[b] == s[b + 1];
      }
      IncreasingCardinality(t);
      ElementsCons(s);
      forall k | 0 <= k < |t| ensures t[k] != s[0] {
        assert t[k] == s[k + 1];
      }
      AddFresh(Elements(t), s[0]);
    }
  }

  /** Sort order of `.sort('number')`: by number, ties in ledger order. */
  predicate AtOrBefore(ledger: seq<Ticket>, i: TicketId, j: TicketId)
    requires i < |ledger| && j < |ledger|
  {
    ledger[i].number < ledger[j].number || (ledger[i].number == ledger[j].number && i <= j)
  }

  predicate Sorted(ledger: seq<Ticket>, ids: seq<TicketId>)
    requires AllIds(ledger, ids)
  {
    forall a, b :: 0 <= a < b < |ids| ==> AtOrBefore(ledger, ids[a], ids[b])
  }

  function Insert(ledger: seq<Ticket>, x: TicketId, ids: seq<TicketId>): (r: seq<TicketId>)
    requires x < |ledger| && AllIds(ledger, ids)
    ensures AllIds(ledger, r) && |r| == |ids| + 1
    ensures multiset(r) == multiset(ids) + multiset{x}
  {
    if ids == [] then [x]
    else if AtOrBefore(ledger, x, ids[0]) then [x] + ids
    else
      assert ids == [ids[0]] + ids[1..];
      [ids[0]] + Insert(ledger, x, ids[1..])
  }

  /** Every id of `ids` sorts at or after `y`. */
  predicate AllFrom(ledger: seq<Ticket>, y: TicketId, ids: seq<TicketId>)
    requires y < |ledger| && AllIds(ledger, ids)
  {
    forall k :: 0 <= k < |ids| ==> AtOrBefore(ledger, y, ids[k])
  }

  /** Inserting an id that sorts at or after y keeps every id at or after y: the result holds the
      same ids plus x. */
  lemma InsertAllFrom(ledger: seq<Ticket>, y: TicketId, x: TicketId, ids: seq<TicketId>)
    requires y < |ledger| && x < |ledger| && AllIds(ledger, ids)
    requires AtOrBefore(ledger, y, x) && AllFrom(ledger, y, ids)
    ensures AllFrom(ledger, y, Insert(ledger, x, ids))
  {
    var r := Insert(ledger, x, ids);
    forall k | 0 <= k < |r| ensures AtOrBefore(ledger, y, r[k]) {
      assert r[k] in multiset(r);
      if r[k] != x {
        assert r[k] in multiset(ids);
        var j :| 0 <= j < |ids| && ids[j] == r[k];
      }
    }
  }

  lemma {:induction false} InsertSorted(ledger: seq<Ticket>, x: TicketId, ids: seq<TicketId>)
    requires x < |ledger| && AllIds(ledger, ids) && Sorted(ledger, ids)
    ensures Sorted(ledger, Insert(ledger, x, ids))
    decreases |ids|
  {
    var r := Insert(ledger, x, ids);
    if ids == [] {
    } else if AtOrBefore(ledger, x, ids[0]) {
      assert r == [x] + ids;
      forall a, b | 0 <= a < b < |r| ensures AtOrBefore(ledger, r[a], r[b]) {
        if a == 0 && b > 1 {
          assert AtOrBefore(ledger, ids[0], ids[b - 1]);
        } else if a > 0 {
          assert r[a] == ids[a - 1] && r[b] == ids[b - 1];
        }
      }
    } else {
      var head := ids[0];
      var tail := ids[1..];
      var rest := Insert(ledger, x, tail);
      assert r == [head] + rest;
      assert Sorted(ledger, tail) by {
        forall a, b | 0 <= a < b < |tail| ensures AtOrBefore(ledger, tail[a], tail[b]) {
          assert tail[a] == ids[a + 1] && tail[b] == ids[b + 1];
        }
      }
      InsertSorted(ledger, x, tail);
      assert AllFrom(ledger, head, tail) by {
        forall k | 0 <= k < |tail| ensures AtOrBefore(ledger, head, tail[k]) {
          assert tail[k] == ids[k + 1];
        }
      }
      InsertAllFrom(ledger, head, x, tail);
      forall a, b | 0 <= a < b < |r| ensures AtOrBefore(ledger, r[a], r[b]) {
        if a == 0 {
          assert r[b] == rest[b - 1];
        } else {
          assert r[a] == rest[a - 1] && r[b] == rest[b - 1];
        }
      }
    }
  }

  function SortIds(ledger: seq<Ticket>, ids: seq<TicketId>): (r: seq<TicketId>)
    requires AllIds(ledger, ids)
    ensures AllIds(ledger, r) && Sorted(ledger, r)
    ensures multiset(r) == multiset(ids)
  {
    if ids == [] then []
    else
      assert ids == [ids[0]] + ids[1..];
      var rest := SortIds(ledger, ids[1..]);
      InsertSorted(ledger, ids[0], rest);
      Insert(ledger, ids[0], rest)
  }

  lemma SameElements(r: seq<TicketId>, s: seq<TicketId>)
    requires multiset(r) == multiset(s)
    ensures |r| == |s|
    ensures forall i :: i in r <==> i in s
  {
    assert |r| == |multiset(r)|;
    forall i ensures i in r <==> i in s {
      assert i in r <==> i in multiset(r);
      assert i in s <==> i in multiset(s);
    }
  }

  /** `Queue.find(f).sort('number')`: every matching ticket once, ascending. */
  function Ascending(ledger: seq<Ticket>, f: Filter): (r: seq<TicketId>)
    ensures AllIds(ledger, r) && Sorted(ledger, r)
    ensures forall i: TicketId :: i in r <==> i < |ledger| && Matches(ledger[i], f)
    ensures |r| == Count(ledger, f)
  {
    var found := Find(ledger, f);
    var r := SortIds(ledger, found);
    SameElements(r, found);
    r
  }

  function Min(a: int, b: int): int { if a <= b then a else b }

  lemma IndexOf(s: seq<TicketId>, x: TicketId) returns (p: nat)
    requires x in s
    ensures p < |s| && s[p] == x
  {
    p :| 0 <= p < |s| && s[p] == x;
  }

  /** `Queue.find(f).sort('number').limit(k)`: the k first tickets in sort order. */
  function First(ledger: seq<Ticket>, f: Filter, k: nat): (r: seq<TicketId>)
    ensures AllIds(ledger, r) && Sorted(ledger, r)
    ensures |r| == Min(k, Count(ledger, f))
    ensures forall a :: 0 <= a < |r| ==> Matches(ledger[r[a]], f)
    ensures forall i: TicketId :: i < |ledger| && Matches(ledger[i], f) && i !in r ==>
              |r| == k && forall a :: 0 <= a < |r| ==> AtOrBefore(ledger, r[a], i)
  {
    var all := Ascending(ledger, f);
    var r := all[..Min(k, |all|)];
    FirstAreSmallest(ledger, f, all, r);
    r
  }

  lemma FirstAreSmallest(ledger: seq<Ticket>, f: Filter, all: seq<TicketId>, r: seq<TicketId>)
    requires all == Ascending(ledger, f)
    requires |r| <= |all| && r == all[..|r|]
    ensures forall i: TicketId :: i < |ledger| && Matches(ledger[i], f) && i !in r ==>
              |r| < |all| && forall a :: 0 <= a < |r| ==> AtOrBefore(ledger, r[a], i)
  {
    forall i: TicketId | i < |ledger| && Matches(ledger[i], f) && i !in r
      ensures |r| < |all| && forall a :: 0 <= a < |r| ==> AtOrBefore(ledger, r[a], i)
    {
      var p := IndexOf(all, i);
      assert p >= |r|;
      forall a | 0 <= a < |r| ensures AtOrBefore(ledger, r[a], i) {
        assert r[a] == all[a];
      }
    }
  }

  /** The sorted list is empty exactly when nothing matches. */
  lemma AscendingEmpty(ledger: seq<Ticket>, f: Filter)
    ensures Ascending(ledger, f) == [] <==> forall i :: 0 <= i < |ledger| ==> !Matches(ledger[i], f)
  {
    var all := Ascending(ledger, f);
    if all != [] {
      assert all[0] in all;
    }
  }

  lemma FirstIsSmallest(ledger: seq<Ticket>, f: Filter, all: seq<TicketId>)
    requires all == Ascending(ledger, f) && all != []
    ensures forall i: TicketId :: i < |ledger| && Matches(ledger[i], f) ==> ledger[all[0]].number <= ledger[i].number
  {
    forall i: TicketId | i < |ledger| && Matches(ledger[i], f) ensures ledger[all[0]].number <= ledger[i].number {
      var p := IndexOf(all, i);
      if p > 0 { assert AtOrBefore(ledger, all[0], all[p]); }
    }
  }

  /** `Queue.findOne(f).sort('number')`: the matching ticket with the smallest number. */
  function Lowest(ledger: seq<Ticket>, f: Filter): (r: Option<TicketId>)
    ensures r.None? <==> forall i :: 0 <= i < |ledger| ==> !Matches(ledger[i], f)
    ensures r.Some? ==> r.value < |ledger| && Matches(ledger[r.value], f)
    ensures r.Some? ==> forall i :: 0 <= i < |ledger| && Matches(ledger[i], f) ==> ledger[r.value].number <= ledger[i].number
  {
    var all := Ascending(ledger, f);
    AscendingEmpty(ledger, f);
    if all == [] then None
    else
      FirstIsSmallest(ledger, f, all);
      assert all[0] in all;
      Some(all[0])
  }

  /** `Queue.findOne(f).sort({number: -1})`: the matching ticket with the largest number. */
  function Highest(ledger: seq<Ticket>, f: Filter): (r: Option<TicketId>)
    ensures r.None? <==> forall i :: 0 <= i < |ledger| ==> !Matches(ledger[i], f)
    ensures r.Some? ==> r.value < |ledger| && Matches(ledger[r.value], f)
    ensures r.Some? ==> forall i :: 0 <= i < |ledger| && Matches(ledger[i], f) ==> ledger[i].number <= ledger[r.value].number
  {
    var all := Ascending(ledger, f);
    AscendingEmpty(ledger, f);
    if all == [] then None
    else
      LastIsLargest(ledger, f, all);
      assert all[|all| - 1] in all;
      Some(all[|all| - 1])
  }

  lemma LastIsLargest(ledger: seq<Ticket>, f: Filter, all: seq<TicketId>)
    requires all == Ascending(ledger, f) && all != []
    ensures forall i: TicketId :: i < |ledger| && Matches(ledger[i], f) ==> ledger[i].number <= ledger[all[|all| - 1]].number
  {
    var last := |all| - 1;
    forall i: TicketId | i < |ledger| && Matches(ledger[i], f) ensures ledger[i].number <= ledger[all[last]].number {
      var p := IndexOf(all, i);
      if p < last { assert AtOrBefore(ledger, all[p], all[last]); }
    }
  }
}
