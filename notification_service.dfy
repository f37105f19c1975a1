/** notificationService: the push sent to one patient, and the "your turn is coming up" round over
    the five tickets after the counter. */
module NotificationService {
  import opened Wrappers
  import opened Tickets
  import opened Ledger
  import opened Patients

  /** The body of a push. A queue message keeps the number it reports; `BodyText` is the string
      the messaging service is handed. */
  datatype Body =
    | Text(text: string)
    | NumberBooked(number: int)
    | TurnComing(position: int)

  /** One push message handed to the messaging service. */
  datatype Push = Push(token: string, title: string, body: Body)

  /** sendNotification: nothing when the patient is missing or has no token; otherwise exactly one
      push to the patient's token. A failing send is logged and swallowed, so the call never fails. */
  function Notification(patients: seq<Patient>, p: PatientId, title: string, body: Body): (r: seq<Push>)
    ensures |r| <= 1
    ensures r != [] <==> p < |patients| && Truthy(patients[p].fcmToken)
    ensures r != [] ==> r[0] == Push(patients[p].fcmToken.value, title, body)
  {
    if p < |patients| && Truthy(patients[p].fcmToken) then [Push(patients[p].fcmToken.value, title, body)] else []
  }

  // ---------------------------------------------------------------------------------------------
  // Decimal rendering of a number in a message (`${n}`)

  function DigitChar(d: nat): char
    requires d < 10
  {
    ('0' as int + d) as char
  }

  /** `${n}` for a natural number: decimal digits, with no leading zero except for 0 itself. */
  function NatText(n: nat): (r: string)
    ensures |r| >= 1
    ensures forall k :: 0 <= k < |r| ==> '0' <= r[k] <= '9'
    ensures n > 0 ==> r[0] != '0'
    ensures n == 0 ==> r == "0"
    decreases n
  {
    if n < 10 then [DigitChar(n)] else NatText(n / 10) + [DigitChar(n % 10)]
  }

  /** Reads a string of decimal digits. */
  function DigitsValue(s: string): int
    decreases |s|
  {
    if s == [] then 0 else DigitsValue(s[..|s| - 1]) * 10 + (s[|s| - 1] as int - '0' as int)
  }

  /** The rendering reads back as the same number. */
  lemma {:induction false} NatTextRoundTrip(n: nat)
    ensures DigitsValue(NatText(n)) == n
    decreases n
  {
    if n < 10 {
      assert DigitsValue(NatText(n)) == DigitsValue([]) * 10 + (DigitChar(n) as int - '0' as int);
    } else {
      var init := NatText(n / 10);
      var s := init + [DigitChar(n % 10)];
      assert NatText(n) == s;
      assert DigitsValue(s) == DigitsValue(init) * 10 + n % 10 by {
        assert s[..|s| - 1] == init;
      }
      NatTextRoundTrip(n / 10);
    }
  }

  /** A digit string as JavaScript prints a number: no leading zero unless it is "0". */
  predicate Canonical(s: string) {
    && |s| >= 1
    && (forall k :: 0 <= k < |s| ==> '0' <= s[k] <= '9')
    && (|s| > 1 ==> s[0] != '0')
  }

  /** A canonical digit string that is not "0" has a value of at least 1. */
  lemma {:induction false} CanonicalPositive(s: string)
    requires Canonical(s) && s[0] != '0'
    ensures DigitsValue(s) >= 1
    decreases |s|
  {
    if |s| > 1 {
      var init := s[..|s| - 1];
      assert init[0] == s[0];
      CanonicalPositive(init);
    } else {
      assert s[..|s| - 1] == [];
    }
  }

  /** `NatText(n)` is the only canonical digit string whose value is n. */
  lemma {:induction false} CanonicalIsNatText(s: string, n: nat)
    requires Canonical(s) && DigitsValue(s) == n
    ensures s == NatText(n)
    decreases |s|
  {
    var d := s[|s| - 1] as int - '0' as int;
    var init := s[..|s| - 1];
    if |s| == 1 {
      assert init == [];
      assert n == d < 10;
      assert s == [DigitChar(n)];
    } else {
      assert init[0] == s[0];
      CanonicalPositive(init);
      var v := DigitsValue(init);
      assert n == v * 10 + d && 0 <= d < 10;
      assert n / 10 == v && n % 10 == d;
      CanonicalIsNatText(init, v);
      assert s == init + [s[|s| - 1]];
    }
  }

  /** `lead` followed by `${n}`: a minus sign for a negative n, then the canonical digits of its
      size, which read back as that size. */
  predicate ReadsAs(r: string, lead: string, n: int) {
    && |lead| < |r| && r[..|lead|] == lead
    && (n >= 0 ==> Canonical(r[|lead|..]) && DigitsValue(r[|lead|..]) == n)
    && (n < 0 ==> r[|lead|] == '-' && Canonical(r[|lead| + 1..]) && DigitsValue(r[|lead| + 1..]) == -n)
  }

  lemma AppendSplits(a: string, b: string)
    ensures (a + b)[..|a|] == a && (a + b)[|a|..] == b
  {
  }

  /** `${lead}${n}`: a minus sign for a negative n, then the digits. */
  function WithNumber(lead: string, n: int): (r: string)
    ensures ReadsAs(r, lead, n)
  {
    var size: nat := if n < 0 then -n else n;
    var digits := NatText(size);
    NatTextRoundTrip(size);
    if n < 0 then
      AppendSplits(lead, "-" + digits);
      AppendSplits("-", digits);
      assert (lead + ("-" + digits))[|lead| + 1..] == ("-" + digits)[1..];
      lead + ("-" + digits)
    else
      AppendSplits(lead, digits);
      lead + digits
  }

  /** A text that reads as n after `lead` is exactly the template string: `lead`, a minus sign
      when n is negative, then `NatText` of n's size. */
  lemma ReadsAsIsTemplate(r: string, lead: string, n: int)
    requires ReadsAs(r, lead, n)
    ensures n >= 0 ==> r == lead + NatText(n)
    ensures n < 0 ==> r == lead + "-" + NatText(-n)
  {
    if n >= 0 {
      CanonicalIsNatText(r[|lead|..], n);
      assert r == r[..|lead|] + r[|lead|..];
    } else {
      CanonicalIsNatText(r[|lead| + 1..], -n);
      assert r == r[..|lead|] + [r[|lead|]] + r[|lead| + 1..];
    }
  }

  const BookedText := "Your queue number is "
  const TurnText := "Your turn is coming up! Position: "

  /** The string sent: bookNumber's `Your queue number is ${n}`, sendQueueUpdate's
      `Your turn is coming up! Position: ${position}`, or the text as given. */
  function BodyText(b: Body): (r: string)
    ensures b.Text? ==> r == b.text
    ensures b.NumberBooked? ==> ReadsAs(r, BookedText, b.number)
    ensures b.TurnComing? ==> ReadsAs(r, TurnText, b.position)
  {
    match b
    case Text(text) => text
    case NumberBooked(n) => WithNumber(BookedText, n)
    case TurnComing(position) => WithNumber(TurnText, position)
  }

  // ---------------------------------------------------------------------------------------------
  // sendQueueUpdate

  /** `{clinic, number: {$gt: current, $lte: current + 5}, status: 'waiting'}` */
  function UpcomingWindow(c: ClinicId, current: int): Filter {
    Filter(Some(c), None, None, {Waiting}, Some(current), Some(current + 5), None, None)
  }

  /** A selected ticket is one to five places after the counter. */
  lemma WindowPositions(ledger: seq<Ticket>, c: ClinicId, current: int)
    ensures forall i :: 0 <= i < |ledger| && Matches(ledger[i], UpcomingWindow(c, current)) ==>
              1 <= ledger[i].number - current <= 5 && ledger[i].clinic == c && ledger[i].status == Waiting
    ensures forall i :: 0 <= i < |ledger| && ledger[i].clinic == c && ledger[i].status == Waiting && 1 <= ledger[i].number - current <= 5 ==>
              Matches(ledger[i], UpcomingWindow(c, current))
  {
  }

  const QueueUpdateTitle := "Queue Update"

  /** The "Queue Update" push telling a selected ticket's patient its place after the counter. */
  function PushFor(patients: seq<Patient>, t: Ticket, current: int): Push
    requires t.patient < |patients| && Truthy(patients[t.patient].fcmToken)
  {
    Push(patients[t.patient].fcmToken.value, QueueUpdateTitle, TurnComing(t.number - current))
  }

  /** The notification for one selected ticket: its place after the counter. */
  function UpdatePush(patients: seq<Patient>, t: Ticket, current: int): (r: seq<Push>)
    ensures r != [] <==> t.patient < |patients| && Truthy(patients[t.patient].fcmToken)
    ensures r != [] ==> r == [PushFor(patients, t, current)]
  {
    Notification(patients, t.patient, QueueUpdateTitle, TurnComing(t.number - current))
  }

  /** The pushes of the loop over the selected tickets from index k on, in order. Reading the `_id`
      of a ticket whose patient no longer exists throws, which ends the loop (the error is logged). */
  function QueueUpdatePushesFrom(ledger: seq<Ticket>, patients: seq<Patient>, ids: seq<TicketId>, k: nat, current: int): (r: seq<Push>)
    requires AllIds(ledger, ids) && k <= |ids|
    ensures |r| <= |ids| - k
    decreases |ids| - k
  {
    if k == |ids| || ledger[ids[k]].patient >= |patients| then []
    else UpdatePush(patients, ledger[ids[k]], current) + QueueUpdatePushesFrom(ledger, patients, ids, k + 1, current)
  }

  /** The pushes of the whole loop. */
  function QueueUpdatePushes(ledger: seq<Ticket>, patients: seq<Patient>, ids: seq<TicketId>, current: int): (r: seq<Push>)
    requires AllIds(ledger, ids)
    ensures |r| <= |ids|
  {
    QueueUpdatePushesFrom(ledger, patients, ids, 0, current)
  }

  /** Every selected ticket from index k up to index n has a patient with a token. */
  predicate ReachableUpTo(ledger: seq<Ticket>, patients: seq<Patient>, ids: seq<TicketId>, k: nat, n: int)
    requires AllIds(ledger, ids)
  {
    forall j :: k <= j < |ids| && j <= n ==> ledger[ids[j]].patient < |patients| && Truthy(patients[ledger[ids[j]].patient].fcmToken)
  }

  /** The loop reaches the j-th selected ticket and sends it its push. */
  lemma {:induction false} SelectedNotifiedAt(ledger: seq<Ticket>, patients: seq<Patient>, ids: seq<TicketId>, k: nat, current: int, j: nat)
    requires AllIds(ledger, ids) && k <= j < |ids| && ReachableUpTo(ledger, patients, ids, k, j)
    ensures j - k < |QueueUpdatePushesFrom(ledger, patients, ids, k, current)|
    ensures QueueUpdatePushesFrom(ledger, patients, ids, k, current)[j - k] == PushFor(patients, ledger[ids[j]], current)
    decreases j - k
  {
    var head := UpdatePush(patients, ledger[ids[k]], current);
    var rest := QueueUpdatePushesFrom(ledger, patients, ids, k + 1, current);
    assert QueueUpdatePushesFrom(ledger, patients, ids, k, current) == head + rest;
    assert head == [PushFor(patients, ledger[ids[k]], current)];
    if j > k {
      SelectedNotifiedAt(ledger, patients, ids, k + 1, current, j);
    }
  }

  /** The loop sends one push per selected ticket as long as every patient exists. */
  lemma {:induction false} SelectedNotifiedLength(ledger: seq<Ticket>, patients: seq<Patient>, ids: seq<TicketId>, k: nat, current: int)
    requires AllIds(ledger, ids) && k <= |ids| && ReachableUpTo(ledger, patients, ids, k, |ids|)
    ensures |QueueUpdatePushesFrom(ledger, patients, ids, k, current)| == |ids| - k
    decreases |ids| - k
  {
    if k < |ids| {
      SelectedNotifiedLength(ledger, patients, ids, k + 1, current);
      assert |UpdatePush(patients, ledger[ids[k]], current)| == 1;
    }
  }

  /** When every selected patient exists and has a token, each selected ticket gets exactly one
      push, in order, telling it its place after the counter. */
  lemma EachSelectedNotifiedOnce(ledger: seq<Ticket>, patients: seq<Patient>, ids: seq<TicketId>, current: int)
    requires AllIds(ledger, ids)
    requires forall j :: 0 <= j < |ids| ==> ledger[ids[j]].patient < |patients| && Truthy(patients[ledger[ids[j]].patient].fcmToken)
    ensures |QueueUpdatePushes(ledger, patients, ids, current)| == |ids|
    ensures forall j :: 0 <= j < |ids| ==> QueueUpdatePushes(ledger, patients, ids, current)[j] == PushFor(patients, ledger[ids[j]], current)
  {
    SelectedNotifiedLength(ledger, patients, ids, 0, current);
    forall j | 0 <= j < |ids| ensures QueueUpdatePushes(ledger, patients, ids, current)[j] == PushFor(patients, ledger[ids[j]], current) {
      SelectedNotifiedAt(ledger, patients, ids, 0, current, j);
    }
  }
}
