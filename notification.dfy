/** services/notification.js: email-to-SMS through the carrier's gateway, the push message, the
    combined patient notification, and the Pakistani number check. */
module Notification {
  import opened Wrappers
  import opened Tickets
  import opened Patients
  import opened Carrier
  import opened NotificationService

  /** `^(\+92|92|0)?(3\d{2})(\d{7})$`, read group by group: an optional prefix, then a three-character
      operator code starting with 3, then seven digits. */
  predicate ValidatePakNumber(s: string) {
    exists n :: n in {0, 1, 2, 3} && n <= |s| && PakPrefix(s[..n]) && OperatorAndSubscriber(s[n..])
  }

  predicate PakPrefix(p: string) {
    p == "" || p == "0" || p == "92" || p == "+92"
  }

  predicate OperatorAndSubscriber(rest: string) {
    && |rest| == 10
    && rest[0] == '3' && IsDigit(rest[1]) && IsDigit(rest[2])
    && forall k :: 3 <= k < 10 ==> IsDigit(rest[k])
  }

  /** The service's check accepts exactly the numbers the patient schema's validator accepts. */
  lemma {:induction false} PakNumberMatchesSchema(s: string)
    ensures ValidatePakNumber(s) <==> ValidPhone(s)
  {
    if ValidPhone(s) {
      var n := if MobileBody(s) then 0
               else if |s| >= 1 && s[..1] == "0" && MobileBody(s[1..]) then 1
               else if |s| >= 2 && s[..2] == "92" && MobileBody(s[2..]) then 2
               else 3;
      assert n == 0 ==> s[n..] == s;
      assert n in {0, 1, 2, 3} && n <= |s| && PakPrefix(s[..n]) && OperatorAndSubscriber(s[n..]);
    }
    if ValidatePakNumber(s) {
      var n :| n in {0, 1, 2, 3} && n <= |s| && PakPrefix(s[..n]) && OperatorAndSubscriber(s[n..]);
      assert MobileBody(s[n..]);
      if n == 0 {
        assert s[n..] == s;
      } else if n == 1 {
        assert s[..1] == "0";
      } else if n == 2 {
        assert s[..2] == "92";
      } else {
        assert s[..3] == "+92";
      }
    }
  }

  /** `CARRIER_DOMAINS`: the gateway of each supported carrier; Warid and unknown numbers have none. */
  function CarrierDomain(c: CarrierName): (r: Option<string>)
    ensures r.None? <==> c == Warid || c == OtherCarrier
  {
    match c
    case Jazz => Some("jazzsms.com")
    case Telenor => Some("sms.telenor.com.pk")
    case Zong => Some("zongsms.pk")
    case Ufone => Some("ufsms.com")
    case Warid => None
    case OtherCarrier => None
  }

  /** The first n characters of s (`s.slice(0, n)`). */
  function Prefix(s: string, n: nat): (r: string)
    ensures |r| == if |s| < n then |s| else n
    ensures r == s[..|r|]
  {
    if |s| <= n then s else s[..n]
  }

  datatype Email = Email(to: string, text: string)

  /** sendSms: the mail to `<phone>@<gateway>` carrying the first 160 characters of the message,
      or the "Unsupported carrier" error. */
  function SmsEmail(phone: string, message: string): (r: Result<Email>)
    ensures r.Ok? <==> CarrierDomain(DetectCarrier(phone)).Some?
    ensures r.Ok? ==> r.value.to == phone + "@" + CarrierDomain(DetectCarrier(phone)).value
    ensures r.Ok? ==> |r.value.text| <= 160 && |r.value.text| <= |message| && r.value.text == message[..|r.value.text|]
    ensures r.Ok? && |message| <= 160 ==> r.value.text == message
    ensures r.Err? ==> r.message == "Unsupported carrier for " + phone
  {
    match CarrierDomain(DetectCarrier(phone))
    case None => Err(500, "Unsupported carrier for " + phone)
    case Some(domain) => Ok(Email(phone + "@" + domain, Prefix(message, 160)))
  }

  /** For a number the schema accepts, the SMS goes out exactly when its operator code is a known
      Jazz, Zong, Ufone or Telenor code. */
  lemma SmsForValidPhone(phone: string, message: string)
    requires ValidPhone(phone)
    ensures SmsEmail(phone, message).Ok? <==>
              Lookup(phone[|phone| - 10..][..3]) in {Jazz, Zong, Ufone, Telenor}
  {
    CarrierOfValidPhone(phone);
    var carrier := DetectCarrier(phone);
    assert SmsEmail(phone, message).Ok? <==> CarrierDomain(carrier).Some?;
    assert CarrierDomain(carrier).Some? <==> carrier in {Jazz, Zong, Ufone, Telenor} by {
      if carrier == Warid || carrier == OtherCarrier {
        assert carrier !in {Jazz, Zong, Ufone, Telenor};
      }
    }
  }

  /** What notifyPatient sends out. */
  datatype Delivery = Delivery(emails: seq<Email>, pushes: seq<Push>)

  /** notifyPatient: an SMS when the patient has a phone and its carrier is supported (a failed SMS
      is logged, and the push is still tried), then a push of the first 100 characters when the
      patient has a token. A missing patient gets nothing. */
  function NotifyPatient(patients: seq<Patient>, p: PatientId, message: string): (r: Delivery)
    ensures p >= |patients| ==> r == Delivery([], [])
    ensures |r.emails| <= 1 && |r.pushes| <= 1
    ensures r.emails != [] <==> p < |patients| && patients[p].phone != "" && SmsEmail(patients[p].phone, message).Ok?
    ensures r.emails != [] ==> r.emails[0] == SmsEmail(patients[p].phone, message).value
    ensures r.pushes != [] <==> p < |patients| && Truthy(patients[p].fcmToken)
    ensures r.pushes != [] ==> r.pushes[0].token == patients[p].fcmToken.value && r.pushes[0].title == "Queue Update"
    ensures r.pushes != [] ==> r.pushes[0].body.Text?
    ensures r.pushes != [] ==> var text := r.pushes[0].body.text; |text| <= 100 && |text| <= |message| && text == message[..|text|]
  {
    if p >= |patients| then Delivery([], [])
    else
      var patient := patients[p];
      var sms := if patient.phone != "" then SmsEmail(patient.phone, message) else Err(0, "");
      var emails := if sms.Ok? then [sms.value] else [];
      Delivery(emails, Notification(patients, p, "Queue Update", Text(Prefix(message, 100))))
  }
}
