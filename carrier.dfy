/** detectCarrier: normalise a Pakistani mobile number and look its three-digit operator prefix up
    in the carrier table. */
module Carrier {
  import opened Patients

  datatype CarrierName = Jazz | Zong | Ufone | Telenor | Warid | OtherCarrier

  /** A character of JavaScript's `\s` class. */
  predicate IsJsSpace(ch: char) {
    || ch == ' ' || ch == '\t' || ch == '\n' || ch == '\U{B}' || ch == '\U{C}' || ch == '\r'
    || ch == '\U{A0}' || ch == '\U{1680}' || ('\U{2000}' <= ch <= '\U{200A}')
    || ch == '\U{2028}' || ch == '\U{2029}' || ch == '\U{202F}' || ch == '\U{205F}'
    || ch == '\U{3000}' || ch == '\U{FEFF}'
  }

  /** `s` begins with `p`. */
  predicate StartsWith(s: string, p: string) {
    |p| <= |s| && s[..|p|] == p
  }

  /** The anchored alternatives `^\+92|^92|^0`, tried in that order: at most one prefix is removed,
      and only at index 0. */
  function StripPrefix(s: string): (r: string)
    ensures |s| - 3 <= |r| <= |s| && r == s[|s| - |r|..]
    ensures StartsWith(s, "+92") ==> r == s[3..]
    ensures !StartsWith(s, "+92") && StartsWith(s, "92") ==> r == s[2..]
    ensures !StartsWith(s, "+92") && !StartsWith(s, "92") && StartsWith(s, "0") ==> r == s[1..]
    ensures !StartsWith(s, "+92") && !StartsWith(s, "92") && !StartsWith(s, "0") ==> r == s
  {
    if StartsWith(s, "+92") then s[3..]
    else if StartsWith(s, "92") then s[2..]
    else if StartsWith(s, "0") then s[1..]
    else s
  }

  /** The unanchored alternative `\s` under the global flag: every whitespace character goes. */
  function RemoveSpaces(s: string): (r: string)
    ensures |r| <= |s|
    ensures forall ch :: ch in r <==> ch in s && !IsJsSpace(ch)
    ensures (forall k :: 0 <= k < |s| ==> !IsJsSpace(s[k])) ==> r == s
    ensures |s| > 0 && !IsJsSpace(s[0]) ==> |r| > 0 && r[0] == s[0]
    ensures |s| == 1 ==> r == (if IsJsSpace(s[0]) then [] else s)
    decreases |s|
  {
    if s == [] then []
    else
      assert forall ch :: ch in s <==> ch == s[0] || ch in s[1..];
      if IsJsSpace(s[0]) then RemoveSpaces(s[1..]) else [s[0]] + RemoveSpaces(s[1..])
  }

  /** Removal works character by character: together with the one-character case, this says each
      whitespace character is dropped and every other character is kept, in order. */
  lemma {:induction false} RemoveSpacesAppend(a: string, b: string)
    ensures RemoveSpaces(a + b) == RemoveSpaces(a) + RemoveSpaces(b)
    decreases |a|
  {
    if a != [] {
      assert (a + b)[0] == a[0] && (a + b)[1..] == a[1..] + b;
      RemoveSpacesAppend(a[1..], b);
      if !IsJsSpace(a[0]) {
        assert RemoveSpaces(a + b) == [a[0]] + (RemoveSpaces(a[1..]) + RemoveSpaces(b));
      }
    } else {
      assert a + b == b;
    }
  }

  /** `phone.replace(/^\+92|^92|^0|\s/g, '')`. A leading whitespace character is what the regex
      meets at index 0, so it is removed alone and no prefix is stripped after it. */
  function Normalize(phone: string): string {
    RemoveSpaces(StripPrefix(phone))
  }

  /** `.substring(0, 3)` */
  function FirstThree(s: string): (r: string)
    ensures |r| == if |s| < 3 then |s| else 3
    ensures r == s[..|r|]
  {
    if |s| < 3 then s else s[..3]
  }

  /** The carrier table. */
  function Lookup(key: string): (r: CarrierName)
    ensures r != OtherCarrier ==> |key| == 3 && key[0] == '3'
  {
    if key == "300" || key == "301" || key == "302" || key == "303" then Jazz
    else if key == "304" || key == "305" || key == "306" then Zong
    else if key == "307" || key == "308" then Ufone
    else if key == "309" then Telenor
    else if key == "331" then Zong
    else if key == "332" then Jazz
    else if key == "333" || key == "334" then Ufone
    else if key == "335" then Jazz
    else if key == "336" then Telenor
    else if key == "337" then Ufone
    else if key == "338" then Warid
    else if key == "339" then Telenor
    else OtherCarrier
  }

  /** detectCarrier: the table entry for the first three characters after normalisation, or 'other'. */
  function DetectCarrier(phone: string): (r: CarrierName)
    ensures r == Lookup(FirstThree(Normalize(phone)))
    ensures |Normalize(phone)| < 3 ==> r == OtherCarrier
  {
    Lookup(FirstThree(Normalize(phone)))
  }

  /** For a number the patient validator accepts, the carrier is decided by the three digits that
      follow the optional prefix. */
  lemma {:induction false} CarrierOfValidPhone(phone: string)
    requires ValidPhone(phone)
    ensures DetectCarrier(phone) == Lookup(phone[|phone| - 10..][..3])
  {
    ValidPhoneShape(phone);
    var body := phone[|phone| - 10..];
    assert StripPrefix(phone) == body by {
      if |phone| == 10 {
        assert phone == body;
      }
    }
    assert forall k :: 0 <= k < |body| ==> !IsJsSpace(body[k]) by {
      forall k | 0 <= k < |body| ensures !IsJsSpace(body[k]) {
        assert k == 0 || IsDigit(body[k]);
      }
    }
    assert Normalize(phone) == body;
  }

  /** A string led by '0' is 'other' once its spaces are gone: the key starts with '0'. */
  lemma ZeroLedIsOther(s: string)
    requires |s| > 0 && s[0] == '0'
    ensures Lookup(FirstThree(RemoveSpaces(s))) == OtherCarrier
  {
    var key := FirstThree(RemoveSpaces(s));
    assert |key| > 0 && key[0] == '0';
  }

  /** Only index 0 can lose a prefix: "0092…" keeps "092…", which is not in the table. */
  lemma DoubleZeroIsOther(phone: string)
    requires |phone| >= 2 && phone[0] == '0' && phone[1] == '0'
    ensures DetectCarrier(phone) == OtherCarrier
  {
    var stripped := StripPrefix(phone);
    assert stripped == phone[1..] && stripped[0] == '0';
    ZeroLedIsOther(stripped);
  }

  /** A leading space is removed in place of the prefix, so " 0300…" keeps its 0 and is 'other'. */
  lemma LeadingSpaceBlocksPrefix(phone: string)
    requires |phone| >= 2 && IsJsSpace(phone[0]) && phone[1] == '0'
    ensures DetectCarrier(phone) == OtherCarrier
  {
    assert Normalize(phone) == RemoveSpaces(phone[1..]) by {
      assert phone[0] != '+' && phone[0] != '9' && phone[0] != '0';
      assert StripPrefix(phone) == phone;
    }
    ZeroLedIsOther(phone[1..]);
  }
}
