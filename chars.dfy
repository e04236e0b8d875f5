/**
 * Character classes used by the contact-form checks, and the phone rule:
 * `phone.replace(/\s/g, '')` followed by the test `/^[0-9]{10}$/`.
 */
module Chars {

  /** JavaScript's `\s`: the ECMAScript WhiteSpace and LineTerminator code points. */
  predicate IsWs(c: char) {
    var n := c as int;
    || (0x09 <= n <= 0x0D)       // tab, line feed, vertical tab, form feed, carriage return
    || n == 0x20 || n == 0xA0
    || n == 0x1680
    || (0x2000 <= n <= 0x200A)
    || n == 0x2028 || n == 0x2029
    || n == 0x202F || n == 0x205F
    || n == 0x3000 || n == 0xFEFF
  }

  /** The regex class `[0-9]`: ASCII digits only. */
  predicate IsDigit(c: char) {
    '0' <= c <= '9'
  }

  predicate NoWs(s: string) {
    forall k :: 0 <= k < |s| ==> !IsWs(s[k])
  }

  /** `s.replace(/\s/g, '')`: every whitespace character deleted, the rest kept in order. */
  function StripWs(s: string): (r: string)
    ensures |r| <= |s|
    ensures NoWs(r)
  {
    if s == [] then []
    else if IsWs(s[0]) then StripWs(s[1..])
    else [s[0]] + StripWs(s[1..])
  }

  /** Stripping keeps exactly the non-whitespace characters. */
  lemma {:induction false} StripWsKeeps(s: string)
    ensures forall c :: c in StripWs(s) <==> c in s && !IsWs(c)
  {
    if s != [] {
      StripWsKeeps(s[1..]);
      assert forall c :: c in s <==> c == s[0] || c in s[1..];
    }
  }

  /** `/^[0-9]{10}$/`: exactly ten ASCII digits and nothing else. */
  predicate TenDigits(t: string) {
    |t| == 10 && forall k :: 0 <= k < |t| ==> IsDigit(t[k])
  }

  /** The phone check of the submit handler. */
  predicate PhoneOk(phone: string) {
    TenDigits(StripWs(phone))
  }

  /** Stripping distributes over concatenation. */
  lemma {:induction false} StripWsConcat(a: string, b: string)
    ensures StripWs(a + b) == StripWs(a) + StripWs(b)
  {
    if a == [] {
      assert a + b == b;
    } else {
      assert (a + b)[0] == a[0];
      assert (a + b)[1..] == a[1..] + b;
      StripWsConcat(a[1..], b);
    }
  }

  /** A string without whitespace is left as it is. */
  lemma {:induction false} StripWsOfNoWs(s: string)
    requires NoWs(s)
    ensures StripWs(s) == s
  {
    if s != [] {
      assert NoWs(s[1..]) by {
        forall k | 0 <= k < |s[1..]| ensures !IsWs(s[1..][k]) {
          assert s[1..][k] == s[k + 1];
        }
      }
      StripWsOfNoWs(s[1..]);
    }
  }

  /** Stripping twice is stripping once. */
  lemma StripWsIdempotent(s: string)
    ensures StripWs(StripWs(s)) == StripWs(s)
  {
    StripWsOfNoWs(StripWs(s));
  }

  /** Whitespace typed anywhere in the phone number never changes whether it passes. */
  lemma PhoneIgnoresWhitespace(a: string, w: char, b: string)
    requires IsWs(w)
    ensures PhoneOk(a + [w] + b) == PhoneOk(a + b)
  {
    assert [w][1..] == [];
    calc {
      StripWs(a + [w] + b);
      { StripWsConcat(a + [w], b); }
      StripWs(a + [w]) + StripWs(b);
      { StripWsConcat(a, [w]); }
      StripWs(a) + StripWs([w]) + StripWs(b);
      { assert StripWs([w]) == []; }
      StripWs(a) + StripWs(b);
      { StripWsConcat(a, b); }
      StripWs(a + b);
    }
  }

  /** A phone passes exactly when its non-whitespace characters are ten ASCII digits. */
  lemma PhoneOkIff(phone: string)
    ensures PhoneOk(phone) <==>
      |StripWs(phone)| == 10 && forall c :: c in StripWs(phone) ==> c in phone && IsDigit(c)
  {
    var t := StripWs(phone);
    StripWsKeeps(phone);
    if |t| == 10 && forall c :: c in t ==> c in phone && IsDigit(c) {
      forall k | 0 <= k < |t| ensures IsDigit(t[k]) {
        assert t[k] in t;
      }
    }
  }

  /** Without whitespace the phone is compared as typed: it passes iff it is ten digits. */
  lemma PhoneWithoutWs(phone: string)
    requires NoWs(phone)
    ensures PhoneOk(phone) <==> TenDigits(phone)
  {
    StripWsOfNoWs(phone);
  }

  /** Ten ASCII digits typed without spaces pass. */
  lemma TenDigitsPass(phone: string)
    requires TenDigits(phone)
    ensures PhoneOk(phone)
  {
    assert NoWs(phone) by {
      forall k | 0 <= k < |phone| ensures !IsWs(phone[k]) {
        assert IsDigit(phone[k]);
      }
    }
    StripWsOfNoWs(phone);
  }

  /** A plain ten-digit number passes. */
  lemma PhoneAcceptsDigits()
    ensures PhoneOk("9876543210")
  {
    TenDigitsPass("9876543210");
  }

  /** A space inside the number is stripped before the digit test. */
  lemma PhoneAcceptsSpaced()
    ensures PhoneOk("98765 43210")
  {
    var a, b := "98765", "43210";
    PhoneWithoutWs(a + b);
    PhoneIgnoresWhitespace(a, ' ', b);
    assert a + [' '] + b == "98765 43210";
  }

  /** Punctuation is not stripped, so a dashed number fails. */
  lemma PhoneRejectsDashes()
    ensures !PhoneOk("123-456-7890")
  {
    var s := "123-456-7890";
    assert s[3] == '-';
    assert '-' in s && !IsWs('-');
    var t := StripWs(s);
    StripWsKeeps(s);
    assert '-' in t;
    var k :| 0 <= k < |t| && t[k] == '-';
    assert !IsDigit(t[k]);
  }

  /** Too few digits fail. */
  lemma PhoneRejectsShort()
    ensures !PhoneOk("98765")
  {
    assert |StripWs("98765")| <= 5;
  }

  /** Too many digits fail. */
  lemma PhoneRejectsLong()
    ensures !PhoneOk("12345678901")
  {
    PhoneWithoutWs("12345678901");
  }
}
