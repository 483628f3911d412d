/**
 Text rendering shared by the two relative-age labels: decimal rendering of
 integers as Rust's `Display` prints them, the four-way age label, and a
 recogniser for the label shape `^(((\d+h )?\d+m )?\d+s ago|Just now)$`.
 */
module Format {

  predicate IsDigit(c: char) {
    '0' <= c <= '9'
  }

  /** Every character is a decimal digit (the empty string included). */
  predicate AllDigits(s: string) {
    forall i :: 0 <= i < |s| ==> IsDigit(s[i])
  }

  /** A non-empty run of decimal digits, the regular expression `\d+`. */
  predicate IsDigits(s: string) {
    |s| > 0 && AllDigits(s)
  }

  function DigitChar(d: nat): (c: char)
    requires d < 10
    ensures IsDigit(c)
    ensures (c as int) - ('0' as int) == d
  {
    ('0' as int + d) as char
  }

  /** Decimal rendering of a natural number, most significant digit first. */
  function NatToString(n: nat): (r: string)
    ensures IsDigits(r)
    ensures n < 10 <==> |r| == 1
    decreases n
  {
    if n < 10 then [DigitChar(n)] else NatToString(n / 10) + [DigitChar(n % 10)]
  }

  /** The number a string of decimal digits denotes. */
  function DigitsValue(s: string): nat
    requires AllDigits(s)
    decreases |s|
  {
    if s == [] then 0
    else 10 * DigitsValue(s[..|s| - 1]) + ((s[|s| - 1] as int) - ('0' as int))
  }

  /** Reading back a rendered number yields the number. */
  lemma {:induction false} DigitsValueOfNatToString(n: nat)
    ensures DigitsValue(NatToString(n)) == n
    decreases n
  {
    if n >= 10 {
      var s := NatToString(n);
      assert s[..|s| - 1] == NatToString(n / 10);
      DigitsValueOfNatToString(n / 10);
    }
  }

  /** Distinct numbers render to distinct strings. */
  lemma NatToStringInjective(a: nat, b: nat)
    ensures NatToString(a) == NatToString(b) ==> a == b
  {
    DigitsValueOfNatToString(a);
    DigitsValueOfNatToString(b);
  }

  /** Rust's `Display` for a signed integer: a minus sign before negatives. */
  function IntToString(i: int): (r: string)
    ensures i >= 0 ==> r == NatToString(i)
    ensures i < 0 ==> r == "-" + NatToString(-i)
  {
    if i < 0 then "-" + NatToString(-i) else NatToString(i)
  }

  /**
   A rendered integer reads back: a non-negative one is a run of digits
   denoting it, a negative one a minus sign and then digits denoting its
   magnitude.
   */
  lemma IntToStringReadsBack(i: int)
    ensures i >= 0 ==> IsDigits(IntToString(i)) && DigitsValue(IntToString(i)) == i
    ensures i < 0 ==> var r := IntToString(i);
      r[0] == '-' && IsDigits(r[1..]) && DigitsValue(r[1..]) == -i
  {
    if i < 0 {
      DigitsValueOfNatToString(-i);
      assert IntToString(i)[1..] == NatToString(-i);
    } else {
      DigitsValueOfNatToString(i);
    }
  }

  const JUST_NOW: string := "Just now"

  /**
   The four-way label choice both age labels share: hours, minutes and
   seconds when at least an hour has elapsed, minutes and seconds when at
   least a minute has, seconds when more than five seconds have, and
   "Just now" otherwise.
   */
  function AgeLabel(h: int, m: int, s: int): string {
    if h > 0 then IntToString(h) + "h " + IntToString(m) + "m " + IntToString(s) + "s ago"
    else if h == 0 && m > 0 then IntToString(m) + "m " + IntToString(s) + "s ago"
    else if h == 0 && m == 0 && s > 5 then IntToString(s) + "s ago"
    else JUST_NOW
  }

  /** Splits off the longest prefix of decimal digits. */
  function SpanDigits(s: string): (r: (string, string))
    ensures r.0 + r.1 == s
    ensures AllDigits(r.0)
    ensures r.1 == [] || !IsDigit(r.1[0])
    decreases |s|
  {
    if s == [] || !IsDigit(s[0]) then ([], s)
    else
      var (d, rest) := SpanDigits(s[1..]);
      assert forall i :: 1 <= i < |[s[0]] + d| ==> ([s[0]] + d)[i] == d[i - 1];
      ([s[0]] + d, rest)
  }

  /** A digit run followed by a non-digit is exactly what `SpanDigits` splits off. */
  lemma {:induction false} SpanDigitsOf(d: string, rest: string)
    requires AllDigits(d)
    requires rest == [] || !IsDigit(rest[0])
    ensures SpanDigits(d + rest) == (d, rest)
    decreases |d|
  {
    var s := d + rest;
    if d == [] {
      assert s == rest;
    } else {
      assert s[0] == d[0] && IsDigit(s[0]);
      assert s[1..] == d[1..] + rest;
      assert AllDigits(d[1..]) by {
        forall i | 0 <= i < |d[1..]| ensures IsDigit(d[1..][i]) {
          assert d[1..][i] == d[i + 1];
        }
      }
      SpanDigitsOf(d[1..], rest);
      assert [d[0]] + d[1..] == d;
    }
  }

  /** `\d+s ago` */
  predicate SecondsPart(s: string) {
    var (d, r) := SpanDigits(s);
    |d| > 0 && r == "s ago"
  }

  /** `\d+m \d+s ago` */
  predicate MinutesPart(s: string) {
    var (d, r) := SpanDigits(s);
    |d| > 0 && |r| >= 2 && r[..2] == "m " && SecondsPart(r[2..])
  }

  /** `\d+h \d+m \d+s ago` */
  predicate HoursPart(s: string) {
    var (d, r) := SpanDigits(s);
    |d| > 0 && |r| >= 2 && r[..2] == "h " && MinutesPart(r[2..])
  }

  /** The whole-string match of `^(((\d+h )?\d+m )?\d+s ago|Just now)$`. */
  predicate AgoShape(s: string) {
    s == JUST_NOW || SecondsPart(s) || MinutesPart(s) || HoursPart(s)
  }

  lemma SecondsPartOf(s: nat)
    ensures SecondsPart(NatToString(s) + "s ago")
  {
    SpanDigitsOf(NatToString(s), "s ago");
  }

  lemma MinutesPartOf(m: nat, tail: string)
    requires SecondsPart(tail)
    ensures MinutesPart(NatToString(m) + "m " + tail)
  {
    var rest := "m " + tail;
    assert NatToString(m) + "m " + tail == NatToString(m) + rest;
    SpanDigitsOf(NatToString(m), rest);
    assert rest[..2] == "m " && rest[2..] == tail;
  }

  lemma HoursPartOf(h: nat, tail: string)
    requires MinutesPart(tail)
    ensures HoursPart(NatToString(h) + "h " + tail)
  {
    var rest := "h " + tail;
    assert NatToString(h) + "h " + tail == NatToString(h) + rest;
    SpanDigitsOf(NatToString(h), rest);
    assert rest[..2] == "h " && rest[2..] == tail;
  }

  lemma HoursLabelShape(h: nat, m: nat, s: nat)
    requires h > 0
    ensures HoursPart(AgeLabel(h, m, s))
  {
    var secs := NatToString(s) + "s ago";
    var mins := NatToString(m) + "m " + secs;
    assert AgeLabel(h, m, s) == NatToString(h) + "h " + mins;
    SecondsPartOf(s);
    MinutesPartOf(m, secs);
    HoursPartOf(h, mins);
  }

  lemma MinutesLabelShape(m: nat, s: nat)
    requires m > 0
    ensures MinutesPart(AgeLabel(0, m, s))
  {
    var secs := NatToString(s) + "s ago";
    assert AgeLabel(0, m, s) == NatToString(m) + "m " + secs;
    SecondsPartOf(s);
    MinutesPartOf(m, secs);
  }

  lemma SecondsLabelShape(s: nat)
    requires s > 5
    ensures SecondsPart(AgeLabel(0, 0, s))
  {
    assert AgeLabel(0, 0, s) == NatToString(s) + "s ago";
    SecondsPartOf(s);
  }

  /**
   When hours, minutes and seconds share one sign, as the components of one
   elapsed time do, the age label has the documented shape.
   */
  lemma AgeLabelShape(h: int, m: int, s: int)
    requires (h >= 0 && m >= 0 && s >= 0) || (h <= 0 && m <= 0 && s <= 0)
    ensures AgoShape(AgeLabel(h, m, s))
  {
    if h > 0 {
      HoursLabelShape(h, m, s);
    } else if h == 0 && m > 0 {
      MinutesLabelShape(m, s);
    } else if h == 0 && m == 0 && s > 5 {
      SecondsLabelShape(s);
    } else {
      assert AgeLabel(h, m, s) == JUST_NOW;
    }
  }
}
