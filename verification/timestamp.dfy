/**
 The relative-age label of a capture time in whole seconds
 (src/utils/timestamp.rs). The current time is a parameter; times are
 seconds since the epoch, as `DateTime::timestamp` returns them.
 */
module Timestamp {
  import opened Trunc
  import opened Format

  datatype Timestamp = Timestamp(utc: int)

  /**
   `get_smh`: seconds, minutes and hours elapsed from the stamp to `dt`,
   computed with Rust's truncating `/` and `%`. The three components
   always add back up to the elapsed time and share its sign; for a
   non-negative elapsed time seconds and minutes are below sixty.
   */
  function GetSmh(ts: Timestamp, dt: int): (r: (int, int, int))
    ensures var (s, m, h) := r;
      h * 3600 + m * 60 + s == dt - ts.utc
    ensures var (s, m, h) := r;
      dt - ts.utc >= 0 ==> 0 <= s < 60 && 0 <= m < 60 && 0 <= h
    ensures var (s, m, h) := r;
      dt - ts.utc < 0 ==> -60 < s <= 0 && -60 < m <= 0 && h <= 0
  {
    var diff := dt - ts.utc;
    QuotSixtySixty(diff);
    (Rem(diff, 60), Rem(Quot(diff, 60), 60), Quot(diff, 3600))
  }

  /** `to_string_with_dt`: the age label of the stamp as seen at `dt`. */
  function ToStringWithDt(ts: Timestamp, dt: int): string {
    var (s, m, h) := GetSmh(ts, dt);
    AgeLabel(h, m, s)
  }

  /**
   The label by ranges of elapsed seconds, written with Dafny's own
   arithmetic on non-negative numbers: up to 5 s "Just now", then seconds,
   then minutes and seconds from one minute, then hours from one hour.
   */
  function ReferenceLabel(d: int): string {
    if d <= 5 then JUST_NOW
    else if d < 60 then NatToString(d) + "s ago"
    else if d < 3600 then NatToString(d / 60) + "m " + NatToString(d % 60) + "s ago"
    else NatToString(d / 3600) + "h " + NatToString(d / 60 % 60) + "m " + NatToString(d % 60) + "s ago"
  }

  /** The four-way match over truncated components agrees with the range reading, negatives included. */
  lemma ToStringWithDtIsReference(ts: Timestamp, dt: int)
    ensures ToStringWithDt(ts, dt) == ReferenceLabel(dt - ts.utc)
  {
    var d := dt - ts.utc;
    var (s, m, h) := GetSmh(ts, dt);
    if d >= 0 {
      assert s == d % 60 && h == d / 3600 && m == d / 60 % 60 by {
        QuotSixtySixty(d);
      }
    }
  }

  /** A negative elapsed time (a stamp in the future) reads "Just now". */
  lemma NegativeIsJustNow(ts: Timestamp, dt: int)
    requires dt < ts.utc
    ensures ToStringWithDt(ts, dt) == JUST_NOW
  {
    ToStringWithDtIsReference(ts, dt);
  }

  /** The label always matches `^(((\d+h )?\d+m )?\d+s ago|Just now)$`. */
  lemma ToStringWithDtShape(ts: Timestamp, dt: int)
    ensures AgoShape(ToStringWithDt(ts, dt))
  {
    var (s, m, h) := GetSmh(ts, dt);
    AgeLabelShape(h, m, s);
  }

  /** One hour, two minutes and three seconds split into their components. */
  lemma GetSmhExample(ts: Timestamp)
    ensures GetSmh(ts, ts.utc + 3 + 2 * 60 + 1 * 3600) == (3, 2, 1)
  {
  }

  /** The label at zero elapsed time. */
  lemma JustNowExample(ts: Timestamp)
    ensures ToStringWithDt(ts, ts.utc) == "Just now"
  {
  }

  /** The label at 7 s. */
  lemma SecondsExample(ts: Timestamp)
    ensures ToStringWithDt(ts, ts.utc + 7) == "7s ago"
  {
    ToStringWithDtIsReference(ts, ts.utc + 7);
    assert NatToString(7) == "7";
  }

  /** The label at exactly five minutes. */
  lemma MinutesExample(ts: Timestamp)
    ensures ToStringWithDt(ts, ts.utc + 5 * 60) == "5m 0s ago"
  {
    ToStringWithDtIsReference(ts, ts.utc + 5 * 60);
    assert NatToString(5) == "5" && NatToString(0) == "0";
  }

  /** The label at 3 h 4 min 1 s. */
  lemma HoursExample(ts: Timestamp)
    ensures ToStringWithDt(ts, ts.utc + (1 + 4 * 60 + 3 * 60 * 60)) == "3h 4m 1s ago"
  {
    ToStringWithDtIsReference(ts, ts.utc + (1 + 4 * 60 + 3 * 60 * 60));
    assert NatToString(3) == "3" && NatToString(4) == "4" && NatToString(1) == "1";
  }
}
