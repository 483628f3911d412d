/**
 The older fetched-data envelope with a millisecond age label (src/utils.rs):
 the elapsed time is split into hours, minutes and seconds stored in the
 envelope, and the label is chosen from them. The current time is a
 parameter, in milliseconds since the epoch.
 */
module LegacyRemoteData {
  import opened Wrappers
  import opened Trunc
  import opened Format
  import Application

  const SECOND: int := 1000
  const MINUTE: int := SECOND * 60
  const HOUR: int := MINUTE * 60

  datatype Data = Servers(servers: seq<Application.Server>)

  datatype RemoteData = RemoteData(
    data: Data,
    updatedAt: int,
    secondsSince: Option<int>,
    minutesSince: Option<int>,
    hoursSince: Option<int>,
    labelText: string)

  /** `RemoteData::new`: stamped now, no components yet, labelled "Just now". */
  function New(data: Data, now: int): (r: RemoteData)
    ensures r.data == data && r.updatedAt == now
    ensures r.secondsSince.None? && r.minutesSince.None? && r.hoursSince.None?
    ensures r.labelText == "Just now"
  {
    RemoteData(data, now, None, None, None, JUST_NOW)
  }

  /**
   `update_inner_timing`: whole hours, then whole minutes of the rest, then
   whole seconds of what remains, with truncating arithmetic. For a
   non-negative elapsed time the components are bounded and account for
   the elapsed time up to less than one second; for a negative one they
   are all at most zero. Nothing else in the envelope changes.
   */
  function UpdateInnerTiming(rd: RemoteData, now: int): (r: RemoteData)
    ensures r.hoursSince.Some? && r.minutesSince.Some? && r.secondsSince.Some?
    ensures var d, h, m, s := now - rd.updatedAt, r.hoursSince.value, r.minutesSince.value, r.secondsSince.value;
      d >= 0 ==>
        && 0 <= h && 0 <= m < 60 && 0 <= s < 60
        && h * HOUR + m * MINUTE + s * SECOND <= d < h * HOUR + m * MINUTE + s * SECOND + SECOND
    ensures var d := now - rd.updatedAt;
      d < 0 ==> r.hoursSince.value <= 0 && r.minutesSince.value <= 0 && r.secondsSince.value <= 0
    ensures r.data == rd.data && r.updatedAt == rd.updatedAt && r.labelText == rd.labelText
  {
    var diff := now - rd.updatedAt;
    var h := Quot(diff, HOUR);
    var diff1 := Rem(diff, HOUR);
    var m := Quot(diff1, MINUTE);
    var diff2 := Rem(diff1, MINUTE);
    var s := Quot(diff2, SECOND);
    rd.(hoursSince := Some(h), minutesSince := Some(m), secondsSince := Some(s))
  }

  /**
   The label `generate_update_label` picks from the stored components: it
   matches on the three options, so a component that is missing reads as
   "Just now".
   */
  function LabelOf(rd: RemoteData): string {
    match (rd.hoursSince, rd.minutesSince, rd.secondsSince)
    case (Some(h), Some(m), Some(s)) => AgeLabel(h, m, s)
    case _ => JUST_NOW
  }

  /** `generate_update_label`: refresh the components, then the label. */
  function GenerateUpdateLabel(rd: RemoteData, now: int): (r: RemoteData)
    ensures r.hoursSince.Some? && r.minutesSince.Some? && r.secondsSince.Some?
    ensures r.data == rd.data && r.updatedAt == rd.updatedAt
  {
    var timed := UpdateInnerTiming(rd, now);
    timed.(labelText := LabelOf(timed))
  }

  /**
   The label by ranges of elapsed milliseconds, with Dafny's own arithmetic
   on non-negative numbers: below 6 s "Just now" (seconds must exceed 5),
   then seconds, then minutes and seconds from one minute, then hours from
   one hour.
   */
  function ReferenceLabel(d: int): string {
    if d < 6 * SECOND then JUST_NOW
    else if d < MINUTE then NatToString(d / SECOND) + "s ago"
    else if d < HOUR then NatToString(d / MINUTE) + "m " + NatToString(d % MINUTE / SECOND) + "s ago"
    else NatToString(d / HOUR) + "h " + NatToString(d % HOUR / MINUTE) + "m " + NatToString(d % MINUTE / SECOND) + "s ago"
  }

  lemma HourRemMinute(d: int)
    requires d >= 0
    ensures d % HOUR % MINUTE == d % MINUTE
  {
    var q, r := d / 3600000, d % 3600000;
    var q2, r2 := r / 60000, r % 60000;
    assert d == 3600000 * q + r;
    assert r == 60000 * q2 + r2;
    assert d == 60000 * (60 * q + q2) + r2;
    assert 0 <= r2 < 60000;
    ModUnique(d, 60 * q + q2, r2);
  }

  lemma ModUnique(a: int, q: int, r: int)
    requires a == 60000 * q + r && 0 <= r < 60000
    ensures a % 60000 == r
  {
  }

  /** For a non-negative elapsed time the truncating components are the Euclidean ones. */
  lemma ComponentsOfNonNegative(rd: RemoteData, now: int)
    requires now - rd.updatedAt >= 0
    ensures var r, d := UpdateInnerTiming(rd, now), now - rd.updatedAt;
      && r.hoursSince.value == d / HOUR
      && r.minutesSince.value == d % HOUR / MINUTE
      && r.secondsSince.value == d % MINUTE / SECOND
  {
    var d := now - rd.updatedAt;
    QuotRemNonNegative(d, HOUR);
    QuotRemNonNegative(d % HOUR, MINUTE);
    QuotRemNonNegative(d % HOUR % MINUTE, SECOND);
    HourRemMinute(d);
  }

  /** The label the components of a non-negative elapsed time select, range by range. */
  lemma LabelBelowSixSeconds(d: int)
    requires 0 <= d < 6000
    ensures AgeLabel(d / 3600000, d % 3600000 / 60000, d % 60000 / 1000) == JUST_NOW
  {
    assert d / 3600000 == 0 && d % 3600000 == d && d % 60000 == d;
    assert d / 1000 <= 5;
  }

  lemma LabelBelowMinute(d: int)
    requires 6000 <= d < 60000
    ensures AgeLabel(d / 3600000, d % 3600000 / 60000, d % 60000 / 1000) == NatToString(d / 1000) + "s ago"
  {
    assert d / 3600000 == 0 && d % 3600000 == d && d % 60000 == d;
    assert d / 1000 > 5;
  }

  lemma LabelBelowHour(d: int)
    requires 60000 <= d < 3600000
    ensures AgeLabel(d / 3600000, d % 3600000 / 60000, d % 60000 / 1000)
         == NatToString(d / 60000) + "m " + NatToString(d % 60000 / 1000) + "s ago"
  {
    assert d / 3600000 == 0 && d % 3600000 == d;
    assert d / 60000 > 0;
  }

  lemma LabelFromHour(d: int)
    requires 3600000 <= d
    ensures AgeLabel(d / 3600000, d % 3600000 / 60000, d % 60000 / 1000)
         == NatToString(d / 3600000) + "h " + NatToString(d % 3600000 / 60000) + "m "
            + NatToString(d % 60000 / 1000) + "s ago"
  {
    assert d / 3600000 > 0;
  }

  /** The label `generate_update_label` stores agrees with the range reading, negatives included. */
  lemma GenerateUpdateLabelIsReference(rd: RemoteData, now: int)
    ensures GenerateUpdateLabel(rd, now).labelText == ReferenceLabel(now - rd.updatedAt)
  {
    var d := now - rd.updatedAt;
    var r := UpdateInnerTiming(rd, now);
    assert GenerateUpdateLabel(rd, now).labelText
        == AgeLabel(r.hoursSince.value, r.minutesSince.value, r.secondsSince.value);
    if d >= 0 {
      ComponentsOfNonNegative(rd, now);
      if d < 6000 {
        LabelBelowSixSeconds(d);
      } else if d < 60000 {
        LabelBelowMinute(d);
      } else if d < 3600000 {
        LabelBelowHour(d);
      } else {
        LabelFromHour(d);
      }
    }
  }

  /** A negative elapsed time reads "Just now". */
  lemma NegativeIsJustNow(rd: RemoteData, now: int)
    requires now < rd.updatedAt
    ensures GenerateUpdateLabel(rd, now).labelText == JUST_NOW
  {
    GenerateUpdateLabelIsReference(rd, now);
  }

  /**
   The four-way choice over the stored components: hours when there are
   any, minutes when there are no hours, seconds above five when there are
   neither, else "Just now".
   */
  lemma GenerateUpdateLabelCases(rd: RemoteData, now: int)
    ensures var r := GenerateUpdateLabel(rd, now);
      var h, m, s := r.hoursSince.value, r.minutesSince.value, r.secondsSince.value;
      && (h > 0 ==> r.labelText == NatToString(h) + "h " + NatToString(m) + "m " + NatToString(s) + "s ago")
      && (h == 0 && m > 0 ==> r.labelText == NatToString(m) + "m " + NatToString(s) + "s ago")
      && (h == 0 && m == 0 && s > 5 ==> r.labelText == NatToString(s) + "s ago")
      && (h <= 0 && (h < 0 || m <= 0) && (h < 0 || m < 0 || s <= 5) ==> r.labelText == JUST_NOW)
  {
  }

  /** The stored label always has the shape `^(((\d+h )?\d+m )?\d+s ago|Just now)$`. */
  lemma GenerateUpdateLabelShape(rd: RemoteData, now: int)
    ensures AgoShape(GenerateUpdateLabel(rd, now).labelText)
  {
    var r := UpdateInnerTiming(rd, now);
    AgeLabelShape(r.hoursSince.value, r.minutesSince.value, r.secondsSince.value);
  }
}
