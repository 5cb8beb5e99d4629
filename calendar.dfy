/** Dates, times and the minute-precision timestamps that key the rate series,
    with the "%Y-%m-%d" and "%Y-%m-%d %H:%M" renderings used for file names
    and the DATE column. */
module Calendar {
  import opened Wrappers
  import opened Text

  // The ranges of Python's datetime fields. Calendar validity (no 30 February)
  // is the parser's business and plays no part in formatting or ordering.
  type Year = y: int | 1 <= y <= 9999 witness 1
  type Month = m: int | 1 <= m <= 12 witness 1
  type Day = d: int | 1 <= d <= 31 witness 1
  type Hour = h: int | 0 <= h <= 23
  type Minute = m: int | 0 <= m <= 59
  type Second = s: int | 0 <= s <= 59
  type Microsecond = u: int | 0 <= u <= 999999

  datatype Date = Date(year: Year, month: Month, day: Day)
  datatype Time = Time(hour: Hour, minute: Minute, second: Second, microsecond: Microsecond)

  /** datetime.combine(date, time) */
  datatype DateTime = DateTime(date: Date, time: Time)

  /** What survives of a datetime in the DATE column: date, hour and minute. */
  datatype Stamp = Stamp(date: Date, hour: Hour, minute: Minute)

  function StampOf(dt: DateTime): (s: Stamp)
    ensures s.date == dt.date && s.hour == dt.time.hour && s.minute == dt.time.minute
  {
    Stamp(dt.date, dt.time.hour, dt.time.minute)
  }

  /** Chronological order of timestamps, the order datetime comparison gives. */
  predicate Before(a: Stamp, b: Stamp) {
    || a.date.year < b.date.year
    || (a.date.year == b.date.year && a.date.month < b.date.month)
    || (a.date.year == b.date.year && a.date.month == b.date.month && a.date.day < b.date.day)
    || (a.date == b.date && a.hour < b.hour)
    || (a.date == b.date && a.hour == b.hour && a.minute < b.minute)
  }

  /** Before is a strict total order. */
  lemma BeforeIsStrictTotalOrder(a: Stamp, b: Stamp, c: Stamp)
    ensures !Before(a, a)
    ensures Before(a, b) && Before(b, c) ==> Before(a, c)
    ensures a != b ==> Before(a, b) || Before(b, a)
    ensures !(Before(a, b) && Before(b, a))
  {
  }

  /** strftime("%Y-%m-%d") */
  function FormatDate(d: Date): (t: string)
    ensures |t| == 10
  {
    Pad4(d.year) + "-" + Pad2(d.month) + "-" + Pad2(d.day)
  }

  /** strftime("%Y-%m-%d %H:%M"): the text of the DATE column. */
  function FormatStamp(s: Stamp): (t: string)
    ensures |t| == 16
  {
    FormatDate(s.date) + " " + Pad2(s.hour) + ":" + Pad2(s.minute)
  }

  function Digits2At(t: string, i: nat): (n: nat)
    requires i + 2 <= |t| && IsDigit(t[i]) && IsDigit(t[i + 1])
    ensures n < 100
  {
    DigitValue(t[i]) * 10 + DigitValue(t[i + 1])
  }

  /** strptime(t, "%Y-%m-%d %H:%M") for the canonical zero-padded text, None
      where strptime raises. */
  function ReadStamp(t: string): (r: Option<Stamp>)
    ensures r.Some? ==> |t| == 16
  {
    if |t| != 16 || t[4] != '-' || t[7] != '-' || t[10] != ' ' || t[13] != ':' then None
    else if !(IsDigit(t[0]) && IsDigit(t[1]) && IsDigit(t[2]) && IsDigit(t[3])
              && IsDigit(t[5]) && IsDigit(t[6]) && IsDigit(t[8]) && IsDigit(t[9])
              && IsDigit(t[11]) && IsDigit(t[12]) && IsDigit(t[14]) && IsDigit(t[15])) then None
    else
      var y := Digits2At(t, 0) * 100 + Digits2At(t, 2);
      var mo, d, h, mi := Digits2At(t, 5), Digits2At(t, 8), Digits2At(t, 11), Digits2At(t, 14);
      if 1 <= y && 1 <= mo <= 12 && 1 <= d <= 31 && h <= 23 && mi <= 59 then
        Some(Stamp(Date(y, mo, d), h, mi))
      else None
  }

  /** Reading back a formatted timestamp gives it back. */
  lemma ReadFormatStamp(s: Stamp)
    ensures ReadStamp(FormatStamp(s)) == Some(s)
  {
    var t := FormatStamp(s);
    var y, mo, d := Pad4(s.date.year), Pad2(s.date.month), Pad2(s.date.day);
    var h, mi := Pad2(s.hour), Pad2(s.minute);
    assert t == y + "-" + mo + "-" + d + " " + h + ":" + mi;
    assert t[0] == y[0] && t[1] == y[1] && t[2] == y[2] && t[3] == y[3];
    assert t[5] == mo[0] && t[6] == mo[1] && t[8] == d[0] && t[9] == d[1];
    assert t[11] == h[0] && t[12] == h[1] && t[14] == mi[0] && t[15] == mi[1];
  }

  lemma Pad2OfDigits(t: string, i: nat)
    requires i + 2 <= |t| && IsDigit(t[i]) && IsDigit(t[i + 1])
    ensures Pad2(Digits2At(t, i)) == t[i..i + 2]
  {
    var n := Digits2At(t, i);
    assert n / 10 == DigitValue(t[i]) && n % 10 == DigitValue(t[i + 1]);
  }

  /** Every text strptime accepts here is the rendering of what it reads. */
  lemma FormatReadStamp(t: string)
    requires ReadStamp(t).Some?
    ensures FormatStamp(ReadStamp(t).value) == t
  {
    var s := ReadStamp(t).value;
    var yHi, yLo := Digits2At(t, 0), Digits2At(t, 2);
    assert s.date.year == yHi * 100 + yLo;
    assert s.date.year / 100 == yHi && s.date.year % 100 == yLo;
    Pad2OfDigits(t, 0);
    Pad2OfDigits(t, 2);
    Pad2OfDigits(t, 5);
    Pad2OfDigits(t, 8);
    Pad2OfDigits(t, 11);
    Pad2OfDigits(t, 14);
    assert Pad4(s.date.year) == t[..4];
    assert t == t[..4] + "-" + t[5..7] + "-" + t[8..10] + " " + t[11..13] + ":" + t[14..16];
  }

  /** Two timestamps with the same DATE text are the same timestamp, so
      grouping rows by the text groups them by timestamp. */
  lemma FormatStampInjective(a: Stamp, b: Stamp)
    ensures FormatStamp(a) == FormatStamp(b) <==> a == b
  {
    ReadFormatStamp(a);
    ReadFormatStamp(b);
  }
}
