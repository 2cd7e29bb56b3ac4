/** `new Date(t).toISOString()` for an integral time value `t` (milliseconds
    since 1970-01-01T00:00:00Z): the proleptic Gregorian calendar, UTC, and
    the format `YYYY-MM-DDTHH:mm:ss.sssZ` (six-digit signed years outside
    0000..9999). A time value beyond ±8.64e15 ms is an invalid date, for which
    `toISOString` throws a RangeError; here that is `None`. */
module IsoTime {
  import opened Decimal
  import opened JsValues

  const MsPerDay: int := 86_400_000
  const MaxTimeValue: int := 8_640_000_000_000_000

  predicate IsLeapYear(y: int) {
    y % 4 == 0 && (y % 100 != 0 || y % 400 == 0)
  }

  function DaysInYear(y: int): (n: nat)
    ensures 365 <= n <= 366
  {
    if IsLeapYear(y) then 366 else 365
  }

  /** Days before the first of each month in a common year; the last entry
      is the length of the year. */
  const CumulativeDays: seq<nat> := [0, 31, 59, 90, 120, 151, 181, 212, 243, 273, 304, 334, 365]

  /** Days of year `y` before the first of month `m` (13 stands for the end). */
  function MonthStart(y: int, m: int): nat
    requires 1 <= m <= 13
  {
    CumulativeDays[m - 1] + (if m > 2 && IsLeapYear(y) then 1 else 0)
  }

  function DaysInMonth(y: int, m: int): (n: nat)
    requires 1 <= m <= 12
    ensures 28 <= n <= 31
  {
    if m == 2 then (if IsLeapYear(y) then 29 else 28)
    else if m == 4 || m == 6 || m == 9 || m == 11 then 30
    else 31
  }

  lemma MonthStartStep(y: int, m: int)
    requires 1 <= m <= 12
    ensures MonthStart(y, m + 1) == MonthStart(y, m) + DaysInMonth(y, m)
    ensures MonthStart(y, 13) == DaysInYear(y)
  {
  }

  /** Day number (days since 1970-01-01) of January 1st of year `y`. */
  function YearStart(y: int): int
    decreases if y < 1970 then 1970 - y else y - 1970
  {
    if y == 1970 then 0
    else if y > 1970 then YearStart(y - 1) + DaysInYear(y - 1)
    else YearStart(y + 1) - DaysInYear(y)
  }

  lemma YearStartStep(y: int)
    ensures YearStart(y + 1) == YearStart(y) + DaysInYear(y)
  {
  }

  /** The year holding day `day`, searched upwards from year `y`. */
  function YearUp(day: int, y: int): (r: int)
    requires YearStart(y) <= day
    ensures YearStart(r) <= day < YearStart(r + 1)
    decreases day - YearStart(y)
  {
    YearStartStep(y);
    if day < YearStart(y + 1) then y else YearUp(day, y + 1)
  }

  /** The year holding day `day`, searched downwards from year `y`. */
  function YearDown(day: int, y: int): (r: int)
    requires day < YearStart(y + 1)
    ensures YearStart(r) <= day < YearStart(r + 1)
    decreases YearStart(y + 1) - day
  {
    YearStartStep(y);
    if YearStart(y) <= day then y else YearDown(day, y - 1)
  }

  function YearOfDay(day: int): (y: int)
    ensures YearStart(y) <= day < YearStart(y + 1)
  {
    if day >= 0 then YearUp(day, 1970) else YearDown(day, 1969)
  }

  /** The month of year `y` holding day-of-year `doy`, searched from `m`. */
  function MonthFrom(y: int, doy: int, m: int): (r: int)
    requires 1 <= m <= 12 && MonthStart(y, m) <= doy < DaysInYear(y)
    ensures m <= r <= 12
    ensures MonthStart(y, r) <= doy < MonthStart(y, r) + DaysInMonth(y, r)
    decreases 12 - m
  {
    MonthStartStep(y, m);
    if doy < MonthStart(y, m + 1) then m else MonthFrom(y, doy, m + 1)
  }

  /** A broken-down UTC date and time. */
  datatype DateTime = DateTime(year: int, month: nat, day: nat, hour: nat, minute: nat, second: nat, millis: nat)

  predicate ValidDateTime(f: DateTime) {
    1 <= f.month <= 12 && 1 <= f.day <= DaysInMonth(f.year, f.month)
    && f.hour < 24 && f.minute < 60 && f.second < 60 && f.millis < 1000
  }

  /** The time value a broken-down date and time stands for. */
  function TimeValue(f: DateTime): int
    requires ValidDateTime(f)
  {
    (YearStart(f.year) + MonthStart(f.year, f.month) + f.day - 1) * MsPerDay
      + ((f.hour * 60 + f.minute) * 60 + f.second) * 1000 + f.millis
  }

  /** Breaks a time value into calendar fields; days are counted with floor
      division, so times before 1970 fall on the right day. */
  function Decompose(t: int): (f: DateTime)
    ensures ValidDateTime(f)
    ensures TimeValue(f) == t
  {
    var day := t / MsPerDay;
    var msInDay := t % MsPerDay;
    var y := YearOfDay(day);
    YearStartStep(y);
    var doy := day - YearStart(y);
    var m := MonthFrom(y, doy, 1);
    var secs := msInDay / 1000;
    var mins := secs / 60;
    DateTime(y, m, doy - MonthStart(y, m) + 1, mins / 60, mins % 60, secs % 60, msInDay % 1000)
  }

  /** Year field: four digits for 0..9999, otherwise a sign and six digits. */
  function YearText(y: int): (s: string)
    ensures |s| == (if 0 <= y <= 9999 then 4 else 7)
  {
    if 0 <= y <= 9999 then PadDigits(y, 4)
    else if y < 0 then "-" + PadDigits(-y, 6)
    else "+" + PadDigits(y, 6)
  }

  /** Everything after the year: `-MM-DDTHH:mm:ss.sssZ`. */
  function TailText(f: DateTime): (s: string)
    ensures |s| == 20
  {
    "-" + PadDigits(f.month, 2) + "-" + PadDigits(f.day, 2)
      + "T" + PadDigits(f.hour, 2) + ":" + PadDigits(f.minute, 2) + ":" + PadDigits(f.second, 2)
      + "." + PadDigits(f.millis, 3) + "Z"
  }

  function DateTimeText(f: DateTime): string {
    YearText(f.year) + TailText(f)
  }

  /** `new Date(t).toISOString()`: `None` where JavaScript throws a
      RangeError (the time value is outside ±8.64e15 ms). */
  function ToIsoString(t: int): (r: Option<string>)
    ensures r.None? <==> t < -MaxTimeValue || t > MaxTimeValue
    ensures r.Some? ==> |r.value| == 24 || |r.value| == 27
    ensures r.Some? ==> r.value[|r.value| - 1] == 'Z'
  {
    if -MaxTimeValue <= t <= MaxTimeValue then Some(DateTimeText(Decompose(t))) else None
  }

  /** Reads back the fields after the year of an ISO string. */
  function ParseTail(y: int, s: string): Option<int> {
    if |s| == 20 && s[0] == '-' && s[3] == '-' && s[6] == 'T' && s[9] == ':' && s[12] == ':'
      && s[15] == '.' && s[19] == 'Z'
      && AllDigits(s[1..3]) && AllDigits(s[4..6]) && AllDigits(s[7..9]) && AllDigits(s[10..12])
      && AllDigits(s[13..15]) && AllDigits(s[16..19])
    then
      var f := DateTime(y, ParseNat(s[1..3]), ParseNat(s[4..6]), ParseNat(s[7..9]),
                        ParseNat(s[10..12]), ParseNat(s[13..15]), ParseNat(s[16..19]));
      if ValidDateTime(f) then Some(TimeValue(f)) else None
    else None
  }

  /** Reads an ISO string of either year form back into a time value. */
  function ParseIso(s: string): Option<int> {
    if |s| == 24 && AllDigits(s[..4]) then ParseTail(ParseNat(s[..4]), s[4..])
    else if |s| == 27 && (s[0] == '+' || s[0] == '-') && AllDigits(s[1..7]) then
      ParseTail(if s[0] == '-' then -(ParseNat(s[1..7]) as int) else ParseNat(s[1..7]), s[7..])
    else None
  }

  lemma {:induction false} YearStartAbove(y: int)
    ensures y >= 1970 ==> YearStart(y) >= 365 * (y - 1970)
    decreases if y > 1970 then y - 1970 else 0
  {
    if y > 1970 {
      YearStartAbove(y - 1);
    }
  }

  lemma {:induction false} YearStartBelow(y: int)
    ensures y <= 1970 ==> YearStart(y) <= -365 * (1970 - y)
    decreases if y < 1970 then 1970 - y else 0
  {
    if y < 1970 {
      YearStartBelow(y + 1);
    }
  }

  /** Valid time values span about ±273,790 years around 1970, so six digits
      always hold the year. */
  lemma YearBound(t: int)
    requires -MaxTimeValue <= t <= MaxTimeValue
    ensures -1_000_000 < Decompose(t).year < 1_000_000
  {
    var y := Decompose(t).year;
    var day := t / MsPerDay;
    assert YearStart(y) <= day < YearStart(y + 1);
    assert -100_000_000 <= day <= 100_000_000;
    YearStartAbove(y);
    YearStartBelow(y + 1);
  }

  /** Where each field sits in the text after the year. */
  lemma TailFields(f: DateTime)
    ensures var s := TailText(f);
      s[0] == '-' && s[3] == '-' && s[6] == 'T' && s[9] == ':' && s[12] == ':' && s[15] == '.' && s[19] == 'Z'
      && s[1..3] == PadDigits(f.month, 2) && s[4..6] == PadDigits(f.day, 2)
      && s[7..9] == PadDigits(f.hour, 2) && s[10..12] == PadDigits(f.minute, 2)
      && s[13..15] == PadDigits(f.second, 2) && s[16..19] == PadDigits(f.millis, 3)
  {
    TailLayout(PadDigits(f.month, 2), PadDigits(f.day, 2), PadDigits(f.hour, 2),
               PadDigits(f.minute, 2), PadDigits(f.second, 2), PadDigits(f.millis, 3));
  }

  lemma TailLayout(mo: string, d: string, h: string, mi: string, se: string, ms: string)
    requires |mo| == |d| == |h| == |mi| == |se| == 2 && |ms| == 3
    ensures var s := "-" + mo + "-" + d + "T" + h + ":" + mi + ":" + se + "." + ms + "Z";
      s[0] == '-' && s[3] == '-' && s[6] == 'T' && s[9] == ':' && s[12] == ':' && s[15] == '.' && s[19] == 'Z'
      && s[1..3] == mo && s[4..6] == d && s[7..9] == h && s[10..12] == mi && s[13..15] == se && s[16..19] == ms
      && s == ['-', mo[0], mo[1], '-', d[0], d[1], 'T', h[0], h[1], ':', mi[0], mi[1], ':',
               se[0], se[1], '.', ms[0], ms[1], ms[2], 'Z']
  {
    var s := "-" + mo + "-" + d + "T" + h + ":" + mi + ":" + se + "." + ms + "Z";
    var display := ['-', mo[0], mo[1], '-', d[0], d[1], 'T', h[0], h[1], ':', mi[0], mi[1], ':',
                    se[0], se[1], '.', ms[0], ms[1], ms[2], 'Z'];
    assert s == display;
    assert display[1..3] == mo && display[4..6] == d && display[7..9] == h;
    assert display[10..12] == mi && display[13..15] == se && display[16..19] == ms;
  }

  lemma TailRoundTrip(f: DateTime)
    requires ValidDateTime(f)
    ensures ParseTail(f.year, TailText(f)) == Some(TimeValue(f))
  {
    TailFields(f);
    assert Pow10(2) == 100 && Pow10(3) == 1000;
    ParsePadDigitsExact(f.month, 2);
    ParsePadDigitsExact(f.day, 2);
    ParsePadDigitsExact(f.hour, 2);
    ParsePadDigitsExact(f.minute, 2);
    ParsePadDigitsExact(f.second, 2);
    ParsePadDigitsExact(f.millis, 3);
  }

  /** Reading the ISO string back gives the time value it was made from:
      the rendering loses nothing and the calendar arithmetic is exact. */
  lemma IsoRoundTrip(t: int)
    requires -MaxTimeValue <= t <= MaxTimeValue
    ensures ToIsoString(t).Some? && ParseIso(ToIsoString(t).value) == Some(t)
  {
    var f := Decompose(t);
    var s := ToIsoString(t).value;
    var yt := YearText(f.year);
    assert s == yt + TailText(f);
    TailRoundTrip(f);
    YearBound(t);
    assert Pow10(4) == 10_000 && Pow10(6) == 1_000_000;
    if 0 <= f.year <= 9999 {
      assert s[..4] == yt && s[4..] == TailText(f);
      ParsePadDigitsExact(f.year, 4);
    } else if f.year < 0 {
      assert s[1..7] == PadDigits(-f.year, 6) && s[7..] == TailText(f);
      ParsePadDigitsExact(-f.year, 6);
    } else {
      assert s[1..7] == PadDigits(f.year, 6) && s[7..] == TailText(f);
      ParsePadDigitsExact(f.year, 6);
    }
  }

  lemma DigitsHaveNoSpace(s: string)
    requires AllDigits(s)
    ensures ' ' !in s
  {
  }

  /** An ISO timestamp is a single syslog header field: it holds no space. */
  lemma IsoHasNoSpace(t: int)
    requires ToIsoString(t).Some?
    ensures ' ' !in ToIsoString(t).value
  {
    var f := Decompose(t);
    var y := f.year;
    DigitsHaveNoSpace(PadDigits(if y < 0 then -y else y, if 0 <= y <= 9999 then 4 else 6));
    DigitsHaveNoSpace(PadDigits(f.month, 2));
    DigitsHaveNoSpace(PadDigits(f.day, 2));
    DigitsHaveNoSpace(PadDigits(f.hour, 2));
    DigitsHaveNoSpace(PadDigits(f.minute, 2));
    DigitsHaveNoSpace(PadDigits(f.second, 2));
    DigitsHaveNoSpace(PadDigits(f.millis, 3));
  }

  /** The epoch itself. */
  lemma EpochText()
    ensures ToIsoString(0) == Some("1970-01-01T00:00:00.000Z")
  {
    var f := Decompose(0);
    EpochFields();
    EpochYear();
    EpochTail();
    assert "1970" + "-01-01T00:00:00.000Z" == "1970-01-01T00:00:00.000Z";
  }

  lemma EpochFields() ensures Decompose(0) == DateTime(1970, 1, 1, 0, 0, 0, 0) {
    assert YearStart(1971) == 365;
  }

  lemma EpochYear() ensures YearText(1970) == "1970" {
    assert PadDigits(1, 1) == "1";
    assert PadDigits(19, 2) == "19";
    assert PadDigits(197, 3) == "197";
  }

  lemma EpochTail() ensures TailText(DateTime(1970, 1, 1, 0, 0, 0, 0)) == "-01-01T00:00:00.000Z" {
    PadSmall();
    TailLayout("01", "01", "00", "00", "00", "000");
  }

  lemma PadSmall() ensures PadDigits(1, 2) == "01" && PadDigits(0, 2) == "00" && PadDigits(0, 3) == "000" {
    assert PadDigits(0, 1) == "0";
    assert PadDigits(1, 1) == "1";
  }
}
