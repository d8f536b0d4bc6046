/** Conversion of NDFD `start-valid-time` stamps to UTC in the Python 2
    script (noaa_forecast/get_noaa_forecast.py:171-179): `strptime` of the
    first 19 characters, an offset read from character 20 on, subtraction of
    that offset, and `str()` of the resulting `datetime`. Dates follow the
    proleptic Gregorian calendar of Python's `datetime`, years 1 to 9999. */
module Timestamps {

  import opened Wrappers
  import opened Text

  datatype Date = Date(year: int, month: int, day: int)

  /** A naive (offset-free) `datetime` with whole seconds. */
  datatype DateTime = DateTime(date: Date, hour: int, minute: int, second: int)

  predicate IsLeap(y: int)
  {
    y % 4 == 0 && (y % 100 != 0 || y % 400 == 0)
  }

  function DaysInMonth(y: int, m: int): int
  {
    if m == 2 then (if IsLeap(y) then 29 else 28)
    else if m == 4 || m == 6 || m == 9 || m == 11 then 30
    else 31
  }

  function DaysInYear(y: int): int
  {
    if IsLeap(y) then 366 else 365
  }

  /** The dates `datetime.date` accepts (MINYEAR 1 to MAXYEAR 9999). */
  predicate ValidDate(d: Date)
  {
    1 <= d.year <= 9999 && 1 <= d.month <= 12 && 1 <= d.day <= DaysInMonth(d.year, d.month)
  }

  predicate Valid(dt: DateTime)
  {
    ValidDate(dt.date) && 0 <= dt.hour < 24 && 0 <= dt.minute < 60 && 0 <= dt.second < 60
  }

  const MinDate := Date(1, 1, 1)
  const MaxDate := Date(9999, 12, 31)

  // ---------------------------------------------------------------------
  // Day counting: the reference against which the calendar steps are proved
  // ---------------------------------------------------------------------

  /** Days in the years before `y`: 365 each, plus the leap days of the
      Gregorian rule. */
  function DaysBeforeYear(y: int): int
  {
    var p := y - 1;
    365 * p + p / 4 - p / 100 + p / 400
  }

  function DaysBeforeMonth(y: int, m: int): int
    decreases m
  {
    if m <= 1 then 0 else DaysBeforeMonth(y, m - 1) + DaysInMonth(y, m - 1)
  }

  /** `date.toordinal()`: day 1 is 0001-01-01. */
  function Ordinal(d: Date): int
  {
    DaysBeforeYear(d.year) + DaysBeforeMonth(d.year, d.month) + d.day
  }

  /** Minutes since the start of day 0 of the ordinal count. */
  function AbsMinutes(dt: DateTime): int
  {
    Ordinal(dt.date) * 1440 + dt.hour * 60 + dt.minute
  }

  // ---------------------------------------------------------------------
  // Calendar arithmetic
  // ---------------------------------------------------------------------

  function NextDay(d: Date): Date
  {
    if d.day < DaysInMonth(d.year, d.month) then d.(day := d.day + 1)
    else if d.month < 12 then Date(d.year, d.month + 1, 1)
    else Date(d.year + 1, 1, 1)
  }

  function PrevDay(d: Date): Date
  {
    if d.day > 1 then d.(day := d.day - 1)
    else if d.month > 1 then Date(d.year, d.month - 1, DaysInMonth(d.year, d.month - 1))
    else Date(d.year - 1, 12, 31)
  }

  /** `d + timedelta(days = k)`, or `None` for the OverflowError raised when
      the result leaves years 1 to 9999. */
  function AddDays(d: Date, k: int): Option<Date>
    decreases if k < 0 then -k else k
  {
    if k == 0 then Some(d)
    else if k > 0 then (if d == MaxDate then None else AddDays(NextDay(d), k - 1))
    else (if d == MinDate then None else AddDays(PrevDay(d), k + 1))
  }

  /** `dt + timedelta(minutes = delta)`: the minute of the day moves by
      `delta` and the day by the whole days carried (floor division). */
  function Shift(dt: DateTime, delta: int): (r: Option<DateTime>)
    requires Valid(dt)
    ensures r.Some? ==> Valid(r.value)
  {
    ShiftTo(dt, dt.hour * 60 + dt.minute + delta)
  }

  /** `dt`'s date advanced by `total / 1440` days, at minute `total % 1440`
      of that day, with `dt`'s seconds. */
  function ShiftTo(dt: DateTime, total: int): (r: Option<DateTime>)
    requires Valid(dt)
    ensures r.Some? ==> Valid(r.value)
  {
    AddDaysExact(dt.date, total / 1440);
    if AddDays(dt.date, total / 1440).None? then None
    else Some(DateTime(AddDays(dt.date, total / 1440).value,
                       (total % 1440) / 60, (total % 1440) % 60, dt.second))
  }

  lemma YearLength(y: int)
    ensures DaysBeforeMonth(y, 12) + 31 == DaysInYear(y)
  {
    assert DaysBeforeMonth(y, 2) == 31;
    assert DaysBeforeMonth(y, 3) == 31 + DaysInMonth(y, 2);
    assert DaysBeforeMonth(y, 6) == DaysBeforeMonth(y, 3) + 92;
    assert DaysBeforeMonth(y, 9) == DaysBeforeMonth(y, 6) + 92;
    assert DaysBeforeMonth(y, 12) == DaysBeforeMonth(y, 9) + 91;
  }

  lemma DivStep(y: int)
    ensures y / 4 - (y - 1) / 4 == if y % 4 == 0 then 1 else 0
    ensures y / 100 - (y - 1) / 100 == if y % 100 == 0 then 1 else 0
    ensures y / 400 - (y - 1) / 400 == if y % 400 == 0 then 1 else 0
  {
  }

  lemma Multiples(z: int)
    ensures (4 * z) % 4 == 0 && (100 * z) % 100 == 0
  {
  }

  /** The closed form counts a year's own length. */
  lemma YearStep(y: int)
    ensures DaysBeforeYear(y + 1) == DaysBeforeYear(y) + DaysInYear(y)
  {
    var a, b, c := y / 4 - (y - 1) / 4, y / 100 - (y - 1) / 100, y / 400 - (y - 1) / 400;
    assert DaysBeforeYear(y + 1) - DaysBeforeYear(y) == 365 + a - b + c;
    DivStep(y);
    if y % 400 == 0 {
      assert y == 100 * (4 * (y / 400));
      Multiples(4 * (y / 400));
      assert y == 4 * (100 * (y / 400));
      Multiples(100 * (y / 400));
    } else if y % 100 == 0 {
      assert y == 4 * (25 * (y / 100));
      Multiples(25 * (y / 100));
    }
  }

  lemma NextDayOrdinal(d: Date)
    requires ValidDate(d) && d != MaxDate
    ensures ValidDate(NextDay(d)) && Ordinal(NextDay(d)) == Ordinal(d) + 1
  {
    if d.day >= DaysInMonth(d.year, d.month) && d.month == 12 {
      YearLength(d.year);
      YearStep(d.year);
    }
  }

  lemma PrevDayOrdinal(d: Date)
    requires ValidDate(d) && d != MinDate
    ensures ValidDate(PrevDay(d)) && Ordinal(PrevDay(d)) == Ordinal(d) - 1
  {
    if d.day > 1 {
      assert PrevDay(d) == Date(d.year, d.month, d.day - 1);
    } else if d.month > 1 {
      MonthStartOrdinal(d.year, d.month);
    } else {
      NewYearOrdinal(d.year);
    }
  }

  /** The day before the first of a month is the last day of the month
      before. */
  lemma MonthStartOrdinal(y: int, m: int)
    requires 1 < m <= 12
    ensures 28 <= DaysInMonth(y, m - 1) <= 31
    ensures Ordinal(Date(y, m - 1, DaysInMonth(y, m - 1))) == Ordinal(Date(y, m, 1)) - 1
  {
  }

  /** The day before 1 January is 31 December of the year before. */
  lemma NewYearOrdinal(y: int)
    requires 1 < y <= 9999
    ensures Ordinal(Date(y - 1, 12, 31)) == Ordinal(Date(y, 1, 1)) - 1
  {
    YearLength(y - 1);
    YearStep(y - 1);
  }

  lemma {:induction false} DaysBeforeMonthMono(y: int, m: int, m': int)
    requires m <= m'
    ensures DaysBeforeMonth(y, m) <= DaysBeforeMonth(y, m')
    decreases m' - m
  {
    if m < m' {
      DaysBeforeMonthMono(y, m, m' - 1);
    }
  }

  lemma {:induction false} DaysBeforeYearMono(y: int, y': int)
    requires y <= y'
    ensures DaysBeforeYear(y) <= DaysBeforeYear(y')
    decreases y' - y
  {
    if y < y' {
      DaysBeforeYearMono(y, y' - 1);
      YearStep(y' - 1);
    }
  }

  /** Every valid date has an ordinal between those of 0001-01-01 and
      9999-12-31. */
  lemma OrdinalBounds(d: Date)
    requires ValidDate(d)
    ensures Ordinal(MinDate) <= Ordinal(d) <= Ordinal(MaxDate)
  {
    OrdinalInYear(d);
    DaysBeforeYearMono(1, d.year);
    DaysBeforeYearMono(d.year + 1, 10000);
    MaxOrdinal();
  }

  /** A valid date falls after the days of the years before it and within
      the days up to the end of its own year. */
  lemma OrdinalInYear(d: Date)
    requires ValidDate(d)
    ensures DaysBeforeYear(d.year) < Ordinal(d) <= DaysBeforeYear(d.year + 1)
  {
    DaysBeforeMonthMono(d.year, 1, d.month);
    DaysBeforeMonthMono(d.year, d.month + 1, 13);
    assert DaysBeforeMonth(d.year, d.month + 1) == DaysBeforeMonth(d.year, d.month) + DaysInMonth(d.year, d.month);
    assert DaysBeforeMonth(d.year, 13) == DaysBeforeMonth(d.year, 12) + 31;
    YearLength(d.year);
    YearStep(d.year);
  }

  /** 9999-12-31 is the last day before year 10000. */
  lemma MaxOrdinal()
    ensures Ordinal(MaxDate) == DaysBeforeYear(10000)
  {
    YearLength(9999);
    YearStep(9999);
  }

  /** Adding `k` days moves the ordinal by exactly `k`, and fails exactly when
      the target ordinal lies outside the supported range. */
  lemma {:induction false} AddDaysExact(d: Date, k: int)
    requires ValidDate(d)
    ensures AddDays(d, k).Some? <==> Ordinal(MinDate) <= Ordinal(d) + k <= Ordinal(MaxDate)
    ensures AddDays(d, k).Some? ==>
              ValidDate(AddDays(d, k).value) && Ordinal(AddDays(d, k).value) == Ordinal(d) + k
    decreases if k < 0 then -k else k
  {
    OrdinalBounds(d);
    if k > 0 {
      if d != MaxDate {
        NextDayOrdinal(d);
        AddDaysExact(NextDay(d), k - 1);
      }
    } else if k < 0 {
      if d != MinDate {
        PrevDayOrdinal(d);
        AddDaysExact(PrevDay(d), k + 1);
      }
    }
  }

  /** Shifting by `delta` minutes moves the absolute minute count by exactly
      `delta` and keeps the seconds; it fails exactly when the result would
      fall outside 0001-01-01 00:00 to 9999-12-31 23:59. */
  lemma ShiftExact(dt: DateTime, delta: int)
    requires Valid(dt)
    ensures Shift(dt, delta).Some? <==>
              Ordinal(MinDate) <= (AbsMinutes(dt) + delta) / 1440 <= Ordinal(MaxDate)
    ensures Shift(dt, delta).Some? ==>
              Valid(Shift(dt, delta).value) &&
              AbsMinutes(Shift(dt, delta).value) == AbsMinutes(dt) + delta &&
              Shift(dt, delta).value.second == dt.second
  {
    var total := dt.hour * 60 + dt.minute + delta;
    var q, r := total / 1440, total % 1440;
    assert total == 1440 * q + r && 0 <= r < 1440;
    var o := Ordinal(dt.date);
    assert AbsMinutes(dt) + delta == 1440 * (o + q) + r;
    assert (AbsMinutes(dt) + delta) / 1440 == o + q;
    AddDaysExact(dt.date, q);
    assert r == (r / 60) * 60 + r % 60;
  }

  // ---------------------------------------------------------------------
  // Text forms
  // ---------------------------------------------------------------------

  /** `isoformat(sep)` of a valid `datetime` with no microseconds:
      `YYYY-MM-DD<sep>HH:MM:SS`, every field zero-padded. */
  function Render(dt: DateTime, sep: char): string
    requires Valid(dt)
  {
    Digits(dt.date.year, 4) + "-" + Digits(dt.date.month, 2) + "-" + Digits(dt.date.day, 2) +
    [sep] + Digits(dt.hour, 2) + ":" + Digits(dt.minute, 2) + ":" + Digits(dt.second, 2)
  }

  /** `str(datetime)`, the form the Python 2 script stores. */
  function FormatStamp(dt: DateTime): string
    requires Valid(dt)
  {
    Render(dt, ' ')
  }

  /** `datetime.strptime(s, '%Y-%m-%dT%H:%M:%S')` for a string of 19
      characters, the length `time[:19]` has whenever the conversion can
      succeed. At that length every directive must take its widest form:
      four year digits; two-digit month 01-12; day 01-31 or a space and one
      digit; `T` in either case; hours 00-23, minutes and seconds 00-59. The
      date must exist (`datetime` rejects 0000 and 31 April, and seconds
      60 and 61). */
  function ParseLocal(s: string): (r: Option<DateTime>)
    requires |s| == 19
    ensures r.Some? ==> Valid(r.value)
  {
    if Shaped(s) && Valid(Fields(s)) then Some(Fields(s)) else None
  }

  /** The characters each directive accepts, position by position. */
  predicate Shaped(s: string)
    requires |s| == 19
  {
    AllDigits(s[0..4]) && s[4] == '-' && AllDigits(s[5..7]) && s[7] == '-' &&
    (AllDigits(s[8..10]) || (s[8] == ' ' && IsDigit(s[9]))) &&
    (s[10] == 'T' || s[10] == 't') &&
    AllDigits(s[11..13]) && s[13] == ':' && AllDigits(s[14..16]) && s[16] == ':' &&
    AllDigits(s[17..19])
  }

  /** The numbers the fields of a well-shaped string denote. */
  function Fields(s: string): DateTime
    requires |s| == 19 && Shaped(s)
  {
    DateTime(Date(DigitsValue(s[0..4]), DigitsValue(s[5..7]),
                  if s[8] == ' ' then DigitValue(s[9]) else DigitsValue(s[8..10])),
             DigitsValue(s[11..13]), DigitsValue(s[14..16]), DigitsValue(s[17..19]))
  }

  lemma RenderShape(dt: DateTime, sep: char)
    requires Valid(dt)
    ensures var s := Render(dt, sep);
            |s| == 19 && s[0..4] == Digits(dt.date.year, 4) && s[4] == '-' &&
            s[5..7] == Digits(dt.date.month, 2) && s[7] == '-' &&
            s[8..10] == Digits(dt.date.day, 2) && s[10] == sep &&
            s[11..13] == Digits(dt.hour, 2) && s[13] == ':' &&
            s[14..16] == Digits(dt.minute, 2) && s[16] == ':' &&
            s[17..19] == Digits(dt.second, 2)
  {
    FieldLayout(Digits(dt.date.year, 4), Digits(dt.date.month, 2), Digits(dt.date.day, 2), sep,
                Digits(dt.hour, 2), Digits(dt.minute, 2), Digits(dt.second, 2));
  }

  /** Where each field of a `YYYY-MM-DD?HH:MM:SS` string starts and ends. */
  lemma FieldLayout(y: string, mo: string, d: string, sep: char, h: string, mi: string, se: string)
    requires |y| == 4 && |mo| == 2 && |d| == 2 && |h| == 2 && |mi| == 2 && |se| == 2
    ensures var s := y + "-" + mo + "-" + d + [sep] + h + ":" + mi + ":" + se;
            |s| == 19 && s[0..4] == y && s[4] == '-' && s[5..7] == mo && s[7] == '-' &&
            s[8..10] == d && s[10] == sep && s[11..13] == h && s[13] == ':' &&
            s[14..16] == mi && s[16] == ':' && s[17..19] == se
  {
    var datePart := y + "-" + mo + "-" + d;
    var timePart := h + ":" + mi + ":" + se;
    var s := y + "-" + mo + "-" + d + [sep] + h + ":" + mi + ":" + se;
    assert s == datePart + [sep] + timePart;
    assert datePart[0..4] == y && datePart[5..7] == mo && datePart[8..10] == d;
    assert timePart[0..2] == h && timePart[3..5] == mi && timePart[6..8] == se;
    assert s[..10] == datePart && s[11..] == timePart;
    assert s[0..4] == datePart[0..4] && s[5..7] == datePart[5..7] && s[8..10] == datePart[8..10];
    assert s[11..13] == timePart[0..2] && s[14..16] == timePart[3..5] && s[17..19] == timePart[6..8];
  }

  /** `strptime` reads back what `isoformat('T')` writes. */
  lemma ParseRender(dt: DateTime)
    requires Valid(dt)
    ensures |Render(dt, 'T')| == 19 && ParseLocal(Render(dt, 'T')) == Some(dt)
  {
    RenderShape(dt, 'T');
    ReadsFields(Render(dt, 'T'), dt);
  }

  /** A `YYYY-MM-DDTHH:MM:SS` string holding the digits of a valid `dt`'s
      fields parses as `dt`. */
  lemma ReadsFields(s: string, dt: DateTime)
    requires |s| == 19 && Valid(dt)
    requires s[4] == '-' && s[7] == '-' && s[10] == 'T' && s[13] == ':' && s[16] == ':'
    requires s[0..4] == Digits(dt.date.year, 4) && s[5..7] == Digits(dt.date.month, 2)
    requires s[8..10] == Digits(dt.date.day, 2) && s[11..13] == Digits(dt.hour, 2)
    requires s[14..16] == Digits(dt.minute, 2) && s[17..19] == Digits(dt.second, 2)
    ensures ParseLocal(s) == Some(dt)
  {
    FieldReads(dt.date.year, 4, s[0..4]);
    FieldReads(dt.date.month, 2, s[5..7]);
    FieldReads(dt.date.day, 2, s[8..10]);
    FieldReads(dt.hour, 2, s[11..13]);
    FieldReads(dt.minute, 2, s[14..16]);
    FieldReads(dt.second, 2, s[17..19]);
    assert s[8] != ' ' by { assert IsDigit(s[8..10][0]); }
    assert Fields(s) == dt;
  }

  /** A field of `w` digits written for `n < 10^w` reads back as `n`. */
  lemma FieldReads(n: nat, w: nat, f: string)
    requires w == 2 || w == 4
    requires (w == 2 ==> n < 100) && (w == 4 ==> n < 10000) && f == Digits(n, w)
    ensures AllDigits(f) && DigitsValue(f) == n
  {
    assert Pow10(2) == 100 && Pow10(4) == 10000;
    DigitsValueOf(n, w);
  }

  // ---------------------------------------------------------------------
  // The conversion loop body of the Python 2 script
  // ---------------------------------------------------------------------

  /** The local time and the offset in minutes that the loop body reads from
      a stamp: `time[:19]` through `strptime`, then `time[20:].split(':')`
      with `int` of its first two parts as hours and minutes. The character
      at index 19, where the offset's sign stands, is never read. Every
      ValueError or IndexError gives `None`. */
  function StampParts(t: string): (r: Option<(DateTime, int)>)
    ensures r.Some? ==> |t| >= 21 && Valid(r.value.0)
  {
    if |t| < 21 then None else ReadStamp(t[..19], t[20..])
  }

  /** The conversion of the two pieces it reads: the first 19 characters
      and everything from index 20 on. */
  function ReadStamp(head: string, offset: string): (r: Option<(DateTime, int)>)
    requires |head| == 19
    ensures r.Some? ==> Valid(r.value.0)
  {
    if ParseLocal(head).None? || ReadOffset(offset).None? then None
    else Some((ParseLocal(head).value, ReadOffset(offset).value))
  }

  /** `offset.split(':')`: at least two parts are needed. */
  function ReadOffset(offset: string): Option<int>
  {
    if |Split(offset, ':')| < 2 then None
    else OffsetMinutes(ParseInt(Split(offset, ':')[0]), ParseInt(Split(offset, ':')[1]))
  }

  /** `int(hours)` and `int(minutes)` as a number of minutes. */
  function OffsetMinutes(hours: Option<int>, minutes: Option<int>): Option<int>
  {
    if hours.None? || minutes.None? then None else Some(hours.value * 60 + minutes.value)
  }

  /** `time_stamp - timedelta(hours = h, minutes = m)` for the parts read
      from a stamp, or `None` when reading failed or the result overflows. */
  function SubtractOffset(parts: Option<(DateTime, int)>): (r: Option<DateTime>)
    requires parts.Some? ==> Valid(parts.value.0)
    ensures r.Some? ==> Valid(r.value)
  {
    if parts.None? then None else Shift(parts.value.0, -parts.value.1)
  }

  /** The UTC time of a stamp, or `None` on any exception the conversion
      raises. */
  function ToUtc(t: string): Option<DateTime>
  {
    if |t| < 21 then None else SubtractOffset(ReadStamp(t[..19], t[20..]))
  }

  /** The string the Python 2 script appends to `time_stamps`. */
  function ConvertStamp(t: string): Option<string>
  {
    if ToUtc(t).None? then None else Some(FormatStamp(ToUtc(t).value))
  }

  /** Whatever character stands where the offset's sign belongs, the result
      is the same: `+05:00` and `-05:00` are both subtracted. */
  lemma SignIgnored(t: string, c: char)
    requires |t| >= 20
    ensures StampParts(t[..19] + [c] + t[20..]) == StampParts(t)
    ensures ConvertStamp(t[..19] + [c] + t[20..]) == ConvertStamp(t)
  {
    var t' := t[..19] + [c] + t[20..];
    assert |t'| == |t|;
    assert t'[..19] == t[..19];
    assert t'[20..] == t[20..];
    assert StampParts(t') == StampParts(t);
  }

  // ---------------------------------------------------------------------
  // Evaluation steps, and the conversion on concrete stamps
  // ---------------------------------------------------------------------

  lemma ReadOffsetOf(offset: string, a: string, b: string, h: int, m: int)
    requires Split(offset, ':') == [a, b] && ParseInt(a) == Some(h) && ParseInt(b) == Some(m)
    ensures ReadOffset(offset) == Some(h * 60 + m)
  {
    ReadOffsetSplit(offset, a, b);
    OffsetMinutesOf(ParseInt(a), ParseInt(b), h, m);
  }

  lemma ReadOffsetSplit(offset: string, a: string, b: string)
    requires Split(offset, ':') == [a, b]
    ensures ReadOffset(offset) == OffsetMinutes(ParseInt(a), ParseInt(b))
  {
  }

  lemma OffsetMinutesOf(hours: Option<int>, minutes: Option<int>, h: int, m: int)
    requires hours == Some(h) && minutes == Some(m)
    ensures OffsetMinutes(hours, minutes) == Some(h * 60 + m)
  {
  }

  lemma ReadStampOf(head: string, offset: string, local: DateTime, minutes: int)
    requires |head| == 19 && ParseLocal(head) == Some(local) && ReadOffset(offset) == Some(minutes)
    ensures ReadStamp(head, offset) == Some((local, minutes))
  {
  }

  lemma SubtractOffsetOf(parts: Option<(DateTime, int)>, local: DateTime, minutes: int)
    requires parts == Some((local, minutes)) && Valid(local)
    ensures SubtractOffset(parts) == Shift(local, -minutes)
  {
  }

  /** A stamp whose pieces read as `local` and `minutes` converts to
      `FormatStamp` of `local` shifted back by `minutes`. */
  lemma ConvertStampOf(t: string, local: DateTime, minutes: int, u: DateTime)
    requires |t| >= 21 && ReadStamp(t[..19], t[20..]) == Some((local, minutes))
    requires Shift(local, -minutes) == Some(u)
    ensures Valid(u) && ConvertStamp(t) == Some(FormatStamp(u))
  {
    SubtractOffsetOf(ReadStamp(t[..19], t[20..]), local, minutes);
    assert ToUtc(t) == Some(u);
  }

  /** An offset `hh:mm` whose two parts hold no colon reads as `h * 60 + m`
      minutes when `int` reads the parts as `h` and `m`. */
  lemma ReadOffsetPair(hh: string, mm: string, h: int, m: int)
    requires ':' !in hh && ':' !in mm && ParseInt(hh) == Some(h) && ParseInt(mm) == Some(m)
    ensures ReadOffset(hh + [':'] + mm) == Some(h * 60 + m)
  {
    SplitPair(hh, mm, ':');
    ReadOffsetOf(hh + [':'] + mm, hh, mm, h, m);
  }

  lemma NoColon(s: string)
    requires AllDigits(s)
    ensures ':' !in s
  {
    assert forall i | 0 <= i < |s| :: s[i] != ':';
  }

  lemma TwoDigitField(n: nat)
    requires n < 100
    ensures ':' !in Digits(n, 2) && ParseInt(Digits(n, 2)) == Some(n)
  {
    assert Pow10(2) == 100;
    DigitsValueOf(n, 2);
    NoColon(Digits(n, 2));
    ParseNumeral(Digits(n, 2), n);
  }

  /** The offset written as two-digit hours and minutes is read back as that
      many minutes. */
  lemma OffsetDigits(h: nat, m: nat)
    requires h < 100 && m < 100
    ensures ReadOffset(Digits(h, 2) + [':'] + Digits(m, 2)) == Some(h * 60 + m)
  {
    TwoDigitField(h);
    TwoDigitField(m);
    ReadOffsetPair(Digits(h, 2), Digits(m, 2), h, m);
  }

  /** A stamp `head + c + offset` whose head reads as `local` and whose
      offset reads as `minutes` converts to `str()` of `local` moved back by
      `minutes`, whatever the character `c` in the sign position is. */
  lemma ConvertPieces(head: string, c: char, offset: string, local: DateTime, minutes: int, u: DateTime)
    requires |head| == 19 && ParseLocal(head) == Some(local) && ReadOffset(offset) == Some(minutes)
    requires Shift(local, -minutes) == Some(u)
    ensures Valid(u) && ConvertStamp(head + [c] + offset) == Some(FormatStamp(u))
  {
    var t := head + [c] + offset;
    assert t[..19] == head && t[20..] == offset;
    ReadStampOf(head, offset, local, minutes);
    ConvertStampOf(t, local, minutes, u);
  }

  /** A local time five hours behind UTC: the offset is subtracted, not
      added, so 23:30 with `-05:00` becomes 18:30 the same day (the UTC time
      is 04:30 the next day). */
  lemma ExampleOffsetSubtracted()
    ensures Shift(DateTime(Date(2024, 1, 1), 23, 30, 0), -300) == Some(DateTime(Date(2024, 1, 1), 18, 30, 0))
  {
  }

  /** Moving back across midnight and a year boundary. */
  lemma ExampleDayBefore()
    ensures Shift(DateTime(Date(2024, 1, 1), 2, 0, 0), -300) == Some(DateTime(Date(2023, 12, 31), 21, 0, 0))
  {
    assert -180 / 1440 == -1 && -180 % 1440 == 1260;
    assert PrevDay(Date(2024, 1, 1)) == Date(2023, 12, 31);
    assert AddDays(Date(2023, 12, 31), 0) == Some(Date(2023, 12, 31));
    assert AddDays(Date(2024, 1, 1), -1) == Some(Date(2023, 12, 31));
  }

  /** Before 0001-01-01 `datetime` raises OverflowError. */
  lemma ExampleOverflow()
    ensures Shift(DateTime(Date(1, 1, 1), 2, 0, 0), -300) == None
  {
  }

}
