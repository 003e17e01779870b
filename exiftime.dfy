/** Capture timestamps: the `YYYY:MM:DD HH:MM:SS` form Exif uses for DateTime and
    DateTimeOriginal (Exif 2.2, JEITA CP-3451, sections 4.6.4 and 4.6.5), the two ways
    the bot reads it (an unanchored-at-the-end regular expression for HEIC files and
    `datetime.strptime` for the others), the range checks of Python's `datetime`
    constructor, and a count of microseconds for comparing a capture time with the clock. */
module ExifTime {
  import opened Values
  import opened Text

  /** A naive civil date-time, as the parsed fields come out, before range checks. */
  datatype DateTime = DateTime(year: int, month: int, day: int, hour: int, minute: int, second: int)

  predicate IsLeapYear(y: int) {
    y % 4 == 0 && (y % 100 != 0 || y % 400 == 0)
  }

  function DaysInMonth(y: int, m: int): (n: int)
    requires 1 <= m <= 12
    ensures 28 <= n <= 31
  {
    if m == 2 then (if IsLeapYear(y) then 29 else 28)
    else if m == 4 || m == 6 || m == 9 || m == 11 then 30
    else 31
  }

  /** The checks `datetime(year, month, day, hour, minute, second)` makes; it raises
      ValueError for anything outside them. */
  predicate Valid(dt: DateTime) {
    1 <= dt.year <= 9999 && 1 <= dt.month <= 12 && 1 <= dt.day <= DaysInMonth(dt.year, dt.month)
    && 0 <= dt.hour <= 23 && 0 <= dt.minute <= 59 && 0 <= dt.second <= 59
  }

  function DaysInYear(y: int): int {
    if IsLeapYear(y) then 366 else 365
  }

  /** Days in the years 1 .. y-1 of the proleptic Gregorian calendar. */
  function DaysBeforeYear(y: int): int
    requires y >= 1
  {
    var p := y - 1;
    p * 365 + p / 4 - p / 100 + p / 400
  }

  /** Days in the months 1 .. m-1 of year y. */
  function DaysBeforeMonth(y: int, m: int): int
    requires 1 <= m <= 13
  {
    if m == 1 then 0 else DaysBeforeMonth(y, m - 1) + DaysInMonth(y, m - 1)
  }

  /** `date.toordinal()`: 0001-01-01 is day 1. */
  function Ordinal(dt: DateTime): int
    requires Valid(dt)
  {
    DaysBeforeYear(dt.year) + DaysBeforeMonth(dt.year, dt.month) + dt.day
  }

  /** Microseconds since 0001-01-01 00:00:00 in the zone both times are localised to. */
  function Micros(dt: DateTime): int
    requires Valid(dt)
  {
    ((Ordinal(dt) - 1) * 86400 + dt.hour * 3600 + dt.minute * 60 + dt.second) * 1000000
  }

  /** a comes strictly before b in calendar order. */
  predicate Earlier(a: DateTime, b: DateTime) {
    a.year < b.year
    || (a.year == b.year && (a.month < b.month
    || (a.month == b.month && (a.day < b.day
    || (a.day == b.day && (a.hour < b.hour
    || (a.hour == b.hour && (a.minute < b.minute
    || (a.minute == b.minute && a.second < b.second)))))))))
  }

  lemma {:induction false} DaysBeforeMonthRange(y: int, m: int)
    requires 1 <= m <= 13
    ensures 28 * (m - 1) <= DaysBeforeMonth(y, m) <= 31 * (m - 1)
    ensures m == 13 ==> DaysBeforeMonth(y, m) == DaysInYear(y)
  {
    if m > 1 {
      DaysBeforeMonthRange(y, m - 1);
    }
    if m == 13 {
      assert DaysBeforeMonth(y, 2) == 31;
      assert DaysBeforeMonth(y, 3) == 31 + DaysInMonth(y, 2);
      assert DaysBeforeMonth(y, 4) == DaysBeforeMonth(y, 3) + 31;
      assert DaysBeforeMonth(y, 5) == DaysBeforeMonth(y, 3) + 61;
      assert DaysBeforeMonth(y, 6) == DaysBeforeMonth(y, 3) + 92;
      assert DaysBeforeMonth(y, 7) == DaysBeforeMonth(y, 3) + 122;
      assert DaysBeforeMonth(y, 8) == DaysBeforeMonth(y, 3) + 153;
      assert DaysBeforeMonth(y, 9) == DaysBeforeMonth(y, 3) + 184;
      assert DaysBeforeMonth(y, 10) == DaysBeforeMonth(y, 3) + 214;
      assert DaysBeforeMonth(y, 11) == DaysBeforeMonth(y, 3) + 245;
      assert DaysBeforeMonth(y, 12) == DaysBeforeMonth(y, 3) + 275;
      assert DaysBeforeMonth(y, 13) == DaysBeforeMonth(y, 3) + 306;
    }
  }

  lemma DaysBeforeNextYear(y: int)
    requires y >= 1
    ensures DaysBeforeYear(y + 1) == DaysBeforeYear(y) + DaysInYear(y)
  {
    var p := y - 1;
    NextQuotient(p, 4);
    NextQuotient(p, 100);
    NextQuotient(p, 400);
    LeapDay(y);
  }

  /** A year has a leap day when it is a multiple of 4, except for multiples of 100 that
      are not multiples of 400. */
  lemma LeapDay(y: int)
    ensures DaysInYear(y) == 365 + (if y % 4 == 0 then 1 else 0) - (if y % 100 == 0 then 1 else 0)
                                 + (if y % 400 == 0 then 1 else 0)
  {
    if y % 400 == 0 {
      var k := y / 400;
      assert y == 100 * (4 * k);
    }
    if y % 100 == 0 {
      var k := y / 100;
      assert y == 4 * (25 * k);
    }
  }

  /** Counting one further goes past a multiple of d exactly when it lands on one. */
  lemma NextQuotient(p: nat, d: nat)
    requires d in {4, 100, 400}
    ensures (p + 1) / d == p / d + (if (p + 1) % d == 0 then 1 else 0)
  {
    if d == 4 {
      assert (p + 1) / 4 == p / 4 + (if (p + 1) % 4 == 0 then 1 else 0);
    } else if d == 100 {
      assert (p + 1) / 100 == p / 100 + (if (p + 1) % 100 == 0 then 1 else 0);
    } else {
      assert (p + 1) / 400 == p / 400 + (if (p + 1) % 400 == 0 then 1 else 0);
    }
  }

  /** Every date of year y comes before the first day of year y + 1. */
  lemma OrdinalWithinYear(dt: DateTime)
    requires Valid(dt)
    ensures DaysBeforeYear(dt.year) < Ordinal(dt) <= DaysBeforeYear(dt.year) + DaysInYear(dt.year)
  {
    DaysBeforeMonthRange(dt.year, dt.month);
    MonthsAccumulate(dt.year, dt.month, 13);
    DaysBeforeMonthRange(dt.year, 13);
  }

  lemma {:induction false} MonthsAccumulate(y: int, m: int, n: int)
    requires 1 <= m < n <= 13
    ensures DaysBeforeMonth(y, m) + DaysInMonth(y, m) <= DaysBeforeMonth(y, n)
  {
    if n > m + 1 {
      MonthsAccumulate(y, m, n - 1);
    }
  }

  lemma {:induction false} YearsAccumulate(y: int, z: int)
    requires 1 <= y < z
    ensures DaysBeforeYear(y) + DaysInYear(y) <= DaysBeforeYear(z)
    decreases z - y
  {
    DaysBeforeNextYear(y);
    if z > y + 1 {
      YearsAccumulate(y + 1, z);
      DaysBeforeNextYear(y + 1);
    }
  }

  /** The day count orders dates as the calendar does. */
  lemma OrdinalMonotone(a: DateTime, b: DateTime)
    requires Valid(a) && Valid(b)
    requires a.year < b.year || (a.year == b.year && (a.month < b.month || (a.month == b.month && a.day < b.day)))
    ensures Ordinal(a) < Ordinal(b)
  {
    OrdinalWithinYear(a);
    OrdinalWithinYear(b);
    if a.year < b.year {
      YearsAccumulate(a.year, b.year);
    } else if a.month < b.month {
      MonthsAccumulate(a.year, a.month, b.month);
    }
  }

  /** Microseconds since the epoch order valid date-times as the calendar does, so a
      later capture time is always a larger number. */
  lemma MicrosMonotone(a: DateTime, b: DateTime)
    requires Valid(a) && Valid(b) && Earlier(a, b)
    ensures Micros(a) < Micros(b)
  {
    var sameDay := a.year == b.year && a.month == b.month && a.day == b.day;
    if !sameDay {
      OrdinalMonotone(a, b);
    }
  }

  // ---------------------------------------------------------------------------------
  // The textual form

  /** The fixed-width text `YYYY:MM:DD HH:MM:SS` of a valid date-time. */
  function Format(dt: DateTime): (s: string)
    requires Valid(dt)
    ensures |s| == 19
  {
    Pad(dt.year, 4) + ":" + Pad(dt.month, 2) + ":" + Pad(dt.day, 2) + " "
    + Pad(dt.hour, 2) + ":" + Pad(dt.minute, 2) + ":" + Pad(dt.second, 2)
  }

  /** `re.match(r"(\d{4}):(\d{2}):(\d{2}) (\d{2}):(\d{2}):(\d{2})", s)` followed by
      `map(int, match.groups())`: the pattern is anchored at the start of s only. */
  function MatchHeicDate(s: string): Option<DateTime> {
    if |s| >= 19 && AllDigits(s[0..4]) && s[4] == ':' && AllDigits(s[5..7]) && s[7] == ':'
       && AllDigits(s[8..10]) && s[10] == ' ' && AllDigits(s[11..13]) && s[13] == ':'
       && AllDigits(s[14..16]) && s[16] == ':' && AllDigits(s[17..19])
    then Some(DateTime(DigitsValue(s[0..4]), DigitsValue(s[5..7]), DigitsValue(s[8..10]),
                       DigitsValue(s[11..13]), DigitsValue(s[14..16]), DigitsValue(s[17..19])))
    else None
  }

  /** The regular expression only looks at the first 19 characters: whatever follows
      a matching prefix is ignored. */
  lemma MatchHeicDateIgnoresTrailing(s: string, t: string)
    requires |s| >= 19
    ensures MatchHeicDate(s + t) == MatchHeicDate(s)
  {
    assert (s + t)[..19] == s[..19];
    assert (s + t)[0..4] == s[0..4] && (s + t)[5..7] == s[5..7] && (s + t)[8..10] == s[8..10];
    assert (s + t)[11..13] == s[11..13] && (s + t)[14..16] == s[14..16] && (s + t)[17..19] == s[17..19];
  }

  /** The pieces of the formatted text. */
  lemma FormatPieces(dt: DateTime)
    requires Valid(dt)
    ensures var s := Format(dt);
      s[0..4] == Pad(dt.year, 4) && s[4] == ':' && s[5..7] == Pad(dt.month, 2) && s[7] == ':'
      && s[8..10] == Pad(dt.day, 2) && s[10] == ' ' && s[11..13] == Pad(dt.hour, 2) && s[13] == ':'
      && s[14..16] == Pad(dt.minute, 2) && s[16] == ':' && s[17..19] == Pad(dt.second, 2)
  {
  }

  /** Every valid date-time, written in the Exif form, is read back by the HEIC pattern. */
  lemma {:induction false} MatchHeicDateOfFormat(dt: DateTime)
    requires Valid(dt)
    ensures MatchHeicDate(Format(dt)) == Some(dt)
  {
    FormatPieces(dt);
    DigitsValueOfPad(dt.year, 4);
    DigitsValueOfPad(dt.month, 2);
    DigitsValueOfPad(dt.day, 2);
    DigitsValueOfPad(dt.hour, 2);
    DigitsValueOfPad(dt.minute, 2);
    DigitsValueOfPad(dt.second, 2);
  }

  /** Conversely, a text the HEIC pattern reads as a valid date-time begins with exactly
      that date-time's Exif form. */
  lemma {:induction false} FormatOfMatchHeicDate(s: string, dt: DateTime)
    requires MatchHeicDate(s) == Some(dt) && Valid(dt)
    ensures s[..19] == Format(dt)
  {
    PadOfDigitsValue(s[0..4]);
    PadOfDigitsValue(s[5..7]);
    PadOfDigitsValue(s[8..10]);
    PadOfDigitsValue(s[11..13]);
    PadOfDigitsValue(s[14..16]);
    PadOfDigitsValue(s[17..19]);
    FormatPieces(dt);
    var f := Format(dt);
    forall i | 0 <= i < 19
      ensures s[i] == f[i]
    {
      if i < 4 { assert s[i] == s[0..4][i]; assert f[i] == f[0..4][i]; }
      else if 5 <= i < 7 { assert s[i] == s[5..7][i - 5]; assert f[i] == f[5..7][i - 5]; }
      else if 8 <= i < 10 { assert s[i] == s[8..10][i - 8]; assert f[i] == f[8..10][i - 8]; }
      else if 11 <= i < 13 { assert s[i] == s[11..13][i - 11]; assert f[i] == f[11..13][i - 11]; }
      else if 14 <= i < 16 { assert s[i] == s[14..16][i - 14]; assert f[i] == f[14..16][i - 14]; }
      else if 17 <= i < 19 { assert s[i] == s[17..19][i - 17]; assert f[i] == f[17..19][i - 17]; }
    }
  }

  // ---------------------------------------------------------------------------------
  // `datetime.strptime(s, "%Y:%m:%d %H:%M:%S")`

  /** The number of ASCII digits s starts with. */
  function DigitRun(s: string): (n: nat)
    ensures n <= |s| && AllDigits(s[..n])
    ensures n < |s| ==> !IsDigit(s[n])
  {
    if s != [] && IsDigit(s[0]) then
      assert s[..1 + DigitRun(s[1..])] == [s[0]] + s[1..][..DigitRun(s[1..])];
      1 + DigitRun(s[1..])
    else 0
  }

  /** The number of whitespace characters s starts with (`\s+` matches greedily). */
  function SpaceRun(s: string): (n: nat)
    ensures n <= |s|
    ensures n < |s| ==> !IsSpace(s[n])
    ensures forall i :: 0 <= i < n ==> IsSpace(s[i])
  {
    if s != [] && IsSpace(s[0]) then 1 + SpaceRun(s[1..]) else 0
  }

  /** A numeric directive of one or two digits whose value lies in lo .. hi (`%m`,
      `%d`, `%H`, `%M` and `%S` in CPython's _strptime): since every directive but the
      last is followed by a non-digit, the regular expression's alternatives amount to
      "all the digits up to the next non-digit, one or two of them, in range".
      Gives the value and what follows. */
  function NumberField(s: string, lo: nat, hi: nat): Option<(nat, string)> {
    var n := DigitRun(s);
    if 1 <= n <= 2 && lo <= DigitsValue(s[..n]) <= hi then Some((DigitsValue(s[..n]), s[n..]))
    else None
  }

  /** `%d` has one more alternative, a space followed by a non-zero digit. */
  function DayField(s: string): Option<(nat, string)> {
    if s != [] && s[0] == ' ' then
      if |s| >= 2 && '1' <= s[1] <= '9' then Some((DigitValue(s[1]), s[2..])) else None
    else NumberField(s, 1, 31)
  }

  /** What follows a literal character c at the front of s. */
  function Literal(s: string, c: char): Option<string> {
    if s != [] && s[0] == c then Some(s[1..]) else None
  }

  /** What follows one or more whitespace characters at the front of s. */
  function Spaces(s: string): Option<string> {
    var n := SpaceRun(s);
    if n >= 1 then Some(s[n..]) else None
  }

  /** `%Y:%m:%d` and the whitespace after it: year, month, day and the text that
      follows the whitespace. */
  function CalendarFields(s: string): Option<(nat, nat, nat, string)> {
    if |s| < 5 || !AllDigits(s[..4]) then None
    else
      var r0 :- Literal(s[4..], ':');
      var month :- NumberField(r0, 1, 12);
      var r1 :- Literal(month.1, ':');
      var day :- DayField(r1);
      var r2 :- Spaces(day.1);
      Some((DigitsValue(s[..4]), month.0, day.0, r2))
  }

  /** `%H:%M:%S` at the end of the text: hour, minute and second, or None when the
      text does not match or has unconverted data after the seconds. */
  function ClockFields(r: string): Option<(nat, nat, nat)> {
    var hour :- NumberField(r, 0, 23);
    var r3 :- Literal(hour.1, ':');
    var minute :- NumberField(r3, 0, 59);
    var r4 :- Literal(minute.1, ':');
    var second :- NumberField(r4, 0, 61);
    if second.1 != [] then None else Some((hour.0, minute.0, second.0))
  }

  /** The fields `datetime.strptime(s, "%Y:%m:%d %H:%M:%S")` reads, or None where it
      raises ValueError for a text that does not match the format or has unconverted
      data after the seconds. */
  function StrptimeFields(s: string): Option<DateTime> {
    var date :- CalendarFields(s);
    var clock :- ClockFields(date.3);
    Some(DateTime(date.0, date.1, date.2, clock.0, clock.1, clock.2))
  }

  /** The range checks of the `datetime` constructor applied to parsed fields. */
  function Checked(fields: Option<DateTime>): (r: Option<DateTime>)
    ensures r.Some? ==> Valid(r.value)
    ensures r.Some? <==> fields.Some? && Valid(fields.value)
  {
    if fields.Some? && Valid(fields.value) then fields else None
  }

  /** The date-time `datetime.strptime` returns, or None where it raises. */
  function Strptime(s: string): Option<DateTime> {
    Checked(StrptimeFields(s))
  }

  /** The date-time the HEIC branch builds from a regular-expression match, or None
      where there is no match or `datetime(...)` raises. */
  function HeicDateTime(s: string): Option<DateTime> {
    Checked(MatchHeicDate(s))
  }

  lemma {:induction false} DigitRunOfDigits(d: string, rest: string)
    requires AllDigits(d) && (rest == [] || !IsDigit(rest[0]))
    ensures DigitRun(d + rest) == |d|
  {
    if d != [] {
      assert (d + rest)[1..] == d[1..] + rest;
      DigitRunOfDigits(d[1..], rest);
    }
  }

  lemma NumberFieldOfPad(n: nat, lo: nat, hi: nat, rest: string)
    requires lo <= n <= hi && n < 100
    requires rest == [] || !IsDigit(rest[0])
    ensures NumberField(Pad(n, 2) + rest, lo, hi) == Some((n, rest))
  {
    var s := Pad(n, 2) + rest;
    DigitRunOfDigits(Pad(n, 2), rest);
    assert s[..2] == Pad(n, 2);
    DigitsValueOfPad(n, 2);
  }

  /** `datetime.strptime` reads the Exif form of every valid date-time back. */
  lemma StrptimeOfFormat(dt: DateTime)
    requires Valid(dt)
    ensures Strptime(Format(dt)) == Some(dt)
  {
    StrptimeOfFormatPlus(dt, []);
    assert Format(dt) + [] == Format(dt);
  }

  lemma DayThenSpaces(d: nat, hr: string)
    requires 1 <= d <= 31
    requires hr != [] && IsDigit(hr[0])
    ensures DayField(Pad(d, 2) + (" " + hr)) == Some((d, " " + hr))
    ensures Spaces(" " + hr) == Some(hr)
  {
    var dy := Pad(d, 2) + (" " + hr);
    assert dy[0] == Pad(d, 2)[0];
    NumberFieldOfPad(d, 1, 31, " " + hr);
    assert SpaceRun(" " + hr) == 1 by {
      assert (" " + hr)[1..] == hr;
    }
  }

  /** `YYYY:MM:DD ` followed by a text that starts with a digit reads as that date,
      followed by the text. */
  lemma CalendarOfPads(y: nat, m: nat, d: nat, hr: string)
    requires 1 <= y <= 9999 && 1 <= m <= 12 && 1 <= d <= 31
    requires hr != [] && IsDigit(hr[0])
    ensures CalendarFields(Pad(y, 4) + ":" + Pad(m, 2) + ":" + Pad(d, 2) + " " + hr) == Some((y, m, d, hr))
  {
    var dy := Pad(d, 2) + (" " + hr);
    var mo := Pad(m, 2) + (":" + dy);
    var s := Pad(y, 4) + (":" + mo);
    assert Pad(y, 4) + ":" + Pad(m, 2) + ":" + Pad(d, 2) + " " + hr == s;
    assert s[..4] == Pad(y, 4);
    DigitsValueOfPad(y, 4);
    assert Literal(s[4..], ':') == Some(mo) by {
      assert s[4..] == ":" + mo;
    }
    NumberFieldOfPad(m, 1, 12, ":" + dy);
    assert Literal(":" + dy, ':') == Some(dy);
    DayThenSpaces(d, hr);
  }

  /** The date part of `Format(dt) + t` reads as dt's date, followed by the clock part. */
  lemma CalendarOfFormat(dt: DateTime, t: string)
    requires Valid(dt)
    ensures CalendarFields(Format(dt) + t)
      == Some((dt.year, dt.month, dt.day, Pad(dt.hour, 2) + ":" + Pad(dt.minute, 2) + ":" + Pad(dt.second, 2) + t))
  {
    var hr := Pad(dt.hour, 2) + ":" + Pad(dt.minute, 2) + ":" + Pad(dt.second, 2) + t;
    assert hr[0] == Pad(dt.hour, 2)[0];
    assert Format(dt) + t == Pad(dt.year, 4) + ":" + Pad(dt.month, 2) + ":" + Pad(dt.day, 2) + " " + hr;
    CalendarOfPads(dt.year, dt.month, dt.day, hr);
  }

  /** The clock part `HH:MM:SS` followed by t reads as the clock exactly when t is empty. */
  lemma ClockOfFormat(dt: DateTime, t: string)
    requires Valid(dt)
    ensures t == [] ==> ClockFields(Pad(dt.hour, 2) + ":" + Pad(dt.minute, 2) + ":" + Pad(dt.second, 2) + t)
                        == Some((dt.hour, dt.minute, dt.second))
    ensures t != [] ==> ClockFields(Pad(dt.hour, 2) + ":" + Pad(dt.minute, 2) + ":" + Pad(dt.second, 2) + t)
                        == None
  {
    var sec := Pad(dt.second, 2) + t;
    ClockRegroup(Pad(dt.hour, 2), Pad(dt.minute, 2), Pad(dt.second, 2), t);
    ClockOfPads(dt.hour, dt.minute, sec);
    SecondsOfPad(dt.second, t);
  }

  lemma ClockRegroup(h: string, m: string, s: string, t: string)
    ensures h + ":" + m + ":" + s + t == h + (":" + (m + (":" + (s + t))))
  {
  }

  /** Hours and minutes written with two digits are read back, and the seconds field
      decides the rest. */
  lemma ClockOfPads(hour: int, minute: int, sec: string)
    requires 0 <= hour <= 23 && 0 <= minute <= 59
    ensures ClockFields(Pad(hour, 2) + (":" + (Pad(minute, 2) + (":" + sec))))
         == match NumberField(sec, 0, 61)
            case None => None
            case Some(second) => if second.1 != [] then None else Some((hour, minute, second.0))
  {
    var tail4 := ":" + sec;
    var tail3 := ":" + (Pad(minute, 2) + tail4);
    NumberFieldOfPad(hour, 0, 23, tail3);
    NumberFieldOfPad(minute, 0, 59, tail4);
  }

  /** The seconds field read from `SS` followed by t: the seconds when t is empty or
      starts with no digit; a third digit makes the run too long. */
  lemma SecondsOfPad(second: int, t: string)
    requires 0 <= second <= 59
    ensures t == [] ==> NumberField(Pad(second, 2) + t, 0, 61) == Some((second, t))
    ensures t != [] && !IsDigit(t[0]) ==> NumberField(Pad(second, 2) + t, 0, 61) == Some((second, t))
    ensures t != [] && IsDigit(t[0]) ==> NumberField(Pad(second, 2) + t, 0, 61) == None
  {
    var sec := Pad(second, 2) + t;
    if t == [] {
      assert sec == Pad(second, 2) + [];
      NumberFieldOfPad(second, 0, 61, []);
    } else if IsDigit(t[0]) {
      var n := DigitRun(sec);
      assert sec[..3] == Pad(second, 2) + [t[0]];
      assert IsDigit(sec[0]) && IsDigit(sec[1]) && IsDigit(sec[2]);
      assert n >= 3;
    } else {
      NumberFieldOfPad(second, 0, 61, t);
    }
  }

  /** The walk of StrptimeFields over `Format(dt) + t`: everything matches up to the
      seconds, which must end the text. */
  lemma StrptimeOfFormatPlus(dt: DateTime, t: string)
    requires Valid(dt)
    ensures t == [] ==> StrptimeFields(Format(dt) + t) == Some(dt)
    ensures t != [] ==> StrptimeFields(Format(dt) + t) == None
  {
    CalendarOfFormat(dt, t);
    ClockOfFormat(dt, t);
  }

  /** `strptime` refuses trailing text after the seconds, which the HEIC pattern
      ignores: the two branches of the photo check read the same timestamp text
      differently. */
  lemma TrailingTextSplitsTheParsers(dt: DateTime, t: string)
    requires Valid(dt) && t != []
    ensures Strptime(Format(dt) + t) == None
    ensures HeicDateTime(Format(dt) + t) == Some(dt)
  {
    StrptimeOfFormatPlus(dt, t);
    MatchHeicDateIgnoresTrailing(Format(dt), t);
    MatchHeicDateOfFormat(dt);
  }
}
