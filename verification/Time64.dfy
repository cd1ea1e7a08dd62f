/** The 64-bit calendar of time64.c. */
module Time64 {

  const DAYS_IN_MONTH: seq<seq<int>> := [
    [31, 28, 31, 30, 31, 30, 31, 31, 30, 31, 30, 31],
    [31, 29, 31, 30, 31, 30, 31, 31, 30, 31, 30, 31]]

  const JULIAN_DAYS: seq<seq<int>> := [
    [0, 31, 59, 90, 120, 151, 181, 212, 243, 273, 304, 334],
    [0, 31, 60, 91, 121, 152, 182, 213, 244, 274, 305, 335]]

  const CYCLE_DAYS: int := 146097
  const DAY: int := 86400
  /** No 64-bit time is this many days from the epoch. */
  const MAX_DAYS: int := 200_000_000_000_000
  const CHEAT_DAYS: int := 13879
  const CHEAT_YEARS: int := 108

  /** C division and remainder truncate toward zero. */
  function TDiv(a: int, b: int): (q: int)
    requires b > 0
    ensures a >= 0 ==> q * b <= a < q * b + b && q >= 0
    ensures a < 0 ==> q * b - b < a <= q * b && q <= 0
  { if a >= 0 then a / b else -(-a / b) }

  function TMod(a: int, b: int): int
    requires b > 0
  { a - TDiv(a, b) * b }

  predicate Leap(y: int) { y % 400 == 0 || (y % 4 == 0 && y % 100 != 0) }

  /** IS_LEAP, on years since 1900 */
  predicate IsLeap(n: int) { Leap(n + 1900) }

  function Len(y: int): int { if Leap(y) then 366 else 365 }

  function DaysInMonth(leap: bool, mon: int): int
    requires 0 <= mon < 12
  { DAYS_IN_MONTH[if leap then 1 else 0][mon] }

  function JulianDays(leap: bool, mon: int): int
    requires 0 <= mon < 12
  { JULIAN_DAYS[if leap then 1 else 0][mon] }

  lemma Months(leap: bool, mon: int)
    requires 0 <= mon < 12
    ensures 28 <= DaysInMonth(leap, mon) <= 31 && JulianDays(leap, 0) == 0
    ensures mon < 11 ==> JulianDays(leap, mon + 1) == JulianDays(leap, mon) + DaysInMonth(leap, mon)
    ensures JulianDays(leap, 11) + DaysInMonth(leap, 11) == if leap then 366 else 365
    ensures DaysInMonth(leap, mon) ==
        if mon == 1 then if leap then 29 else 28 else if mon in {3, 5, 8, 10} then 30 else 31
  {}

  // ------------------------------ the Gregorian calendar ------------------------------

  /** Days from January 1st, 1970 to January 1st of year y. */
  function DaysTo(y: int): int { 365 * (y - 1970) + (y - 1) / 4 - (y - 1) / 100 + (y - 1) / 400 - 477 }

  lemma Step4(y: int)
    ensures y / 4 == (y - 1) / 4 + if y % 4 == 0 then 1 else 0
  {}

  lemma Step100(y: int)
    ensures y / 100 == (y - 1) / 100 + if y % 100 == 0 then 1 else 0
  {}

  lemma Step400(y: int)
    ensures y / 400 == (y - 1) / 400 + if y % 400 == 0 then 1 else 0
  {}

  lemma Div4(x: int, q: int, r: int)
    requires x == 4 * q + r && 0 <= r < 4
    ensures x / 4 == q && x % 4 == r
  {}

  lemma Div100(x: int, q: int, r: int)
    requires x == 100 * q + r && 0 <= r < 100
    ensures x / 100 == q && x % 100 == r
  {}

  lemma Div400(x: int, q: int, r: int)
    requires x == 400 * q + r && 0 <= r < 400
    ensures x / 400 == q && x % 400 == r
  {}

  lemma Divides(y: int)
    ensures y % 400 == 0 ==> y % 100 == 0
    ensures y % 100 == 0 ==> y % 4 == 0
  {
    if y % 400 == 0 { Div100(y, 4 * (y / 400), 0); }
    if y % 100 == 0 { Div4(y, 25 * (y / 100), 0); }
  }

  /** The closed form counts the days of each year. */
  lemma YearLength(y: int)
    ensures DaysTo(y + 1) == DaysTo(y) + Len(y) && DaysTo(1970) == 0
  {
    Step4(y);
    Step100(y);
    Step400(y);
    Divides(y);
  }

  lemma Periodic(y: int, k: int)
    ensures DaysTo(y + 400 * k) == DaysTo(y) + CYCLE_DAYS * k
    ensures Leap(y + 400 * k) == Leap(y)
  {
    Shift4(y - 1, k);
    Shift100(y - 1, k);
    Shift400(y - 1, k);
    Shift4(y, k);
    Shift100(y, k);
    Shift400(y, k);
    assert y + 400 * k - 1 == y - 1 + 400 * k;
  }

  lemma Shift4(x: int, k: int)
    ensures (x + 400 * k) / 4 == x / 4 + 100 * k && (x + 400 * k) % 4 == x % 4
  {
    Div4(x + 400 * k, x / 4 + 100 * k, x % 4);
  }

  lemma Shift100(x: int, k: int)
    ensures (x + 400 * k) / 100 == x / 100 + 4 * k && (x + 400 * k) % 100 == x % 100
  {
    Div100(x + 400 * k, x / 100 + 4 * k, x % 100);
  }

  lemma Shift400(x: int, k: int)
    ensures (x + 400 * k) / 400 == x / 400 + k && (x + 400 * k) % 400 == x % 400
  {
    Div400(x + 400 * k, x / 400 + k, x % 400);
  }

  lemma {:induction false} DaysGrow(y: int, z: int)
    requires y <= z
    ensures DaysTo(y) + 365 * (z - y) <= DaysTo(z) <= DaysTo(y) + 366 * (z - y)
    decreases z - y
  {
    if y < z {
      DaysGrow(y, z - 1);
      YearLength(z - 1);
    }
  }

  // ------------------------------ dates ------------------------------

  datatype Tm = Tm(sec: int, min: int, hour: int, mday: int, mon: int, year: int, wday: int, yday: int)

  /** Days from January 1st, 1970 to day m of a month. */
  function DayNumber(n: int, mon: int, m: int): int
    requires 0 <= mon < 12
  { DaysTo(n + 1900) + JulianDays(IsLeap(n), mon) + m }

  /** Seconds since the epoch. */
  function Seconds(d: Tm): int
    requires 0 <= d.mon < 12
  { DayNumber(d.year, d.mon, d.mday - 1) * DAY + d.hour * 3600 + d.min * 60 + d.sec }

  /** A date of the calendar, with its weekday and its day in the year. */
  predicate ValidTm(d: Tm)
  {
    && 0 <= d.sec < 60 && 0 <= d.min < 60 && 0 <= d.hour < 24 && 0 <= d.mon < 12
    && 1 <= d.mday <= DaysInMonth(IsLeap(d.year), d.mon)
    && d.yday == JulianDays(IsLeap(d.year), d.mon) + d.mday - 1
    && d.wday == (DayNumber(d.year, d.mon, d.mday - 1) + 4) % 7
  }

  predicate InInt(x: int) { -0x8000_0000 <= x < 0x8000_0000 }

  /** timegm64 */
  method Timegm64(date: Tm) returns (seconds: int)
    requires 0 <= date.mon < 12 && InInt(date.year)
    ensures seconds == Seconds(date)
  {
    hide DaysTo, Leap;
    var days, cycles, orig := 0, 0, date.year;
    if orig > 100 || orig < -300 {
      cycles := TDiv(orig - 100, 400);
      assert InInt(cycles);
      orig := orig - cycles * 400;
      days := days + cycles * CYCLE_DAYS;
    }
    Periodic(orig + 1900, cycles);
    assert date.year + 1900 == orig + 1900 + 400 * cycles;
    YearLength(1970);
    if orig > 70 {
      var year := 70;
      while year < orig
        invariant 70 <= year <= orig && days == cycles * CYCLE_DAYS + DaysTo(year + 1900)
      {
        YearLength(year + 1900);
        days := days + if IsLeap(year) then 366 else 365;
        year := year + 1;
      }
    } else if orig < 70 {
      var year := 69;
      while year >= orig
        invariant orig - 1 <= year <= 69 && days == cycles * CYCLE_DAYS + DaysTo(year + 1901)
      {
        YearLength(year + 1900);
        days := days - if IsLeap(year) then 366 else 365;
        year := year - 1;
      }
    }
    days := days + JulianDays(IsLeap(orig), date.mon);
    days := days + date.mday - 1;
    seconds := days * 60 * 60 * 24;
    seconds := seconds + date.hour * 60 * 60;
    seconds := seconds + date.min * 60;
    seconds := seconds + date.sec;
  }

  /** The time of day in gmtime64_r, with its truncating divisions and wrapping corrections. */
  method SplitTime(time: int) returns (sec: int, min: int, hour: int, tday: int)
    ensures 0 <= sec < 60 && 0 <= min < 60 && 0 <= hour < 24
    ensures time == tday * DAY + hour * 3600 + min * 60 + sec
  {
    var t := time;
    sec := TMod(t, 60);
    t := TDiv(t, 60);
    min := TMod(t, 60);
    t := TDiv(t, 60);
    hour := TMod(t, 24);
    t := TDiv(t, 24);
    tday := t;
    if sec < 0 { min := min - 1; sec := sec + 60; }
    if min < 0 { hour := hour - 1; min := min + 60; }
    if hour < 0 { tday := tday - 1; hour := hour + 24; }
  }

  /** The part of gmtime64_r for days from the epoch on. */
  method DateFrom(tday: int) returns (year: int, mon: int, m: int)
    requires 0 <= tday <= MAX_DAYS
    ensures 0 <= mon < 12 && 0 <= m < DaysInMonth(IsLeap(year), mon) && tday == DayNumber(year, mon, m)
  {
    hide DaysTo, Leap, DaysInMonth, JulianDays;
    year, m := 70, tday;
    EpochYears();
    if m >= CHEAT_DAYS {
      year := CHEAT_YEARS;
      m := m - CHEAT_DAYS;
    }
    var cycles := TDiv(m, CYCLE_DAYS);
    assert InInt(cycles);
    Periodic(year + 1900, cycles);
    m := m - cycles * CYCLE_DAYS;
    year := year + cycles * 400;
    var leap := IsLeap(year);
    while m >= if leap then 366 else 365
      invariant m >= 0 && leap == IsLeap(year) && tday == DaysTo(year + 1900) + m
      decreases m
    {
      YearLength(year + 1900);
      m := m - if leap then 366 else 365;
      year := year + 1;
      leap := IsLeap(year);
    }
    mon := 0;
    Months(leap, 0);
    while m >= DaysInMonth(leap, mon)
      invariant 0 <= mon < 12 && m >= 0 && tday == DayNumber(year, mon, m) && leap == IsLeap(year)
      invariant m < (if leap then 366 else 365) - JulianDays(leap, mon)
      decreases 12 - mon
    {
      Months(leap, mon);
      m := m - DaysInMonth(leap, mon);
      mon := mon + 1;
    }
  }

  /** The part of gmtime64_r for days before the epoch. */
  method DateBefore(tday: int) returns (year: int, mon: int, m: int)
    requires -MAX_DAYS <= tday < 0
    ensures 0 <= mon < 12 && 0 <= m < DaysInMonth(IsLeap(year), mon) && tday == DayNumber(year, mon, m)
  {
    hide DaysTo, Leap, DaysInMonth, JulianDays;
    year, m := 70, tday;
    EpochYears();
    year := year - 1;
    var cycles := TDiv(m, CYCLE_DAYS) + 1;
    assert InInt(cycles);
    Periodic(year + 1901, cycles);
    m := m - cycles * CYCLE_DAYS;
    year := year + cycles * 400;
    var leap := IsLeap(year);
    while m < -(if leap then 366 else 365)
      invariant m < 0 && leap == IsLeap(year) && tday == DaysTo(year + 1901) + m
      decreases -m
    {
      YearLength(year + 1900);
      m := m + if leap then 366 else 365;
      year := year - 1;
      leap := IsLeap(year);
    }
    mon := 11;
    YearLength(year + 1900);
    Months(leap, 11);
    while m < -DaysInMonth(leap, mon)
      invariant 0 <= mon < 12 && m < 0 && leap == IsLeap(year)
      invariant tday == DayNumber(year, mon, m + DaysInMonth(leap, mon))
      invariant m >= -(JulianDays(leap, mon) + DaysInMonth(leap, mon))
      decreases mon
    {
      Months(leap, mon);
      if mon > 0 { Months(leap, mon - 1); } else { Months(leap, 0); }
      m := m + DaysInMonth(leap, mon);
      mon := mon - 1;
    }
    m := m + DaysInMonth(leap, mon);
  }

  lemma EpochYears()
    ensures DaysTo(1970) == 0 && DaysTo(2008) == CHEAT_DAYS
  {}

  /** gmtime64_r: the date of a time, unless its year does not fit tm_year. */
  method Gmtime64(time: int) returns (ok: bool, p: Tm)
    requires -0x8000_0000_0000_0000 <= time < 0x8000_0000_0000_0000
    ensures ok ==> ValidTm(p) && InInt(p.year) && Seconds(p) == time
    ensures !ok ==> forall d: Tm :: ValidTm(d) && Seconds(d) == time ==> !InInt(d.year)
  {
    hide DaysTo, Leap, DaysInMonth, JulianDays;
    var sec, min, hour, tday := SplitTime(time);
    var wday := TMod(tday + 4, 7);
    if wday < 0 { wday := wday + 7; }
    var year, mon, m;
    if tday >= 0 { year, mon, m := DateFrom(tday); } else { year, mon, m := DateBefore(tday); }
    p := Tm(sec, min, hour, m + 1, mon, year, wday, JulianDays(IsLeap(year), mon) + m);
    WeekdayIs(tday, wday);
    ok := InInt(year);
    if !ok {
      forall d: Tm | ValidTm(d) && Seconds(d) == time ensures !InInt(d.year) { UniqueDate(d, p); }
    }
  }

  lemma WeekdayIs(tday: int, wday: int)
    requires wday == (if TMod(tday + 4, 7) < 0 then TMod(tday + 4, 7) + 7 else TMod(tday + 4, 7))
    ensures wday == (tday + 4) % 7
  {
    var x, q := tday + 4, TDiv(tday + 4, 7);
    if TMod(x, 7) < 0 { Div7(x, q - 1, wday); } else { Div7(x, q, wday); }
  }

  lemma Div7(x: int, q: int, r: int)
    requires x == 7 * q + r && 0 <= r < 7
    ensures x % 7 == r
  {}

  // ------------------------------ one date per second ------------------------------

  lemma SplitUnique(a: int, x: int, b: int, y: int)
    requires 0 <= x < DAY && 0 <= y < DAY && a * DAY + x == b * DAY + y
    ensures a == b && x == y
  {}

  /** Two valid dates with the same second are equal. */
  lemma UniqueDate(d: Tm, e: Tm)
    requires ValidTm(d) && ValidTm(e) && Seconds(d) == Seconds(e)
    ensures d == e
  {
    hide DaysTo, Leap, DaysInMonth, JulianDays, DayNumber;
    var x, y := d.hour * 3600 + d.min * 60 + d.sec, e.hour * 3600 + e.min * 60 + e.sec;
    SplitUnique(DayNumber(d.year, d.mon, d.mday - 1), x, DayNumber(e.year, e.mon, e.mday - 1), y);
    UniqueDay(d.year, d.mon, d.mday - 1, e.year, e.mon, e.mday - 1);
    UniqueClock(d.hour, d.min, d.sec, e.hour, e.min, e.sec);
  }

  lemma UniqueClock(h: int, m: int, s: int, h': int, m': int, s': int)
    requires 0 <= m < 60 && 0 <= s < 60 && 0 <= m' < 60 && 0 <= s' < 60
    requires h * 3600 + m * 60 + s == h' * 3600 + m' * 60 + s'
    ensures h == h' && m == m' && s == s'
  {}

  lemma UniqueDay(n: int, mon: int, m: int, n': int, mon': int, m': int)
    requires 0 <= mon < 12 && 0 <= m < DaysInMonth(IsLeap(n), mon) && 0 <= mon' < 12
    requires 0 <= m' < DaysInMonth(IsLeap(n'), mon')
    requires DayNumber(n, mon, m) == DayNumber(n', mon', m')
    ensures n == n' && mon == mon' && m == m'
  {
    hide DaysTo, Leap, DaysInMonth, JulianDays;
    DayInYear(n, mon, m);
    DayInYear(n', mon', m');
    if n < n' { LaterYear(n, n'); }
    if n' < n { LaterYear(n', n); }
    if mon < mon' { MonthsOrdered(IsLeap(n), mon, mon'); }
    if mon' < mon { MonthsOrdered(IsLeap(n), mon', mon); }
  }

  lemma LaterYear(n: int, n': int)
    requires n < n'
    ensures DaysTo(n + 1900) + Len(n + 1900) <= DaysTo(n' + 1900)
  {
    hide DaysTo;
    YearLength(n + 1900);
    DaysGrow(n + 1901, n' + 1900);
  }

  lemma DayInYear(n: int, mon: int, m: int)
    requires 0 <= mon < 12 && 0 <= m < DaysInMonth(IsLeap(n), mon)
    ensures DaysTo(n + 1900) <= DayNumber(n, mon, m) < DaysTo(n + 1900) + Len(n + 1900)
  {
    hide DaysTo, DaysInMonth, JulianDays, Leap;
    Months(IsLeap(n), mon);
    Months(IsLeap(n), 0);
    if mon > 0 { MonthsOrdered(IsLeap(n), 0, mon); }
    if mon < 11 { MonthsOrdered(IsLeap(n), mon, 11); Months(IsLeap(n), 11); }
  }

  lemma {:induction false} MonthsOrdered(leap: bool, mon: int, mon': int)
    requires 0 <= mon < mon' < 12
    ensures JulianDays(leap, mon) + DaysInMonth(leap, mon) <= JulianDays(leap, mon')
    decreases mon' - mon
  {
    hide DaysInMonth, JulianDays;
    Months(leap, mon);
    if mon + 1 < mon' { Months(leap, mon + 1); MonthsOrdered(leap, mon + 1, mon'); }
  }

  /** Both round trips: a time goes to a date and back, and every valid date comes back from its time. */
  method RoundTrips(time: int, d: Tm) returns (ok: bool, back: int, same: Tm)
    requires -0x8000_0000_0000_0000 <= time < 0x8000_0000_0000_0000
    requires ValidTm(d) && InInt(d.year)
    ensures ok ==> back == time
    ensures same == d
  {
    var p;
    ok, p := Gmtime64(time);
    if ok { back := Timegm64(p); } else { back := 0; }
    var t := Timegm64(d);
    SecondsFit(d);
    var fine;
    fine, same := Gmtime64(t);
    UniqueDate(d, same);
  }

  lemma SecondsFit(d: Tm)
    requires ValidTm(d) && InInt(d.year)
    ensures -0x8000_0000_0000_0000 <= Seconds(d) < 0x8000_0000_0000_0000
  {
    hide DaysTo, DaysInMonth, JulianDays, Leap;
    DayInYear(d.year, d.mon, d.mday - 1);
    if d.year >= 70 { DaysGrow(1970, d.year + 1900); } else { DaysGrow(d.year + 1900, 1970); }
    YearLength(1970);
  }

  // ------------------------------ years the system can handle ------------------------------

  const SAFE_HIGH: seq<int> := [
    2016, 2017, 2018, 2019, 2020, 2021, 2022, 2023, 2024, 2025, 2026, 2027, 2028, 2029,
    2030, 2031, 2032, 2033, 2034, 2035, 2036, 2037, 2010, 2011, 2012, 2013, 2014, 2015]

  const SAFE_LOW: seq<int> := [
    1996, 1997, 1998, 1971, 1972, 1973, 1974, 1975, 1976, 1977, 1978, 1979, 1980, 1981,
    1982, 1983, 1984, 1985, 1986, 1987, 1988, 1989, 1990, 1991, 1992, 1993, 1994, 1995]

  /** is_exception_century */
  predicate ExceptionCentury(y: int) { y % 100 == 0 && y % 400 != 0 }

  /** cycle_offset */
  function CycleOffset(y: int): int
  {
    var diff := if y > 2000 then y - 2000 - 1 else y - 2000;
    (TDiv(diff, 100) - TDiv(diff, 400)) * 16
  }

  /** year_cycle before it is reduced to the solar cycle */
  function YearCycle(y: int): int
  {
    y + CycleOffset(y) + (if y < 1971 then -8 else 0)
    + (if ExceptionCentury(y) then 11 else 0) + (if ExceptionCentury(y - 1) then 17 else 0)
  }

  /** Truncating remainder, then the correction for negative values. */
  function SolarIndex(c: int): (i: int)
    ensures 0 <= i < 28 && i == c % 28
  {
    var r := TMod(c, 28);
    var q := TDiv(c, 28);
    if r < 0 then Div28(c, q - 1, 28 + r); 28 + r else Div28(c, q, r); r
  }

  lemma Div28(x: int, q: int, r: int)
    requires x == 28 * q + r && 0 <= r < 28
    ensures x % 28 == r
  {}

  /** safe_year */
  function SafeYear(y: int): (s: int)
  {
    if 1971 <= y <= 2037 then y
    else if y < 1971 then SAFE_LOW[SolarIndex(YearCycle(y))]
    else SAFE_HIGH[SolarIndex(YearCycle(y))]
  }

  /** The weekday of January 1st, as days from the epoch modulo 7. */
  function Jan1(y: int): int { DaysTo(y) % 7 }

  /** The exceptional centuries between 2000 and y, with their sign. */
  function Exceptions(y: int): int { (y - 1) / 100 - (y - 1) / 400 - 15 }

  lemma OffsetCounts(y: int)
    ensures CycleOffset(y) == 16 * Exceptions(y)
  {
    var a, b := (y - 1) / 100, (y - 1) / 400;
    var ra, rb := (y - 1) % 100, (y - 1) % 400;
    if y > 2000 {
      Div100(y - 2001, a - 20, ra);
      Div400(y - 2001, b - 5, rb);
    } else {
      Div100(2000 - y, 19 - a, 99 - ra);
      Div400(2000 - y, 4 - b, 399 - rb);
    }
  }

  /** The tables hold, for each place in the solar cycle, the year of a fixed 28-year window in that place. */
  lemma Tables(i: int)
    requires 0 <= i < 28
    ensures 2010 <= SAFE_HIGH[i] <= 2037 && (SAFE_HIGH[i] - i) % 28 == 0
    ensures 1971 <= SAFE_LOW[i] <= 1998 && (SAFE_LOW[i] - i - 8) % 28 == 0
  {}

  /** The safe year has the place of y in the solar cycle, corrected for the exceptional centuries. */
  lemma SafePlace(y: int) returns (k: int)
    requires y < 1971 || y > 2037
    ensures 1971 <= SafeYear(y) <= 2037
    ensures SafeYear(y) == y + 16 * Exceptions(y) + 28 * k
        + (if ExceptionCentury(y) then 11 else 0) + (if ExceptionCentury(y - 1) then 17 else 0)
  {
    hide CycleOffset, Exceptions;
    OffsetCounts(y);
    var c := YearCycle(y);
    var i := SolarIndex(c);
    Tables(i);
    var t := if y < 1971 then (SAFE_LOW[i] - i - 8) / 28 else (SAFE_HIGH[i] - i) / 28;
    k := t - c / 28;
  }

  /** Within the safe years every fourth year is a leap year, so the calendar repeats after 28 years. */
  lemma SafeCalendar(s: int)
    requires 1970 <= s <= 2037
    ensures (Leap(s) <==> s % 4 == 0) && DaysTo(s) == 365 * (s - 1970) + (s - 1) / 4 - 492
  {}

  /** A multiple of 7 days apart: the same weekday. */
  lemma SameWeekday(a: int, b: int, w: int)
    requires a == b + 7 * w
    ensures a % 7 == b % 7
  {
    Div7(a, b / 7 + w, b % 7);
  }

  lemma DaysToExceptions(y: int)
    ensures DaysTo(y) == 365 * (y - 1970) + (y - 1) / 4 - Exceptions(y) - 492
  {}

  /** c years and some turns of the solar cycle later the weekday is the same. */
  lemma SameJan1(y: int, s: int, e: int, k: int, c: int, d: int)
    requires s == y + 16 * e + c + 28 * k && (s - 1) / 4 == (y - 1) / 4 + 4 * e + 7 * k + d
    requires (c == 0 && d == 0) || (c == 11 && d == 3) || (c == 17 && d == 4)
    requires DaysTo(y) == 365 * (y - 1970) + (y - 1) / 4 - e - 492 && DaysTo(s) == 365 * (s - 1970) + (s - 1) / 4 - 492
    ensures Jan1(s) == Jan1(y)
  {
    hide DaysTo;
    var w := 835 * e + 1461 * k + if c == 0 then 0 else if c == 11 then 574 else 887;
    assert DaysTo(s) == DaysTo(y) + 7 * w;
    SameWeekday(DaysTo(s), DaysTo(y), w);
  }

  /** Where s stands in the four-year cycle. */
  lemma FourYears(y: int, s: int, e: int, k: int, c: int, d: int)
    requires s == y + 16 * e + c + 28 * k
    requires (c == 0 && d == 0) || (c == 11 && d == 3 && y % 4 == 0) || (c == 17 && d == 4 && y % 4 == 1)
    ensures (s - 1) / 4 == (y - 1) / 4 + 4 * e + 7 * k + d
    ensures s % 4 == (if c == 0 then y % 4 else if c == 11 then 3 else 2)
  {
    var q, r := (y - 1) / 4, (y - 1) % 4;
    Div4(y, if r < 3 then q else q + 1, if r < 3 then r + 1 else 0);
    if c == 0 {
      Div4(s - 1, q + 4 * e + 7 * k, r);
      Div4(s, (if r < 3 then q else q + 1) + 4 * e + 7 * k, y % 4);
    } else if c == 11 {
      Div4(s - 1, q + 4 * e + 7 * k + 3, 2);
      Div4(s, q + 4 * e + 7 * k + 3, 3);
    } else {
      Div4(s - 1, q + 4 * e + 7 * k + 4, 1);
      Div4(s, q + 4 * e + 7 * k + 4, 2);
    }
  }

  lemma NotBothExceptions(y: int)
    ensures !(ExceptionCentury(y) && ExceptionCentury(y - 1))
    ensures ExceptionCentury(y) ==> y % 4 == 0 && !Leap(y) && !Leap(y - 1)
    ensures ExceptionCentury(y - 1) ==> y % 4 == 1 && !Leap(y) && !Leap(y - 1)
    ensures !ExceptionCentury(y) ==> (Leap(y) <==> y % 4 == 0)
  {
    Divides(y);
    Divides(y - 1);
    if ExceptionCentury(y) { Div100(y - 1, y / 100 - 1, 99); Div4(y - 1, y / 4 - 1, 3); }
    if ExceptionCentury(y - 1) { Div4(y, (y - 1) / 4, 1); Div100(y, (y - 1) / 100, 1); }
  }

  lemma Before4(y: int)
    ensures (y - 1) % 4 == if y % 4 == 0 then 3 else y % 4 - 1
  {
    Div4(y - 1, if y % 4 == 0 then y / 4 - 1 else y / 4, if y % 4 == 0 then 3 else y % 4 - 1);
  }

  /**
   * For every year: a safe year that starts on the same weekday, with the same leap status, after a year with the same
   * leap status.
   */
  lemma SafeYearMatches(y: int)
    ensures var s := SafeYear(y);
            && 1971 <= s <= 2037 && Leap(s) == Leap(y) && Leap(s - 1) == Leap(y - 1)
            && Jan1(s) == Jan1(y) && Jan1(s + 1) == Jan1(y + 1)
  {
    hide DaysTo, Leap, Exceptions, SafeYear;
    if 1971 <= y <= 2037 {
      SafeIsSelf(y);
    } else {
      var k := SafePlace(y);
      var s, e := SafeYear(y), Exceptions(y);
      var c := if ExceptionCentury(y) then 11 else if ExceptionCentury(y - 1) then 17 else 0;
      var d := if ExceptionCentury(y) then 3 else if ExceptionCentury(y - 1) then 4 else 0;
      NotBothExceptions(y);
      NotBothExceptions(y - 1);
      FourYears(y, s, e, k, c, d);
      SafeCalendar(s);
      SafeCalendar(s - 1);
      DaysToExceptions(y);
      SameJan1(y, s, e, k, c, d);
      Before4(s);
      Before4(y);
      NextJan1(y, s);
    }
  }

  lemma SafeIsSelf(y: int)
    requires 1971 <= y <= 2037
    ensures SafeYear(y) == y
  {}

  lemma NextJan1(y: int, s: int)
    requires Jan1(s) == Jan1(y) && Leap(s) == Leap(y)
    ensures Jan1(s + 1) == Jan1(y + 1)
  {
    hide DaysTo, Leap;
    YearLength(y);
    YearLength(s);
    var w := DaysTo(s) / 7 - DaysTo(y) / 7;
    assert DaysTo(s) == DaysTo(y) + 7 * w;
    SameWeekday(DaysTo(s + 1), DaysTo(y + 1), w);
  }

  // ------------------------------ seconds between years ------------------------------

  /** The number of whole cycles by which seconds_between_years moves the left year; negative before 1600. */
  function Cycles(left: int): int
  { if left > 2400 then TDiv(left - 2400, 400) else if left < 1600 then TDiv(left - 1600, 400) else 0 }

  /** The left year after that: less by so many cycles on either side. */
  function Moved(left: int): int { if left > 2400 then left - Cycles(left) * 400 else left + Cycles(left) * 400 }

  /** The loop moves the right year towards the left one and meets it. */
  predicate LoopEnds(left: int, right: int) { left > right ==> right <= Moved(left) }

  /** By how many days the answer is off. */
  function Error(left: int, right: int): int
  {
    (if left < right then Len(left) - Len(right) else 0) +
    (if left > 2400 && left <= right then -2 * Cycles(left) * CYCLE_DAYS else 0) +
    (if left < 1600 && left > right then 2 * Cycles(left) * CYCLE_DAYS else 0)
  }

  predicate InLong(x: int) { -0x8000_0000_0000_0000 <= x < 0x8000_0000_0000_0000 }

  lemma MovedDays(left: int)
    ensures left > 2400 ==> DaysTo(Moved(left)) == DaysTo(left) - Cycles(left) * CYCLE_DAYS
    ensures left <= 2400 ==> DaysTo(Moved(left)) == DaysTo(left) + Cycles(left) * CYCLE_DAYS
    ensures Len(Moved(left)) == Len(left) && Moved(left) <= left
  {
    hide DaysTo, Leap;
    Periodic(left, if left > 2400 then -Cycles(left) else Cycles(left));
  }

  /** seconds_between_years, where its loop ends. */
  method SecondsBetweenYears(left: int, right: int) returns (r: int)
    requires InInt(left - 1900) && InInt(right - 1900) && LoopEnds(left, right)
    ensures r == (DaysTo(left) - DaysTo(right) + Error(left, right)) * DAY && InLong(r)
  {
    hide DaysTo, Leap;
    var increment := if left > right then 1 else -1;
    var cycles, l := 0, left;
    if l > 2400 {
      cycles := TDiv(l - 2400, 400);
      l := l - cycles * 400;
    } else if l < 1600 {
      cycles := TDiv(l - 1600, 400);
      l := l + cycles * 400;
    }
    assert InInt(cycles) && cycles == Cycles(left) && l == Moved(left);
    r := CountYears(l, right, increment, cycles);
    BetweenTotal(left, right, l, cycles);
  }

  /** The loop of seconds_between_years, and the sign. */
  method CountYears(l: int, right: int, increment: int, cycles: int) returns (r: int)
    requires (increment == 1 && right <= l) || (increment == -1 && l <= right)
    requires -0x2_0000_0000 <= right - l <= 0x2_0000_0000 && InInt(cycles) && -0x100_0000 < cycles < 0x100_0000
    ensures InLong(r) && r == Counted(l, right, increment, cycles) * DAY
  {
    hide DaysTo, Leap;
    var seconds, rt := cycles * (CYCLE_DAYS * DAY), right;
    ghost var days := cycles * CYCLE_DAYS;
    while l != rt
      invariant if increment == 1 then right <= rt <= l else l <= rt <= right
      invariant increment == 1 ==> days == cycles * CYCLE_DAYS + DaysTo(rt) - DaysTo(right)
      invariant increment == -1 ==> days == cycles * CYCLE_DAYS + DaysTo(right) - DaysTo(rt) + Len(right) - Len(rt)
      invariant seconds == days * DAY
      invariant 0 <= days - cycles * CYCLE_DAYS <= 366 * (if increment == 1 then rt - right else right - rt)
      decreases if increment == 1 then l - rt else rt - l
    {
      YearLength(rt);
      YearLength(rt - 1);
      seconds := seconds + (if IsLeap(rt - 1900) then 366 else 365) * 60 * 60 * 24;
      days := days + Len(rt);
      rt := rt + increment;
      assert InLong(seconds);
    }
    r := seconds * increment;
  }

  /** The days that the loop and the cycles come to. */
  function Counted(l: int, right: int, increment: int, cycles: int): int
  {
    if increment == 1 then cycles * CYCLE_DAYS + DaysTo(l) - DaysTo(right)
    else -(cycles * CYCLE_DAYS + DaysTo(right) - DaysTo(l) + Len(right) - Len(l))
  }

  lemma BetweenTotal(left: int, right: int, l: int, cycles: int)
    requires l == Moved(left) && cycles == Cycles(left)
    ensures Counted(l, right, if left > right then 1 else -1, cycles) ==
        DaysTo(left) - DaysTo(right) + Error(left, right)
  {
    hide DaysTo, Leap, Moved, Cycles;
    MovedDays(left);
    if 1600 <= left <= 2400 { NoCycles(left); }
  }

  lemma NoCycles(left: int)
    requires 1600 <= left <= 2400
    ensures Cycles(left) == 0
  {}

  /** Otherwise the right year moves away from the left one. */
  lemma LoopMissesOtherwise(left: int, right: int, n: nat)
    requires !LoopEnds(left, right)
    ensures left > right && right + n != Moved(left)
  {}

  /**
   * Where the loop ends, the answer is right exactly when the count goes up or the two years have the same leap status,
   * and no cycles were counted in the wrong direction.
   */
  lemma BetweenIsRight(left: int, right: int)
    ensures Error(left, right) == 0 <==>
      (left >= right || Leap(left) == Leap(right)) && !(2800 <= left <= right) && !(right < left <= 1200)
  {
    hide DaysTo, Leap;
  }

  /** Against its safe year, every year that a date can have gets the right distance. */
  method SecondsFromSafe(y: int) returns (r: int)
    requires InInt(y - 1900)
    ensures r == (DaysTo(y) - DaysTo(SafeYear(y))) * DAY && InLong(r)
  {
    hide DaysTo, Leap, SafeYear;
    SafeYearMatches(y);
    BetweenIsRight(y, SafeYear(y));
    r := SecondsBetweenYears(y, SafeYear(y));
  }

  /** 1600 was a leap year and 1601 was not: between them the answer is a day off. */
  method BetweenCanBeWrong() returns (r: int)
    ensures r == (DaysTo(1600) - DaysTo(1601) + 1) * DAY
  {
    r := SecondsBetweenYears(1600, 1601);
  }
}
