/** Broken-down time in UTC, as section 4.16 of POSIX.1-2017 XBD defines it, and the
    bounds of days and months in a time zone. */
module Calendar {

  /** The fields of `struct tm` that are used: years since 1900, months from 0, days from 1. */
  datatype Tm = Tm(year: int, mon: int, mday: int, hour: int, min: int, sec: int)

  predicate Leap(year: int) {
    (1900 + year) % 4 == 0 && ((1900 + year) % 100 != 0 || (1900 + year) % 400 == 0)
  }

  /** Days from the Epoch to the first day of a year: the part of the formula of section
      4.16 that depends on the year, with divisions that round down. */
  function YearDays(year: int): int {
    (year - 70) * 365 + (year - 69) / 4 - (year - 1) / 100 + (year + 299) / 400
  }

  function YearLength(year: int): int {
    if Leap(year) then 366 else 365
  }

  function MonthLength(year: int, mon: int): (n: int)
    requires 0 <= mon < 12
    ensures 28 <= n <= 31
  {
    if mon == 1 then (if Leap(year) then 29 else 28)
    else if mon in {3, 5, 8, 10} then 30 else 31
  }

  /** Days of the year before a month. */
  function MonthDays(year: int, mon: int): int
    requires 0 <= mon <= 12
  {
    if mon == 0 then 0 else MonthDays(year, mon - 1) + MonthLength(year, mon - 1)
  }

  /** Days from the Epoch; a month outside the year counts into other years. */
  function Days(year: int, mon: int, mday: int): int {
    YearDays(year + mon / 12) + MonthDays(year + mon / 12, mon % 12) + mday - 1
  }

  /** timegm. */
  function TimeGm(tm: Tm): int {
    Days(tm.year, tm.mon, tm.mday) * 86400 + tm.hour * 3600 + tm.min * 60 + tm.sec
  }

  predicate Normal(tm: Tm) {
    && NormalDate(tm.year, tm.mon, tm.mday)
    && 0 <= tm.hour < 24 && 0 <= tm.min < 60 && 0 <= tm.sec < 60
  }

  /** The formula of section 4.16, with `yday` the days of the year before the day. */
  function PosixSeconds(tm: Tm, yday: int): int {
    tm.sec + tm.min * 60 + tm.hour * 3600 + yday * 86400 + (tm.year - 70) * 31536000
    + (tm.year - 69) / 4 * 86400 - (tm.year - 1) / 100 * 86400 + (tm.year + 299) / 400 * 86400
  }

  lemma {:induction false} IsPosix(tm: Tm)
    requires Normal(tm)
    ensures TimeGm(tm) == PosixSeconds(tm, MonthDays(tm.year, tm.mon) + tm.mday - 1)
  {
    hide MonthDays;
    assert tm.mon / 12 == 0 && tm.mon % 12 == tm.mon;
  }

  // ----- years and months ---------------------------------------------------------

  lemma {:induction false} Every4(year: int)
    ensures (year - 68) / 4 - (year - 69) / 4 == if (1900 + year) % 4 == 0 then 1 else 0
  {
  }

  lemma {:induction false} Every100(year: int)
    ensures year / 100 - (year - 1) / 100 == if (1900 + year) % 100 == 0 then 1 else 0
  {
  }

  lemma {:induction false} Every400(year: int)
    ensures (year + 300) / 400 - (year + 299) / 400 == if (1900 + year) % 400 == 0 then 1 else 0
  {
  }

  lemma {:induction false} Divides(n: int)
    ensures n % 400 == 0 ==> n % 100 == 0
    ensures n % 100 == 0 ==> n % 4 == 0
  {
    Multiple(n / 400 * 4);
    Multiple(n / 100 * 25);
  }

  lemma {:induction false} Multiple(k: int)
    ensures 100 * k % 100 == 0 && 4 * k % 4 == 0
  {
  }

  /** The formula of the standard moves on by the length of the year. */
  lemma {:induction false} NextYear(year: int)
    ensures YearDays(year + 1) == YearDays(year) + YearLength(year)
  {
    Every4(year);
    Every100(year);
    Every400(year);
    Divides(1900 + year);
    Steps((year - 68) / 4, (year - 69) / 4, year / 100, (year - 1) / 100, (year + 300) / 400, (year + 299) / 400, year);
  }

  lemma {:induction false} Steps(a: int, b: int, c: int, d: int, e: int, f: int, year: int)
    requires a == (year - 68) / 4 && b == (year - 69) / 4 && c == year / 100 && d == (year - 1) / 100
    requires e == (year + 300) / 400 && f == (year + 299) / 400
    ensures YearDays(year + 1) - YearDays(year) == 365 + (a - b) - (c - d) + (e - f)
  {
  }

  lemma {:induction false} WholeYear(year: int)
    ensures MonthDays(year, 12) == YearLength(year)
  {
    assert MonthDays(year, 1) == 31;
    assert MonthDays(year, 2) == 31 + MonthLength(year, 1);
    assert MonthDays(year, 3) == MonthDays(year, 2) + 31;
    assert MonthDays(year, 4) == MonthDays(year, 2) + 61;
    assert MonthDays(year, 5) == MonthDays(year, 2) + 92;
    assert MonthDays(year, 6) == MonthDays(year, 2) + 122;
    assert MonthDays(year, 7) == MonthDays(year, 2) + 153;
    assert MonthDays(year, 8) == MonthDays(year, 2) + 184;
    assert MonthDays(year, 9) == MonthDays(year, 2) + 214;
    assert MonthDays(year, 10) == MonthDays(year, 2) + 245;
    assert MonthDays(year, 11) == MonthDays(year, 2) + 275;
  }

  /** The lengths of the months, from January on, and the leap rule. */
  lemma {:induction false} MonthsAre(year: int, mon: int)
    requires 0 <= mon < 12
    ensures var y := 1900 + year;
            var february := if y % 400 == 0 then 29 else if y % 100 == 0 then 28 else if y % 4 == 0 then 29 else 28;
            MonthLength(year, mon) == [31, february, 31, 30, 31, 30, 31, 31, 30, 31, 30, 31][mon]
  {
    Divides(1900 + year);
  }

  lemma {:induction false} YearsGrow(a: int, b: int)
    requires a < b
    ensures YearDays(a) + YearLength(a) <= YearDays(b)
    decreases b - a
  {
    hide YearDays, Leap;
    NextYear(a);
    if a + 1 < b {
      YearsGrow(a + 1, b);
    }
  }

  lemma {:induction false} MonthsGrow(year: int, a: int, b: int)
    requires 0 <= a < b <= 12
    ensures MonthDays(year, a) + MonthLength(year, a) <= MonthDays(year, b)
    decreases b
  {
    hide MonthLength;
    if a < b - 1 {
      MonthsGrow(year, a, b - 1);
    }
  }

  // ----- gmtime -------------------------------------------------------------------

  /** The year of a day, searched from a year that is too early or too late. */
  function YearFrom(year: int, day: int): (y: int)
    ensures YearDays(y) <= day < YearDays(y + 1)
    decreases if day < YearDays(year) then YearDays(year) - day else day - YearDays(year)
  {
    NextYear(year);
    NextYear(year - 1);
    if day < YearDays(year) then YearDown(year - 1, day)
    else YearUp(year, day)
  }

  function YearDown(year: int, day: int): (y: int)
    requires day < YearDays(year + 1)
    ensures YearDays(y) <= day < YearDays(y + 1)
    decreases YearDays(year + 1) - day
  {
    NextYear(year);
    if day < YearDays(year) then YearDown(year - 1, day) else year
  }

  function YearUp(year: int, day: int): (y: int)
    requires YearDays(year) <= day
    ensures YearDays(y) <= day < YearDays(y + 1)
    decreases day - YearDays(year)
  {
    NextYear(year);
    if YearDays(year + 1) <= day then YearUp(year + 1, day) else year
  }

  /** The last month that begins on or before a day of the year. */
  function MonthFrom(year: int, mon: int, yday: int): (m: int)
    requires 0 <= mon < 12 && 0 <= yday < MonthDays(year, mon + 1)
    ensures 0 <= m <= mon && MonthDays(year, m) <= yday < MonthDays(year, m + 1)
  {
    if MonthDays(year, mon) <= yday then mon else MonthFrom(year, mon - 1, yday)
  }

  lemma {:induction false} YearHasMonths(year: int, day: int)
    requires YearDays(year) <= day < YearDays(year + 1)
    ensures 0 <= day - YearDays(year) < MonthDays(year, 12)
  {
    NextYear(year);
    WholeYear(year);
  }

  predicate NormalDate(year: int, mon: int, mday: int) {
    0 <= mon < 12 && 1 <= mday <= MonthLength(year, mon)
  }

  lemma {:induction false} DayOfMonth(year: int, mon: int, yday: int)
    requires 0 <= mon < 12 && MonthDays(year, mon) <= yday < MonthDays(year, mon + 1)
    ensures var mday := yday - MonthDays(year, mon) + 1; NormalDate(year, mon, mday) && Days(year, mon, mday) == YearDays(year) + yday
  {
    hide MonthLength, YearDays;
    assert mon / 12 == 0 && mon % 12 == mon;
  }

  /** The date of a day. */
  function Date(day: int): (d: (int, int, int))
    ensures NormalDate(d.0, d.1, d.2) && Days(d.0, d.1, d.2) == day
  {
    var year := YearFrom(70, day);
    YearHasMonths(year, day);
    var yday := day - YearDays(year);
    var mon := MonthFrom(year, 11, yday);
    DayOfMonth(year, mon, yday);
    (year, mon, yday - MonthDays(year, mon) + 1)
  }

  lemma {:induction false} TimeOfDay(rest: int)
    requires 0 <= rest < 86400
    ensures rest / 3600 * 3600 + rest / 60 % 60 * 60 + rest % 60 == rest && rest / 3600 < 24
  {
    assert rest / 3600 == rest / 60 / 60;
  }

  /** gmtime: the normal broken-down time whose stamp is `t`. */
  function GmTime(t: int): (tm: Tm)
    ensures Normal(tm) && TimeGm(tm) == t
  {
    var d, rest := Date(t / 86400), t % 86400;
    TimeOfDay(rest);
    Tm(d.0, d.1, d.2, rest / 3600, rest / 60 % 60, rest % 60)
  }

  /** There is only one. */
  lemma {:induction false} DateUnique(y: int, m: int, d: int, y': int, m': int, d': int)
    requires NormalDate(y, m, d) && NormalDate(y', m', d') && Days(y, m, d) == Days(y', m', d')
    ensures y == y' && m == m' && d == d'
  {
    hide YearDays, YearLength, MonthLength;
    DayInYear(y, m, d);
    DayInYear(y', m', d');
    if y < y' {
      YearsGrow(y, y');
    } else if y' < y {
      YearsGrow(y', y);
    } else if m < m' {
      MonthsGrow(y, m, m');
    } else if m' < m {
      MonthsGrow(y, m', m);
    }
  }

  lemma {:induction false} DayInYear(y: int, m: int, d: int)
    requires NormalDate(y, m, d)
    ensures Days(y, m, d) == YearDays(y) + MonthDays(y, m) + d - 1
    ensures 0 <= MonthDays(y, m) && MonthDays(y, m) + d <= YearLength(y)
  {
    hide YearDays, YearLength, MonthLength;
    WholeYear(y);
    MonthsGrow(y, m, 12);
    if m > 0 {
      MonthsGrow(y, 0, m);
    }
  }

  lemma {:induction false} GmTimeUnique(a: Tm, b: Tm)
    requires Normal(a) && Normal(b) && TimeGm(a) == TimeGm(b)
    ensures a == b
  {
    hide Days, MonthLength;
    assert Days(a.year, a.mon, a.mday) == Days(b.year, b.mon, b.mday);
    DateUnique(a.year, a.mon, a.mday, b.year, b.mon, b.mday);
  }
}
