/** The days and months that a stamp falls into, in the time zone `tz` hours ahead of UTC. */
module Periods {
  import opened Calendar

  function Local(ts: int, tz: int): int {
    ts + 3600 * tz
  }

  /** The first second of the local day. */
  function DayTs(ts: int, tz: int): int {
    Local(ts, tz) / 86400 * 86400 - 3600 * tz
  }

  function DayEndTs(ts: int, tz: int): int {
    DayTs(ts, tz) + 86399
  }

  /** The first day of the month of a day. */
  function FirstDay(day: int): int {
    var d := Date(day);
    Days(d.0, d.1, 1)
  }

  /** The first day of the month after; month 12 is the January after. */
  function NextFirstDay(day: int): int {
    var d := Date(day);
    Days(d.0, d.1 + 1, 1)
  }

  /** The first second of the local month. */
  function MonthTs(ts: int, tz: int): int {
    FirstDay(Local(ts, tz) / 86400) * 86400 - 3600 * tz
  }

  /** The second before the next local month. */
  function MonthEndTs(ts: int, tz: int): int {
    NextFirstDay(Local(ts, tz) / 86400) * 86400 - 1 - 3600 * tz
  }

  // ----- the code ------------------------------------------------------------------

  lemma {:induction false} GmDate(t: int)
    ensures var tm, d := GmTime(t), Date(t / 86400); tm.year == d.0 && tm.mon == d.1 && tm.mday == d.2
  {
  }

  method GetDayTs(timestamp: int, tz: int) returns (r: int)
    ensures r == DayTs(timestamp, tz)
  {
    var tm := GmTime(timestamp + 3600 * tz);
    GmDate(timestamp + 3600 * tz);
    hide GmTime, Days;
    tm := tm.(hour := 0);
    tm := tm.(min := 0);
    tm := tm.(sec := 0);
    r := TimeGm(tm) - 3600 * tz;
  }

  method GetDayEndTs(timestamp: int, tz: int) returns (r: int)
    ensures r == DayEndTs(timestamp, tz)
  {
    r := GetDayTs(timestamp, tz);
    r := r + 86399;
  }

  method GetMonthTs(timestamp: int, tz: int) returns (r: int)
    ensures r == MonthTs(timestamp, tz)
  {
    var tm := GmTime(timestamp + 3600 * tz);
    GmDate(timestamp + 3600 * tz);
    hide GmTime, Days, Date;
    tm := tm.(hour := 0);
    tm := tm.(min := 0);
    tm := tm.(sec := 0);
    tm := tm.(mday := 1);
    r := TimeGm(tm) - 3600 * tz;
  }

  method GetMonthEndTs(timestamp: int, tz: int) returns (r: int)
    ensures r == MonthEndTs(timestamp, tz)
  {
    var tm := GmTime(timestamp + 3600 * tz);
    GmDate(timestamp + 3600 * tz);
    hide GmTime, Date;
    CarryMonth(tm.year, 1);
    hide Days;
    tm := tm.(hour := 0);
    tm := tm.(min := 0);
    tm := tm.(sec := 0);
    tm := tm.(mday := 1);
    tm := tm.(mon := tm.mon + 1);
    if tm.mon == 12 {
      tm := tm.(mon := 0);
      tm := tm.(year := tm.year + 1);
    }
    r := TimeGm(tm) - 1 - 3600 * tz;
  }

  lemma {:induction false} CarryMonth(year: int, mday: int)
    ensures Days(year, 12, mday) == Days(year + 1, 0, mday)
  {
  }

  // ----- the laws ------------------------------------------------------------------

  /** Days tile the line: each holds the stamp it was computed from, gives the same
      bounds for every stamp in it, and is followed at once by the next one. */
  lemma {:induction false} DaysTile(ts: int, tz: int, x: int)
    ensures DayTs(ts, tz) <= ts <= DayEndTs(ts, tz)
    ensures DayTs(ts, tz) <= x <= DayEndTs(ts, tz) <==> DayTs(x, tz) == DayTs(ts, tz)
    ensures DayTs(DayEndTs(ts, tz) + 1, tz) == DayEndTs(ts, tz) + 1
  {
    SameQuotient(Local(ts, tz), Local(x, tz));
    SameQuotient(Local(ts, tz), Local(DayEndTs(ts, tz) + 1, tz));
  }

  lemma {:induction false} SameQuotient(a: int, b: int)
    ensures a / 86400 * 86400 <= a < a / 86400 * 86400 + 86400
    ensures a / 86400 * 86400 <= b < a / 86400 * 86400 + 86400 <==> b / 86400 == a / 86400
    ensures b == a / 86400 * 86400 + 86400 ==> b / 86400 == a / 86400 + 1
  {
  }

  lemma {:induction false} NextMonth(year: int, mon: int)
    requires 0 <= mon < 12
    ensures Days(year, mon + 1, 1) == Days(year, mon, 1) + MonthLength(year, mon)
  {
    hide YearDays, MonthLength;
    if mon == 11 {
      NextYear(year);
      WholeYear(year);
      CarryMonth(year, 1);
      assert MonthDays(year, 12) == MonthDays(year, 11) + MonthLength(year, 11);
    } else {
      assert (mon + 1) / 12 == 0 && (mon + 1) % 12 == mon + 1;
    }
  }

  lemma {:induction false} MonthAround(year: int, mon: int, mday: int)
    requires NormalDate(year, mon, mday)
    ensures Days(year, mon, 1) <= Days(year, mon, mday) < Days(year, mon, 1) + MonthLength(year, mon)
  {
    hide MonthLength, MonthDays, YearDays;
  }

  /** A day is in its month, and the month is as long as it should be. */
  lemma {:induction false} DayInMonth(day: int)
    ensures FirstDay(day) <= day < NextFirstDay(day)
    ensures NextFirstDay(day) == FirstDay(day) + MonthLength(Date(day).0, Date(day).1)
  {
    hide Date, MonthLength, Days;
    var d := Date(day);
    NextMonth(d.0, d.1);
    MonthAround(d.0, d.1, d.2);
  }

  lemma {:induction false} DateOf(year: int, mon: int, day: int)
    requires 0 <= mon < 12 && Days(year, mon, 1) <= day < Days(year, mon, 1) + MonthLength(year, mon)
    ensures Date(day).0 == year && Date(day).1 == mon
  {
    hide MonthLength, YearDays, MonthDays, Date;
    var d, mday := Date(day), day - Days(year, mon, 1) + 1;
    assert Days(year, mon, mday) == Days(year, mon, 1) + mday - 1;
    DateUnique(d.0, d.1, d.2, year, mon, mday);
  }

  lemma {:induction false} SameMonth(day: int, e: int)
    requires FirstDay(day) <= e < NextFirstDay(day)
    ensures FirstDay(e) == FirstDay(day) && NextFirstDay(e) == NextFirstDay(day)
  {
    hide Date, MonthLength, Days;
    var d := Date(day);
    NextMonth(d.0, d.1);
    DateOf(d.0, d.1, e);
  }

  /** A month begins where the one before ends. */
  lemma {:induction false} NextFirstIsFirst(day: int)
    ensures FirstDay(NextFirstDay(day)) == NextFirstDay(day)
  {
    hide Date, MonthLength, Days;
    var d := Date(day);
    var y, m := if d.1 == 11 then d.0 + 1 else d.0, if d.1 == 11 then 0 else d.1 + 1;
    CarryMonth(d.0, 1);
    assert NextFirstDay(day) == Days(y, m, 1);
    DateOf(y, m, NextFirstDay(day));
  }

  /** Months tile the line in the same way, and each is as long as the calendar says. */
  lemma {:induction false} MonthsTile(ts: int, tz: int, x: int)
    ensures MonthTs(ts, tz) <= ts <= MonthEndTs(ts, tz)
    ensures MonthTs(ts, tz) <= x <= MonthEndTs(ts, tz) <==> MonthTs(x, tz) == MonthTs(ts, tz)
    ensures MonthTs(MonthEndTs(ts, tz) + 1, tz) == MonthEndTs(ts, tz) + 1
    ensures var tm := GmTime(Local(ts, tz));
            MonthEndTs(ts, tz) + 1 - MonthTs(ts, tz) == 86400 * MonthLength(tm.year, tm.mon)
  {
    hide FirstDay, NextFirstDay, GmTime, MonthLength, Date;
    var day, other := Local(ts, tz) / 86400, Local(x, tz) / 86400;
    GmDate(Local(ts, tz));
    DayInMonth(day);
    DayInMonth(other);
    NextFirstIsFirst(day);
    MonthOfDay(day, other);
    WithinDays(ts, tz);
    WithinDays(x, tz);
    WholeDays(NextFirstDay(day));
    assert Local(MonthEndTs(ts, tz) + 1, tz) == NextFirstDay(day) * 86400;
  }

  /** Two days are in the same month exactly if one is within the bounds of the other's. */
  lemma {:induction false} MonthOfDay(day: int, e: int)
    ensures FirstDay(day) <= e < NextFirstDay(day) <==> FirstDay(e) == FirstDay(day)
  {
    hide FirstDay, NextFirstDay, MonthLength;
    DayInMonth(day);
    DayInMonth(e);
    if FirstDay(day) <= e < NextFirstDay(day) {
      SameMonth(day, e);
    } else if FirstDay(e) == FirstDay(day) {
      if e < NextFirstDay(e) && NextFirstDay(day) <= e {
        SameMonth(e, day);
      }
    }
  }

  lemma {:induction false} WholeDays(day: int)
    ensures day * 86400 / 86400 == day
  {
  }

  lemma {:induction false} WithinDays(ts: int, tz: int)
    ensures var day := Local(ts, tz) / 86400;
            forall k: int :: (k * 86400 - 3600 * tz <= ts <==> k <= day) && (ts <= k * 86400 - 1 - 3600 * tz <==> day < k)
  {
  }

  // ----- local time -----------------------------------------------------------------

  /** A day begins at the local midnight of its date. */
  lemma {:induction false} DayBegins(ts: int, tz: int)
    ensures GmTime(DayTs(ts, tz) + 3600 * tz) == GmTime(ts + 3600 * tz).(hour := 0, min := 0, sec := 0)
    ensures GmTime(DayEndTs(ts, tz) + 3600 * tz) == GmTime(ts + 3600 * tz).(hour := 23, min := 59, sec := 59)
  {
    var tm := GmTime(ts + 3600 * tz);
    var day := Days(tm.year, tm.mon, tm.mday);
    GmDate(ts + 3600 * tz);
    hide GmTime, Days;
    assert day == (ts + 3600 * tz) / 86400;
    var a, b := tm.(hour := 0, min := 0, sec := 0), tm.(hour := 23, min := 59, sec := 59);
    assert TimeGm(a) == DayTs(ts, tz) + 3600 * tz && TimeGm(b) == DayEndTs(ts, tz) + 3600 * tz;
    GmTimeUnique(a, GmTime(TimeGm(a)));
    GmTimeUnique(b, GmTime(TimeGm(b)));
  }

  /** A month begins at the local midnight of its first day, and ends before that of the next. */
  lemma {:induction false} MonthBegins(ts: int, tz: int)
    ensures var tm := GmTime(ts + 3600 * tz);
            && GmTime(MonthTs(ts, tz) + 3600 * tz) == Tm(tm.year, tm.mon, 1, 0, 0, 0)
            && GmTime(MonthEndTs(ts, tz) + 1 + 3600 * tz)
               == if tm.mon == 11 then Tm(tm.year + 1, 0, 1, 0, 0, 0) else Tm(tm.year, tm.mon + 1, 1, 0, 0, 0)
  {
    var tm := GmTime(ts + 3600 * tz);
    GmDate(ts + 3600 * tz);
    CarryMonth(tm.year, 1);
    hide GmTime, Days, Date;
    var a := Tm(tm.year, tm.mon, 1, 0, 0, 0);
    var b := if tm.mon == 11 then Tm(tm.year + 1, 0, 1, 0, 0, 0) else Tm(tm.year, tm.mon + 1, 1, 0, 0, 0);
    assert TimeGm(a) == MonthTs(ts, tz) + 3600 * tz && TimeGm(b) == MonthEndTs(ts, tz) + 1 + 3600 * tz;
    GmTimeUnique(a, GmTime(TimeGm(a)));
    GmTimeUnique(b, GmTime(TimeGm(b)));
  }
}
