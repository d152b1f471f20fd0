/** The calendar of cron (proleptic Gregorian, one time zone, no daylight saving
    time) and when a job is due. */
module CronCalendar {

  /** A broken-down time; months count from 0 and days from 1. */
  datatype Tm = Tm(year: nat, mon: nat, mday: nat, hour: nat, min: nat)

  predicate Leap(y: nat) {
    y % 4 == 0 && (y % 100 != 0 || y % 400 == 0)
  }

  function DaysIn(y: nat, mon: nat): (n: nat)
    ensures 28 <= n <= 31
  {
    if mon == 1 then if Leap(y) then 29 else 28
    else if mon == 3 || mon == 5 || mon == 8 || mon == 10 then 30
    else 31
  }

  /** A minute that exists. */
  predicate Real(t: Tm) {
    t.mon < 12 && 1 <= t.mday <= DaysIn(t.year, t.mon) && t.hour < 24 && t.min < 60
  }

  /** Days from the start of year 0, a Saturday, to the start of a year. */
  function DaysBefore(y: nat): nat {
    if y == 0 then 0 else DaysBefore(y - 1) + if Leap(y - 1) then 366 else 365
  }

  /** Days from the start of a year to the start of a month. */
  function MonthStart(y: nat, mon: nat): nat {
    if mon == 0 then 0 else MonthStart(y, mon - 1) + DaysIn(y, mon - 1)
  }

  function DayNumber(t: Tm): nat
    requires t.mday >= 1
  {
    DaysBefore(t.year) + MonthStart(t.year, t.mon) + t.mday - 1
  }

  /** 0 is Sunday. */
  function Weekday(t: Tm): nat
    requires t.mday >= 1
  {
    (DayNumber(t) + 6) % 7
  }

  /** What mktime makes of a day that its month may not have. */
  function Normal(t: Tm): Tm
    requires t.mon < 12 && 1 <= t.mday <= 31
  {
    var n := DaysIn(t.year, t.mon);
    if t.mday <= n then t
    else if t.mon == 11 then t.(year := t.year + 1, mon := 0, mday := t.mday - n)
    else t.(mon := t.mon + 1, mday := t.mday - n)
  }

  lemma NormalReal(t: Tm)
    requires t.mon < 12 && 1 <= t.mday <= 31 && t.hour < 24 && t.min < 60
    ensures Real(Normal(t)) && (Normal(t) == t <==> Real(t)) && DayNumber(Normal(t)) == DayNumber(t)
  {
    if t.mon == 11 {
      YearLength(t.year);
    }
  }

  /** The months add up to the year. */
  lemma YearLength(y: nat)
    ensures MonthStart(y, 12) == if Leap(y) then 366 else 365
  {
    TwoMonths(y, 0);
    TwoMonths(y, 2);
    TwoMonths(y, 4);
    TwoMonths(y, 6);
    TwoMonths(y, 8);
    TwoMonths(y, 10);
  }

  lemma TwoMonths(y: nat, mon: nat)
    ensures MonthStart(y, mon + 2) == MonthStart(y, mon) + DaysIn(y, mon) + DaysIn(y, mon + 1)
  {
    assert MonthStart(y, mon + 1) == MonthStart(y, mon) + DaysIn(y, mon);
  }

  // --------------------------------------------------------------------- order

  predicate Less(a: Tm, b: Tm) {
    || a.year < b.year
    || (a.year == b.year && (a.mon < b.mon
    || (a.mon == b.mon && (a.mday < b.mday
    || (a.mday == b.mday && (a.hour < b.hour
    || (a.hour == b.hour && a.min < b.min)))))))
  }

  /** Minutes from the start of year 0. */
  function Minutes(t: Tm): nat
    requires t.mday >= 1
  {
    (DayNumber(t) * 24 + t.hour) * 60 + t.min
  }

  lemma {:induction false} MonthMonotone(y: nat, a: nat, b: nat)
    requires a <= b
    ensures MonthStart(y, a) + 28 * (b - a) <= MonthStart(y, b)
    ensures a < b ==> MonthStart(y, a) + DaysIn(y, a) <= MonthStart(y, b)
    decreases b
  {
    if a < b { MonthMonotone(y, a, b - 1); }
  }

  lemma {:induction false} YearMonotone(a: nat, b: nat)
    requires a < b
    ensures DaysBefore(a) + (if Leap(a) then 366 else 365) <= DaysBefore(b)
    decreases b
  {
    if a < b - 1 { YearMonotone(a, b - 1); }
  }

  lemma DayInYear(t: Tm)
    requires Real(t)
    ensures MonthStart(t.year, t.mon) + t.mday <= if Leap(t.year) then 366 else 365
  {
    MonthMonotone(t.year, t.mon, 12);
    YearLength(t.year);
  }

  /** The order of broken-down times is the order of times. */
  lemma OrderIsTime(a: Tm, b: Tm)
    requires Real(a) && Real(b)
    ensures Less(a, b) <==> Minutes(a) < Minutes(b)
  {
    if Less(a, b) { LessIsEarlier(a, b); }
    if Less(b, a) { LessIsEarlier(b, a); }
  }

  lemma LessIsEarlier(a: Tm, b: Tm)
    requires Real(a) && Real(b) && Less(a, b)
    ensures Minutes(a) < Minutes(b)
  {
    if a.year < b.year {
      DayInYear(a);
      YearMonotone(a.year, b.year);
    } else if a.mon < b.mon {
      MonthMonotone(a.year, a.mon, b.mon);
    }
    assert DayNumber(a) < DayNumber(b)
        || (DayNumber(a) == DayNumber(b) && (a.hour < b.hour || (a.hour == b.hour && a.min < b.min)));
  }

  // ------------------------------------------------------------------ anchors

  function Closed(y: nat): int {
    365 * y + (y + 3) / 4 - (y + 99) / 100 + (y + 399) / 400
  }

  lemma Fours(y: nat)
    ensures (y + 4) / 4 == (y + 3) / 4 + if y % 4 == 0 then 1 else 0
  {
  }

  lemma Hundreds(y: nat)
    ensures (y + 100) / 100 == (y + 99) / 100 + if y % 100 == 0 then 1 else 0
  {
  }

  lemma FourHundreds(y: nat)
    ensures (y + 400) / 400 == (y + 399) / 400 + if y % 400 == 0 then 1 else 0
  {
  }

  lemma {:induction false} OfHundred(k: nat)
    ensures (100 * k) % 100 == 0 && (100 * k) % 4 == 0
  {
    if k > 0 {
      OfHundred(k - 1);
      HundredMore(100 * (k - 1));
      HundredByFour(100 * (k - 1));
      assert 100 * k == 100 * (k - 1) + 100;
    }
  }

  lemma HundredMore(n: nat)
    ensures (n + 100) % 100 == n % 100
  {
  }

  lemma HundredByFour(n: nat)
    ensures (n + 100) % 4 == n % 4
  {
  }

  lemma Divides(y: nat)
    ensures y % 400 == 0 ==> y % 100 == 0
    ensures y % 100 == 0 ==> y % 4 == 0
  {
    if y % 400 == 0 {
      assert y == 100 * (4 * (y / 400));
      OfHundred(4 * (y / 400));
    } else if y % 100 == 0 {
      assert y == 100 * (y / 100);
      OfHundred(y / 100);
    }
  }

  lemma ClosedStep(y: nat)
    ensures Closed(y + 1) == Closed(y) + if Leap(y) then 366 else 365
  {
    Fours(y);
    Hundreds(y);
    FourHundreds(y);
    Divides(y);
  }

  /** The days before a year, without counting the years one by one. */
  lemma {:induction false} DaysClosed(y: nat)
    ensures DaysBefore(y) == Closed(y)
  {
    if y > 0 {
      hide Closed, Leap;
      DaysClosed(y - 1);
      ClosedStep(y - 1);
    }
  }

  /** The first of January 1970 was a Thursday. */
  lemma Epoch()
    ensures Weekday(Tm(1970, 0, 1, 0, 0)) == 4
  {
    hide DaysBefore, Leap;
    DaysClosed(1970);
  }

  /** The day after is the next day of the week. */
  lemma NextWeekday(a: Tm, b: Tm)
    requires a.mday >= 1 && b.mday >= 1 && DayNumber(b) == DayNumber(a) + 1
    ensures Weekday(b) == if Weekday(a) == 6 then 0 else Weekday(a) + 1
  {
  }

  /** The calendar repeats every 400 years, weekdays included. */
  lemma Cycle(t: Tm)
    requires Real(t)
    ensures
      var u := t.(year := t.year + 400);
      Real(u) && DayNumber(u) == DayNumber(t) + 146097 && Weekday(u) == Weekday(t)
  {
    hide DaysBefore, MonthStart, Leap, Closed, DaysIn;
    DaysClosed(t.year);
    DaysClosed(t.year + 400);
    SameMonths(t.year, t.mon);
    ClosedCycle(t.year);
    WholeWeeks(DayNumber(t));
  }

  lemma ClosedCycle(y: nat)
    ensures Closed(y + 400) == Closed(y) + 146097
  {
    assert (y + 403) / 4 == (y + 3) / 4 + 100;
    assert (y + 499) / 100 == (y + 99) / 100 + 4;
    assert (y + 799) / 400 == (y + 399) / 400 + 1;
  }

  lemma WholeWeeks(n: nat)
    ensures (n + 146097 + 6) % 7 == (n + 6) % 7
  {
    assert 146097 == 7 * 20871;
  }

  lemma ModFour(y: nat)
    ensures (y + 400) % 4 == y % 4
  {
  }

  lemma ModHundred(y: nat)
    ensures (y + 400) % 100 == y % 100
  {
  }

  lemma ModFourHundred(y: nat)
    ensures (y + 400) % 400 == y % 400
  {
  }

  lemma SameLeap(y: nat)
    ensures Leap(y + 400) == Leap(y)
  {
    ModFour(y);
    ModHundred(y);
    ModFourHundred(y);
  }

  lemma {:induction false} SameMonths(y: nat, mon: nat)
    ensures MonthStart(y + 400, mon) == MonthStart(y, mon) && DaysIn(y + 400, mon) == DaysIn(y, mon)
  {
    SameLeap(y);
    hide Leap;
    if mon > 0 { SameMonths(y, mon - 1); }
  }

  /** The lengths of the months. */
  lemma MonthLengths(y: nat, mon: nat)
    requires mon < 12
    ensures DaysIn(y, mon) == [31, if Leap(y) then 29 else 28, 31, 30, 31, 30, 31, 31, 30, 31, 30, 31][mon]
  {
  }

  // ----------------------------------------------------------------- due times

  /** A line of a crontab: the values its time fields list, and whether the day
      fields were given, rather than `*`. */
  datatype Job = Job(
    min: set<nat>, hour: set<nat>, mday: set<nat>, mon: set<nat>, wday: set<nat>, doMday: bool, doWday: bool)

  /** The day rule: without a weekday, the month and the day of it; with one,
      the weekday, or the month and day if these are given as well. */
  predicate DayDue(j: Job, t: Tm)
    requires t.mday >= 1
  {
    if j.doWday then Weekday(t) in j.wday || (j.doMday && t.mon in j.mon && t.mday in j.mday)
    else t.mon in j.mon && t.mday in j.mday
  }

  predicate Due(j: Job, t: Tm) {
    Real(t) && DayDue(j, t) && t.hour in j.hour && t.min in j.min
  }
}
