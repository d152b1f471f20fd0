/** tab_reschedule: the next time a job is due. */
module CronSearch {
  import opened Common
  import opened CronCalendar

  /** Fields that are at most one past their range. */
  predicate Nearly(c: Tm) {
    c.mon <= 12 && 1 <= c.mday <= 32 && c.hour <= 24 && c.min <= 60
  }

  predicate InRange(c: Tm) {
    c.mon < 12 && 1 <= c.mday <= 31 && c.hour < 24 && c.min < 60
  }

  /** The carries at the top of the loop; every month is taken to have 31 days. */
  function Carry(c: Tm): (r: Tm)
    requires Nearly(c)
    ensures InRange(r)
  {
    var c1 := if c.min > 59 then c.(min := 0, hour := c.hour + 1) else c;
    var c2 := if c1.hour > 23 then c1.(min := 0, hour := 0, mday := c1.mday + 1) else c1;
    var c3 := if c2.mday > 31 then c2.(min := 0, hour := 0, mday := 1, mon := c2.mon + 1) else c2;
    if c3.mon >= 12 then c3.(min := 0, hour := 0, mday := 1, mon := 0, year := c3.year + 1) else c3
  }

  lemma CarryKeeps(c: Tm, t: Tm)
    requires Nearly(c) && InRange(t)
    ensures Less(t, c) <==> Less(t, Carry(c))
    ensures Less(c, Carry(c)) || c == Carry(c)
  {
  }

  /** Nothing due lies between `prev` and `c`. */
  ghost predicate Clear(j: Job, prev: Tm, c: Tm) {
    forall t :: Due(j, t) && Less(prev, t) ==> !Less(t, c)
  }

  lemma CarryClear(j: Job, prev: Tm, c: Tm)
    requires Nearly(c) && Clear(j, prev, c) && Less(prev, c)
    ensures Clear(j, prev, Carry(c)) && Less(prev, Carry(c))
  {
    forall t | Due(j, t) && Less(prev, t) ensures !Less(t, Carry(c)) { CarryKeeps(c, t); }
    CarryKeeps(c, Tm(0, 0, 1, 0, 0));
  }

  // The steps that pass over times which are not due.

  function NextMonth(c: Tm): Tm { Tm(c.year, c.mon + 1, 1, 0, 0) }
  function NextDay(c: Tm): Tm { Tm(c.year, c.mon, c.mday + 1, 0, 0) }
  function NextHour(c: Tm): Tm { Tm(c.year, c.mon, c.mday, c.hour + 1, 0) }
  function NextMinute(c: Tm): Tm { c.(min := c.min + 1) }

  lemma SkipMonth(j: Job, prev: Tm, c: Tm)
    requires InRange(c) && Clear(j, prev, c) && Less(prev, c) && !j.doWday && c.mon !in j.mon
    ensures Clear(j, prev, NextMonth(c)) && Less(prev, NextMonth(c))
  {
  }

  lemma SkipDay(j: Job, prev: Tm, c: Tm)
    requires InRange(c) && Clear(j, prev, c) && Less(prev, c)
    requires !Real(c) || !DayDue(j, c)
    ensures Clear(j, prev, NextDay(c)) && Less(prev, NextDay(c))
  {
    forall t | Due(j, t) && Less(prev, t) ensures !Less(t, NextDay(c)) {
      if t.year == c.year && t.mon == c.mon && t.mday == c.mday {
        assert DayNumber(t) == DayNumber(c);
      }
    }
  }

  lemma SkipHour(j: Job, prev: Tm, c: Tm)
    requires InRange(c) && Clear(j, prev, c) && Less(prev, c) && c.hour !in j.hour
    ensures Clear(j, prev, NextHour(c)) && Less(prev, NextHour(c))
  {
  }

  lemma SkipMinute(j: Job, prev: Tm, c: Tm)
    requires InRange(c) && Clear(j, prev, c) && Less(prev, c) && c.min !in j.min
    ensures Clear(j, prev, NextMinute(c)) && Less(prev, NextMinute(c))
  {
  }

  /** The first time after `prev` at which the job is due, if that is within
      eight years. */
  method Reschedule(j: Job, prev: Tm) returns (next: Option<Tm>)
    requires Real(prev)
    ensures next.Some? ==> Due(j, next.value) && Less(prev, next.value) && Clear(j, prev, next.value)
    ensures next.None? ==> forall t :: Due(j, t) && Less(prev, t) ==> t.year > prev.year + 8
  {
    hide Due, DayDue, Less, Real, Clear, Weekday, Normal;
    var c := NextMinute(prev);
    Minimal(j, prev);
    while true
      invariant Nearly(c) && Clear(j, prev, c) && Less(prev, c) && c.year <= prev.year + 9
      decreases prev.year + 10 - c.year, 13 - c.mon, 33 - c.mday, 25 - c.hour, 61 - c.min
    {
      CarryClear(j, prev, c);
      c := Carry(c);
      if c.year - prev.year > 8 {
        TooLate(j, prev, c);
        return None;
      }
      if !j.doWday && c.mon !in j.mon {
        SkipMonth(j, prev, c);
        c := NextMonth(c);
      } else if !j.doWday && c.mday !in j.mday {
        WrongDay(j, c);
        SkipDay(j, prev, c);
        c := NextDay(c);
      } else if c.hour !in j.hour {
        SkipHour(j, prev, c);
        c := NextHour(c);
      } else if c.min !in j.min {
        SkipMinute(j, prev, c);
        c := NextMinute(c);
      } else {
        var tmp := Normal(c);
        NormalReal(c);
        DueHere(j, c);
        if tmp != c {
          SkipDay(j, prev, c);
          c := NextDay(c);
        } else if j.doWday && Weekday(tmp) in j.wday {
          return Some(c);
        } else if j.doMday && tmp.mon in j.mon && tmp.mday in j.mday {
          return Some(c);
        } else if !j.doWday && !j.doMday {
          return Some(c);
        } else {
          SkipDay(j, prev, c);
          c := NextDay(c);
        }
      }
    }
  }

  lemma Minimal(j: Job, prev: Tm)
    requires Real(prev)
    ensures Nearly(NextMinute(prev)) && Clear(j, prev, NextMinute(prev)) && Less(prev, NextMinute(prev))
  {
  }

  lemma WrongDay(j: Job, c: Tm)
    requires InRange(c) && !j.doWday && c.mday !in j.mday
    ensures !DayDue(j, c)
  {
  }

  lemma DueHere(j: Job, c: Tm)
    requires InRange(c) && c.hour in j.hour && c.min in j.min && (!j.doWday ==> c.mon in j.mon && c.mday in j.mday)
    ensures Due(j, c) <==> Real(c) && DayDue(j, c)
    ensures DayDue(j, c) <==> !j.doWday || Weekday(c) in j.wday || (j.doMday && c.mon in j.mon && c.mday in j.mday)
  {
  }

  lemma TooLate(j: Job, prev: Tm, c: Tm)
    requires Clear(j, prev, c) && c.year > prev.year + 8
    ensures forall t :: Due(j, t) && Less(prev, t) ==> t.year > prev.year + 8
  {
  }

  // -------------------------------------------------------------------- never

  /** Some year of any eight is a leap year. */
  lemma LeapSoon(y: nat) returns (l: nat)
    ensures y < l <= y + 8 && Leap(l)
  {
    var q := (y / 4 + 1) * 4;
    if Leap(q) {
      l := q;
    } else {
      l := q + 4;
      assert q % 100 == 0;
      assert (q + 4) % 100 == 4;
    }
  }

  /** A day of the first week of a year falls on a given weekday. */
  lemma WeekdaySoon(y: nat, w: nat) returns (d: nat)
    requires w < 7
    ensures 1 <= d <= 7 && forall h: nat, m: nat :: Weekday(Tm(y, 0, d, h, m)) == w
  {
    var first := (DaysBefore(y) + 6) % 7;
    d := 1 + (w + 7 - first) % 7;
    assert (DaysBefore(y) + d - 1 + 6) % 7 == w;
  }

  /** A job that is due at all is due again within eight years. */
  lemma DueSoon(j: Job, prev: Tm, t: Tm) returns (s: Tm)
    requires Real(prev) && Due(j, t)
    ensures Due(j, s) && Less(prev, s) && s.year <= prev.year + 8
  {
    if j.doWday && Weekday(t) in j.wday {
      var d := WeekdaySoon(prev.year + 1, Weekday(t));
      s := Tm(prev.year + 1, 0, d, t.hour, t.min);
    } else if t.mon == 1 && t.mday == 29 {
      var l := LeapSoon(prev.year);
      s := t.(year := l);
    } else {
      s := t.(year := prev.year + 1);
    }
  }

  /** NEVER is the answer exactly for jobs that are never due, now or later. */
  lemma NeverIsNever(j: Job, prev: Tm)
    requires Real(prev)
    ensures (forall t :: Due(j, t) && Less(prev, t) ==> t.year > prev.year + 8) <==> forall t :: !Due(j, t)
  {
    if t :| Due(j, t) {
      var s := DueSoon(j, prev, t);
      assert Due(j, s) && Less(prev, s) && s.year <= prev.year + 8;
    }
  }
}
