/** A line of a crontab from its five time fields to its next run: tab_parse and
    tab_reschedule together. */
module CronTab {
  import opened Common
  import opened CronCalendar
  import opened CronFields
  import opened CronGrammar
  import opened CronSearch

  /** The five time fields of a line. */
  datatype Line = Line(min: string, hour: string, mday: string, mon: string, wday: string)

  const ANY: string := "*"

  // ----------------------------------------------------- what the fields list

  ghost predicate Accepted(s: string, min: nat, max: nat, now: nat) {
    s == ANY || IsField(s, min, max, now)
  }

  /** The field lists the value `k`. */
  ghost predicate Says(s: string, min: nat, max: nat, now: nat, k: nat) {
    if s == ANY then min <= k <= max
    else exists xs :: FieldText(s, xs, min, max, now) && AnyLists(xs, min, max, k)
  }

  ghost predicate LineOk(l: Line, now: nat) {
    && Accepted(l.min, 0, 59, now) && Accepted(l.hour, 0, 23, now) && Accepted(l.mday, 1, 31, now)
    && Accepted(l.mon, 1, 12, now) && Accepted(l.wday, 0, 7, now)
  }

  /** The date is listed; months count from 1 in a field. */
  ghost predicate OnDate(l: Line, now: nat, t: Tm) {
    Says(l.mday, 1, 31, now, t.mday) && Says(l.mon, 1, 12, now, t.mon + 1)
  }

  /** The weekday is listed; Sunday is 0 or 7. */
  ghost predicate OnWeekday(l: Line, now: nat, t: Tm)
    requires t.mday >= 1
  {
    Says(l.wday, 0, 7, now, Weekday(t)) || (Weekday(t) == 0 && Says(l.wday, 0, 7, now, 7))
  }

  /** The minutes that a line lists.  If both a date and a weekday are given
      either will do. */
  ghost predicate Matches(l: Line, now: nat, t: Tm) {
    && Real(t) && Says(l.min, 0, 59, now, t.min) && Says(l.hour, 0, 23, now, t.hour)
    && (if l.wday == ANY then OnDate(l, now, t)
        else if l.mday == ANY && l.mon == ANY then OnWeekday(l, now, t)
        else OnDate(l, now, t) || OnWeekday(l, now, t))
  }

  // ------------------------------------------------------------------ the job

  function Members(bits: seq<bv8>): set<nat>
    requires |bits| == 8
  {
    set k | 0 <= k < 64 && IsSet(bits, k)
  }

  /** The maps of the five fields. */
  datatype Maps = Maps(min: seq<bv8>, hour: seq<bv8>, mday: seq<bv8>, mon: seq<bv8>, wday: seq<bv8>) {
    predicate Valid() {
      |min| == |hour| == |mday| == |mon| == |wday| == 8
    }
  }

  /** The job that tab_parse makes of the maps and of which fields are `*`. */
  function JobOf(l: Line, m: Maps): Job
    requires m.Valid()
  {
    Job(Members(m.min), Members(m.hour), Members(m.mday), Members(MonthsDown(m.mon)), Members(SundayFirst(m.wday)),
        l.mday != ANY || l.mon != ANY, l.wday != ANY)
  }

  /** A map that has exactly the values its field lists. */
  ghost predicate Shows(bits: seq<bv8>, s: string, min: nat, max: nat, now: nat) {
    |bits| == 8 && forall k :: 0 <= k < 64 ==> (IsSet(bits, k) <==> Says(s, min, max, now, k))
  }

  ghost predicate AllShow(l: Line, m: Maps, now: nat) {
    && Shows(m.min, l.min, 0, 59, now) && Shows(m.hour, l.hour, 0, 23, now) && Shows(m.mday, l.mday, 1, 31, now)
    && Shows(m.mon, l.mon, 1, 12, now) && Shows(m.wday, l.wday, 0, 7, now)
  }

  lemma DateDue(l: Line, m: Maps, now: nat, t: Tm)
    requires now <= 59 && m.Valid() && AllShow(l, m, now) && Real(t)
    ensures t.mon in JobOf(l, m).mon && t.mday in JobOf(l, m).mday <==> OnDate(l, now, t)
  {
    hide IsSet, Says, MonthsDown;
    MonthsShift(m.mon, t.mon);
  }

  lemma WeekdayDue(l: Line, m: Maps, now: nat, t: Tm)
    requires now <= 59 && m.Valid() && AllShow(l, m, now) && Real(t)
    ensures Weekday(t) in JobOf(l, m).wday <==> OnWeekday(l, now, t)
  {
    hide IsSet, Says, SundayFirst;
    WeekdayFold(m.wday, Weekday(t));
  }

  lemma TimeDue(l: Line, m: Maps, now: nat, t: Tm)
    requires now <= 59 && m.Valid() && AllShow(l, m, now) && Real(t)
    ensures t.hour in JobOf(l, m).hour <==> Says(l.hour, 0, 23, now, t.hour)
    ensures t.min in JobOf(l, m).min <==> Says(l.min, 0, 59, now, t.min)
  {
    hide IsSet, Says;
  }

  /** The job is due exactly at the minutes that the line lists. */
  lemma DueIsListed(l: Line, m: Maps, now: nat, t: Tm)
    requires now <= 59 && m.Valid() && AllShow(l, m, now)
    ensures Due(JobOf(l, m), t) <==> Matches(l, now, t)
  {
    hide Says, Members, OnDate, OnWeekday;
    if Real(t) {
      DateDue(l, m, now, t);
      WeekdayDue(l, m, now, t);
      TimeDue(l, m, now, t);
    }
  }

  // --------------------------------------------------------------- the methods

  method ParseField(s: string, min: nat, max: nat, now: nat) returns (ok: bool, bits: seq<bv8>, wildcard: bool)
    requires min <= max < 64 && now <= 59
    ensures ok == Accepted(s, min, max, now)
    ensures ok ==> Shows(bits, s, min, max, now) && wildcard == (s == ANY)
  {
    hide AnyLists, IsSet, FieldText, IsField;
    ok, bits, wildcard := RangeParse(s, min, max, now);
    if ok {
      if wildcard { ShowsAll(bits, min, max, now); } else { ShowsItems(bits, s, min, max, now); }
    }
  }

  lemma ShowsAll(bits: seq<bv8>, min: nat, max: nat, now: nat)
    requires |bits| == 8 && forall k :: 0 <= k < 64 ==> (IsSet(bits, k) <==> min <= k <= max)
    ensures Shows(bits, ANY, min, max, now)
  {
    hide IsSet;
  }

  lemma ShowsItems(bits: seq<bv8>, s: string, min: nat, max: nat, now: nat)
    requires min <= max && now <= 59 && s != ANY && IsField(s, min, max, now)
    requires forall xs :: FieldText(s, xs, min, max, now) ==> Holds(bits, xs, min, max)
    ensures Shows(bits, s, min, max, now)
  {
    hide FieldText, AnyLists, IsSet, IsField;
    Reading(s, min, max, now);
    var xs := ParseItems(s, 0, min, max, now).value;
    assert FieldText(s, xs, min, max, now) && Holds(bits, xs, min, max);
    forall k | 0 <= k < 64 ensures IsSet(bits, k) <==> Says(s, min, max, now, k) {
    }
  }

  /** The time fields of a line in tab_parse. */
  method ParseLine(l: Line, now: nat) returns (job: Option<Job>)
    requires now <= 59
    ensures job.Some? <==> LineOk(l, now)
    ensures job.Some? ==> forall t :: Due(job.value, t) <==> Matches(l, now, t)
  {
    hide Accepted, Shows, Due, Matches;
    var min, hour, mday, mon, wday, wc;
    var ok, ignored;
    ok, min, ignored := ParseField(l.min, 0, 59, now);
    if !ok { return None; }
    ok, hour, ignored := ParseField(l.hour, 0, 23, now);
    if !ok { return None; }
    ok, mday, wc := ParseField(l.mday, 1, 31, now);
    if !ok { return None; }
    var doMday := !wc;
    ok, mon, wc := ParseField(l.mon, 1, 12, now);
    if !ok { return None; }
    doMday := doMday || !wc;
    ok, wday, wc := ParseField(l.wday, 0, 7, now);
    if !ok { return None; }
    var doWday := !wc;
    ghost var m := Maps(min, hour, mday, mon, wday);
    assert m.Valid() by { ShowsLength(l, m, now); }
    job := Some(Job(Members(min), Members(hour), Members(mday), Members(MonthsDown(mon)), Members(SundayFirst(wday)),
        doMday, doWday));
    forall t ensures Due(job.value, t) <==> Matches(l, now, t) { DueIsListed(l, m, now, t); }
  }

  lemma ShowsLength(l: Line, m: Maps, now: nat)
    requires now <= 59 && AllShow(l, m, now)
    ensures m.Valid()
  {
  }

  /** The next run of a line: the first minute after `prev` that it lists.  There
      is none only if it lists no minute at all. */
  method NextRun(l: Line, now: nat, prev: Tm) returns (ok: bool, next: Option<Tm>)
    requires now <= 59 && Real(prev)
    ensures ok == LineOk(l, now)
    ensures ok && next.Some? ==> Matches(l, now, next.value) && Less(prev, next.value)
                                 && forall t :: Matches(l, now, t) && Less(prev, t) ==> !Less(t, next.value)
    ensures ok && next.None? ==> forall t :: !Matches(l, now, t)
  {
    hide Matches, LineOk, Less, Due;
    var job := ParseLine(l, now);
    if job.None? {
      return false, None;
    }
    next := Reschedule(job.value, prev);
    NeverIsNever(job.value, prev);
    return true, next;
  }
}
