/**
 The off-hours calendar: which instants are off-hours, and the name (the claim key) of the
 off-hours stretch an instant falls in.

 A `Moment` is a local wall-clock reading: a day number (as `date.toordinal` counts days) and a
 time of day in microseconds. The main result, `StretchIdNamesStretches`, relates the two
 operations over every pair of moments and says for exactly which calendars one id is one
 contiguous stretch.
 */
module WorkCalendar {
  import opened Wrappers

  /** Microseconds in a day: the resolution of a `time`. */
  const DAY: int := 86_400_000_000

  /** How far `StretchId` walks back over consecutive non-working days. */
  const MAX_STRETCH_DAYS: nat := 30

  type TimeOfDay = t: int | 0 <= t < DAY

  datatype Moment = Moment(day: int, time: TimeOfDay) {
    predicate AtOrBefore(other: Moment) {
      day < other.day || (day == other.day && time <= other.time)
    }
  }

  /** A usable window: parsing refuses one of zero length. */
  datatype Span = Span(lo: TimeOfDay, hi: TimeOfDay) {
    predicate Wraps() { lo > hi }
  }

  type Window = w: Span | w.lo != w.hi witness Span(0, 1)

  /** `window` is None when it is unset or malformed; `zoneKnown` is false for a zone name the
      machine does not know. */
  datatype OffHoursCalendar = OffHoursCalendar(
    window: Option<Window>, zoneKnown: bool, workdays: set<int>, overrides: map<int, string>)
  {
    predicate Enabled() { window.Some? && zoneKnown }

    predicate Wraps() { window.Some? && window.value.Wraps() }

    predicate IsWorkday(day: int) {
      if day in overrides then overrides[day] == "work" else (day + 6) % 7 in workdays
    }

    predicate IsOffhours(now: Moment) {
      Enabled() &&
      (IsWorkday(now.day) ==>
         var w := window.value;
         if w.lo <= w.hi then w.lo <= now.time < w.hi else now.time >= w.lo || now.time < w.hi)
    }

    /** The day the walk starts from: the morning tail of a wrapping window on a working day
        belongs to the evening before. */
    function StartDay(now: Moment): int {
      if Wraps() && now.time < window.value.hi && IsWorkday(now.day) then now.day - 1 else now.day
    }

    function WalkBack(day: int, steps: nat): int
      decreases steps
    {
      if steps == 0 || IsWorkday(day) then day else WalkBack(day - 1, steps - 1)
    }

    function StretchId(now: Moment): int {
      WalkBack(StartDay(now), MAX_STRETCH_DAYS)
    }

    /** The bounded walk, as the sweeper runs it. */
    method FindStretchId(now: Moment) returns (day: int)
      ensures day == StretchId(now)
    {
      day := now.day;
      if window.Some? && window.value.lo > window.value.hi && now.time < window.value.hi {
        if IsWorkday(day) {
          day := day - 1;
        }
      }
      var i := 0;
      while i < MAX_STRETCH_DAYS
        invariant 0 <= i <= MAX_STRETCH_DAYS
        invariant StretchId(now) == WalkBack(day, MAX_STRETCH_DAYS - i)
      {
        if IsWorkday(day) {
          break;
        }
        day := day - 1;
        i := i + 1;
      }
    }

    /** Every moment from `a` to `b` is off-hours. */
    ghost predicate OffThroughout(a: Moment, b: Moment) {
      forall t: Moment | a.AtOrBefore(t) && t.AtOrBefore(b) :: IsOffhours(t)
    }

    /** What the claim key is for: two off-hours moments carry the same id exactly when the office
        stays empty from the one to the other. */
    ghost predicate NamesStretches() {
      forall a: Moment, b: Moment | IsOffhours(a) && IsOffhours(b) && a.AtOrBefore(b) ::
        StretchId(a) == StretchId(b) <==> OffThroughout(a, b)
    }

    /** No working day among `day` and the 30 days before it. */
    ghost predicate IdleRunTo(day: int) {
      forall d | day - 30 <= d <= day :: !IsWorkday(d)
    }

    ghost predicate RunsAreShort() {
      forall day :: !IdleRunTo(day)
    }
  }

  /** An override decides a day both ways. */
  lemma OverrideDecides(c: OffHoursCalendar, day: int)
    ensures day in c.overrides && c.overrides[day] == "work" ==> c.IsWorkday(day)
    ensures day in c.overrides && c.overrides[day] == "off" ==> !c.IsWorkday(day)
  {
  }

  /** Without one the weekday does, Monday, on which the count of days begins, the first of the week. */
  lemma WeekdayDecides(c: OffHoursCalendar, week: int, weekday: int)
    requires 0 <= weekday < 7 && 1 + 7 * week + weekday !in c.overrides
    ensures c.IsWorkday(1 + 7 * week + weekday) <==> weekday in c.workdays
  {
    assert 1 + 7 * week + weekday + 6 == 7 * (week + 1) + weekday;
  }

  /** Without a window, or in a zone nobody knows, there are no off-hours; with both, a day that is not
      worked is off-hours from its first instant to its last. */
  lemma DaysOff(c: OffHoursCalendar, now: Moment)
    ensures c.window.None? || !c.zoneKnown ==> !c.IsOffhours(now)
    ensures c.window.Some? && c.zoneKnown && !c.IsWorkday(now.day) ==>
              c.OffThroughout(Moment(now.day, 0), Moment(now.day, DAY - 1))
  {
  }

  /** Under a window within one day, the off-hours of a working day are the window's: from its first edge,
      and neither the instant before that nor its other edge. */
  lemma DayWindowOpensAndCloses(c: OffHoursCalendar, now: Moment)
    requires c.Enabled() && !c.Wraps() && c.IsWorkday(now.day) && c.IsOffhours(now)
    ensures var lo, hi := c.window.value.lo, c.window.value.hi;
            && Moment(now.day, lo).AtOrBefore(now) && lo < hi
            && c.OffThroughout(Moment(now.day, lo), Moment(now.day, hi - 1))
            && (lo > 0 ==> !c.IsOffhours(Moment(now.day, lo - 1)))
            && !c.IsOffhours(Moment(now.day, hi))
  {
  }

  /** The walk finds the most recent working day on or before `day`, or gives up `steps` days back:
      the later of the two. */
  lemma {:induction false} WalkBackFindsLatestWorkday(c: OffHoursCalendar, day: int, steps: nat)
    ensures var r := c.WalkBack(day, steps);
            && day - steps <= r <= day
            && (forall d | r < d <= day :: !c.IsWorkday(d))
            && (c.IsWorkday(r) || r == day - steps)
    decreases steps
  {
    if steps != 0 && !c.IsWorkday(day) {
      WalkBackFindsLatestWorkday(c, day - 1, steps - 1);
    }
  }

  /** As time advances the id never goes back, whatever the window and the working days are. */
  lemma StretchIdNeverDecreases(c: OffHoursCalendar, a: Moment, b: Moment)
    requires a.AtOrBefore(b)
    ensures c.StretchId(a) <= c.StretchId(b)
  {
    WalkBackFindsLatestWorkday(c, c.StartDay(a), MAX_STRETCH_DAYS);
    WalkBackFindsLatestWorkday(c, c.StartDay(b), MAX_STRETCH_DAYS);
  }

  /** Under a wrapping window, moments of one id are never parted by office hours. */
  lemma SameIdIsContiguous(c: OffHoursCalendar, a: Moment, b: Moment)
    requires c.Enabled() && c.Wraps()
    requires c.IsOffhours(a) && a.AtOrBefore(b) && c.StretchId(a) == c.StretchId(b)
    ensures c.OffThroughout(a, b)
  {
    forall t: Moment | a.AtOrBefore(t) && t.AtOrBefore(b)
      ensures c.IsOffhours(t)
    {
      if !c.IsOffhours(t) {
        StretchIdNeverDecreases(c, a, t);
        StretchIdNeverDecreases(c, t, b);
        assert c.StretchId(t) == t.day;
        WalkBackFindsLatestWorkday(c, c.StartDay(a), MAX_STRETCH_DAYS);
        assert false;
      }
    }
  }

  /** Under a wrapping window and short idle runs, an unbroken off-hours stretch has one id. */
  lemma ContiguousIsSameId(c: OffHoursCalendar, a: Moment, b: Moment)
    requires c.Enabled() && c.Wraps() && c.RunsAreShort()
    requires a.AtOrBefore(b) && c.OffThroughout(a, b)
    ensures c.StretchId(a) == c.StretchId(b)
  {
    StretchIdNeverDecreases(c, a, b);
    if c.StretchId(a) != c.StretchId(b) {
      var opening := c.StretchId(b);
      WalkBackFindsLatestWorkday(c, c.StartDay(a), MAX_STRETCH_DAYS);
      WalkBackFindsLatestWorkday(c, c.StartDay(b), MAX_STRETCH_DAYS);
      assert !c.IdleRunTo(c.StartDay(b));
      assert c.IsWorkday(opening);
      var officeOpens := Moment(opening, c.window.value.hi);
      assert a.AtOrBefore(officeOpens) && officeOpens.AtOrBefore(b);
      assert false;
    }
  }

  /** The id is the date of the evening the stretch opened on: off-hours from that evening's edge up
      to `now`, and not a moment earlier. */
  lemma StretchOpensOnItsEvening(c: OffHoursCalendar, now: Moment)
    requires c.Enabled() && c.Wraps() && c.RunsAreShort() && c.IsOffhours(now)
    ensures var lo := c.window.value.lo; var id := c.StretchId(now);
            && Moment(id, lo).AtOrBefore(now)
            && c.OffThroughout(Moment(id, lo), now)
            && !c.IsOffhours(Moment(id, lo - 1))
  {
    var id, lo := c.StretchId(now), c.window.value.lo;
    WalkBackFindsLatestWorkday(c, c.StartDay(now), MAX_STRETCH_DAYS);
    assert !c.IdleRunTo(c.StartDay(now));
    assert c.IsWorkday(id);
    SameIdIsContiguous(c, Moment(id, lo), now);
  }

  /** A run of more than 30 non-working days gets two ids, whatever the window. */
  lemma LongRunHasTwoIds(c: OffHoursCalendar, day: int)
    requires c.Enabled() && c.IdleRunTo(day)
    ensures !c.NamesStretches()
  {
    var a, b := Moment(day - 1, 0), Moment(day, 0);
    WalkBackFindsLatestWorkday(c, day - 1, MAX_STRETCH_DAYS);
    WalkBackFindsLatestWorkday(c, day, MAX_STRETCH_DAYS);
    assert !c.IsWorkday(day) && !c.IsWorkday(day - 1);
    assert c.IsOffhours(a) && c.IsOffhours(b) && c.OffThroughout(a, b);
    assert c.StretchId(a) < c.StretchId(b);
  }

  /** Under a window within one day, a working day and the holiday after it share an id although
      the evening between them is not off-hours. */
  lemma DayWindowSharesIdAcrossGap(c: OffHoursCalendar, day: int)
    requires c.Enabled() && !c.Wraps() && c.IsWorkday(day - 1) && !c.IsWorkday(day)
    ensures !c.NamesStretches()
  {
    var w := c.window.value;
    var a, b, gap := Moment(day - 1, w.lo), Moment(day, 0), Moment(day - 1, w.hi);
    assert c.WalkBack(day, MAX_STRETCH_DAYS) == c.WalkBack(day - 1, MAX_STRETCH_DAYS - 1) == day - 1;
    assert c.IsOffhours(a) && c.IsOffhours(b) && !c.IsOffhours(gap);
    assert a.AtOrBefore(gap) && gap.AtOrBefore(b);
  }

  lemma DayWindowEveryDayWorks(c: OffHoursCalendar)
    requires c.Enabled() && !c.Wraps() && forall day :: c.IsWorkday(day)
    ensures c.NamesStretches()
  {
    forall a: Moment, b: Moment | c.IsOffhours(a) && c.IsOffhours(b) && a.AtOrBefore(b)
      ensures c.StretchId(a) == c.StretchId(b) <==> c.OffThroughout(a, b)
    {
      assert c.IsWorkday(a.day) && c.IsWorkday(b.day);
      if a.day != b.day {
        var gap := Moment(a.day, c.window.value.hi);
        assert a.AtOrBefore(gap) && gap.AtOrBefore(b) && !c.IsOffhours(gap);
      }
    }
  }

  lemma DayWindowWithHoliday(c: OffHoursCalendar, holiday: int)
    requires c.Enabled() && !c.Wraps() && !c.IsWorkday(holiday)
    ensures !c.NamesStretches()
  {
    WalkBackFindsLatestWorkday(c, holiday, MAX_STRETCH_DAYS);
    var last := c.WalkBack(holiday, MAX_STRETCH_DAYS);
    if c.IsWorkday(last) {
      DayWindowSharesIdAcrossGap(c, last + 1);
    } else {
      assert c.IdleRunTo(holiday);
      LongRunHasTwoIds(c, holiday);
    }
  }

  /** One id is exactly one contiguous off-hours stretch if and only if: the calendar is disabled
      (there are no stretches), or its window wraps past midnight and no run of non-working days
      is longer than 30, or its window lies within a day and every day is a working day. */
  lemma StretchIdNamesStretches(c: OffHoursCalendar)
    ensures c.NamesStretches() <==>
            (c.Enabled() ==> if c.Wraps() then c.RunsAreShort() else forall day :: c.IsWorkday(day))
  {
    if c.Enabled() && c.Wraps() {
      if c.RunsAreShort() {
        forall a: Moment, b: Moment | c.IsOffhours(a) && c.IsOffhours(b) && a.AtOrBefore(b)
          ensures c.StretchId(a) == c.StretchId(b) <==> c.OffThroughout(a, b)
        {
          if c.StretchId(a) == c.StretchId(b) { SameIdIsContiguous(c, a, b); }
          if c.OffThroughout(a, b) { ContiguousIsSameId(c, a, b); }
        }
      } else {
        var day :| c.IdleRunTo(day);
        LongRunHasTwoIds(c, day);
      }
    } else if c.Enabled() {
      if forall day :: c.IsWorkday(day) {
        DayWindowEveryDayWorks(c);
      } else {
        var holiday :| !c.IsWorkday(holiday);
        DayWindowWithHoliday(c, holiday);
      }
    }
  }
}
