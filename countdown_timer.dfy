/**
 * src/components/CountdownTimer.tsx: the time left until the next draw,
 * split into days, hours, minutes and seconds, and the retarget rule that
 * moves the countdown on once its draw has passed.
 */
module CountdownTimer {
  import opened Calendar
  import opened MockLotteryData

  datatype TimeLeft = TimeLeft(days: int, hours: int, minutes: int, seconds: int)

  const MillisPerSecond := 1000
  const MillisPerMinute := 60_000
  const MillisPerHour := 3_600_000
  const MillisPerDay := 86_400_000

  /** A time left as the display shows it: whole days, then hours, minutes and seconds under their wrap. */
  predicate InRange(t: TimeLeft) {
    t.days >= 0 && 0 <= t.hours < 24 && 0 <= t.minutes < 60 && 0 <= t.seconds < 60
  }

  /**
   * `calculateTimeLeft` for a positive difference in milliseconds:
   * `Math.floor(d / day)`, `Math.floor((d / hour) % 24)`,
   * `Math.floor((d / 1000 / 60) % 60)` and `Math.floor((d / 1000) % 60)`.
   */
  function TimeLeftOf(difference: int): (t: TimeLeft)
    requires difference > 0
    ensures InRange(t)
  {
    TimeLeft(difference / MillisPerDay,
             (difference / MillisPerHour) % 24,
             (difference / MillisPerMinute) % 60,
             (difference / MillisPerSecond) % 60)
  }

  /** The whole seconds a time left stands for. */
  function TotalSeconds(t: TimeLeft): int {
    t.days * 86400 + t.hours * 3600 + t.minutes * 60 + t.seconds
  }

  /** The display form of a count of whole seconds. */
  function SecondsParts(s: int): (t: TimeLeft)
    requires s >= 0
    ensures InRange(t)
  {
    TimeLeft(s / 86400, (s / 3600) % 24, (s / 60) % 60, s % 60)
  }

  // ---------------------------------------------------------------------

  /** Dividing the milliseconds by a unit is dividing the whole seconds by that unit in seconds. */
  lemma WholeSecondsDivide(difference: int, unit: int)
    requires difference >= 0 && (unit == 60 || unit == 3600 || unit == 86400)
    ensures difference / (1000 * unit) == (difference / 1000) / unit
  {
    var s, r := difference / 1000, difference % 1000;
    var q, r2 := s / unit, s % unit;
    assert difference == 1000 * s + r;
    assert s == unit * q + r2;
    assert difference == (1000 * unit) * q + (1000 * r2 + r);
    assert 0 <= 1000 * r2 + r < 1000 * unit;
  }

  /** The four fields depend on the difference only through its whole seconds. */
  lemma TimeLeftBySeconds(difference: int)
    requires difference > 0
    ensures TimeLeftOf(difference) == SecondsParts(difference / 1000)
  {
    WholeSecondsDivide(difference, 86400);
    WholeSecondsDivide(difference, 3600);
    WholeSecondsDivide(difference, 60);
  }

  /** Reading the fields back gives the whole seconds: `days*86400 + hours*3600 + minutes*60 + seconds`. */
  lemma TotalOfParts(s: int)
    requires s >= 0
    ensures TotalSeconds(SecondsParts(s)) == s
  {
    var days, r := s / 86400, s % 86400;
    assert s == 86400 * days + r;
    var h, rh := r / 3600, r % 3600;
    assert r == 3600 * h + rh;
    assert s == 3600 * (24 * days + h) + rh;
    assert s / 3600 == 24 * days + h;
    assert (s / 3600) % 24 == h;
    var m, rm := rh / 60, rh % 60;
    assert rh == 60 * m + rm;
    assert s == 60 * (60 * (24 * days + h) + m) + rm;
    assert s / 60 == 60 * (24 * days + h) + m;
    assert (s / 60) % 60 == m;
    assert s % 60 == rm;
  }

  /** A time left in range is the display form of its own total: the split is a bijection onto the in-range values. */
  lemma PartsOfTotal(t: TimeLeft)
    requires InRange(t)
    ensures TotalSeconds(t) >= 0 && SecondsParts(TotalSeconds(t)) == t
  {
    var s := TotalSeconds(t);
    var below := t.hours * 3600 + t.minutes * 60 + t.seconds;
    assert 0 <= below < 86400;
    assert s == 86400 * t.days + below;
    assert s / 86400 == t.days;
    var belowHour := t.minutes * 60 + t.seconds;
    assert s == 3600 * (24 * t.days + t.hours) + belowHour;
    assert s / 3600 == 24 * t.days + t.hours;
    assert s == 60 * ((24 * t.days + t.hours) * 60 + t.minutes) + t.seconds;
    assert s / 60 == (24 * t.days + t.hours) * 60 + t.minutes;
    assert s % 60 == t.seconds;
  }

  /** The displayed fields add back up to the difference in whole seconds. */
  lemma TimeLeftTotal(difference: int)
    requires difference > 0
    ensures TotalSeconds(TimeLeftOf(difference)) == difference / 1000
  {
    TimeLeftBySeconds(difference);
    TotalOfParts(difference / 1000);
  }

  /** Two differences show the same time left exactly when they have the same whole seconds. */
  lemma SameDisplayIff(d1: int, d2: int)
    requires d1 > 0 && d2 > 0
    ensures TimeLeftOf(d1) == TimeLeftOf(d2) <==> d1 / 1000 == d2 / 1000
  {
    TimeLeftBySeconds(d1);
    TimeLeftBySeconds(d2);
    TotalOfParts(d1 / 1000);
    TotalOfParts(d2 / 1000);
  }

  // ---------------------------------------------------------------------

  /** The component's state: the time shown and the draw counted down to. */
  class Countdown {
    var timeLeft: TimeLeft
    var nextDrawDate: Moment

    predicate Valid()
      reads this
    {
      ValidMoment(nextDrawDate) && InRange(timeLeft)
    }

    /** `useState` with all fields zero, and `getNextDrawDate()` as the first target. */
    constructor (now: Moment)
      requires ValidMoment(now)
      ensures Valid()
      ensures timeLeft == TimeLeft(0, 0, 0, 0) && nextDrawDate == NextDrawDate(now)
    {
      NextDrawDateShape(now);
      timeLeft := TimeLeft(0, 0, 0, 0);
      nextDrawDate := NextDrawDate(now);
    }

    /**
     * One `calculateTimeLeft` at instant `now`: once the draw is not in
     * the future the target moves to the next draw and the display is
     * left as it was; otherwise the display shows the difference.
     */
    method Tick(now: Moment)
      requires Valid() && ValidMoment(now)
      modifies this
      ensures Valid()
      ensures var difference := EpochMillis(old(nextDrawDate)) - EpochMillis(now);
        if difference <= 0 then
          && nextDrawDate == NextDrawDate(now) && timeLeft == old(timeLeft)
          && MomentBefore(now, nextDrawDate)
        else
          && timeLeft == TimeLeftOf(difference) && nextDrawDate == old(nextDrawDate)
          && TotalSeconds(timeLeft) == difference / 1000
    {
      var difference := EpochMillis(nextDrawDate) - EpochMillis(now);
      if difference <= 0 {
        NextDrawDateShape(now);
        CandidateIsFinal(now);
        nextDrawDate := NextDrawDate(now);
        return;
      }
      TimeLeftTotal(difference);
      timeLeft := TimeLeftOf(difference);
    }
  }
}
