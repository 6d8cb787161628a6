/** The scheduler's next-run arithmetic: how long to wait from now until the
    next time the wall clock shows hour:minute:00. Times of day are counted
    in microseconds since midnight, the resolution of the clock, and a day
    is taken to be exactly 24 hours long. */
module Scheduler {
  import opened Common

  const MicrosPerSecond: nat := 1_000_000
  const MicrosPerMinute: nat := 60 * MicrosPerSecond
  const MicrosPerHour: nat := 60 * MicrosPerMinute
  const MicrosPerDay: nat := 24 * MicrosPerHour

  /** A time of day as the clock gives it. */
  predicate IsTimeOfDay(t: int)
  {
    0 <= t < MicrosPerDay
  }

  /** now.replace(hour=hour, minute=minute, second=0, microsecond=0): the
      time of day it names, or None where replace raises because the hour or
      the minute is out of range. */
  function TargetTime(hour: int, minute: int): (t: Option<int>)
    ensures t.Some? <==> 0 <= hour < 24 && 0 <= minute < 60
    ensures t.Some? ==> IsTimeOfDay(t.value) && t.value % MicrosPerMinute == 0
  {
    if 0 <= hour < 24 && 0 <= minute < 60 then Some(hour * MicrosPerHour + minute * MicrosPerMinute)
    else None
  }

  /** get_seconds_until_target, in microseconds (total_seconds() is this
      divided by 10^6). A target not later than now moves to tomorrow. The
      wait is strictly positive, at most one day, and ends exactly at the
      target time of day. */
  function MicrosUntilTarget(now: int, hour: int, minute: int): (r: Option<int>)
    requires IsTimeOfDay(now)
    ensures r.Some? <==> TargetTime(hour, minute).Some?
    ensures r.Some? ==> 0 < r.value <= MicrosPerDay
    ensures r.Some? ==> (now + r.value) % MicrosPerDay == TargetTime(hour, minute).value
  {
    match TargetTime(hour, minute)
    case None => None
    case Some(target) =>
      var next := if target <= now then target + MicrosPerDay else target;
      Some(next - now)
  }

  /** The wait is the only one that is positive, at most a day and ends at
      the target: no earlier time reaches hour:minute first. */
  lemma MicrosUntilTargetUnique(now: int, hour: int, minute: int, d: int)
    requires IsTimeOfDay(now)
    requires TargetTime(hour, minute).Some?
    requires 0 < d <= MicrosPerDay && (now + d) % MicrosPerDay == TargetTime(hour, minute).value
    ensures MicrosUntilTarget(now, hour, minute) == Some(d)
  {
    var target := TargetTime(hour, minute).value;
    var r := MicrosUntilTarget(now, hour, minute).value;
    // both now + d and now + r lie in (now, now + day] and leave the same
    // remainder, so they are equal
    var q1, q2 := (now + d) / MicrosPerDay, (now + r) / MicrosPerDay;
    assert now + d == q1 * MicrosPerDay + target;
    assert now + r == q2 * MicrosPerDay + target;
    assert 0 <= q1 <= 1 && 0 <= q2 <= 1;
    assert (q1 - q2) * MicrosPerDay == d - r;
    assert d - r < MicrosPerDay && r - d < MicrosPerDay;
    assert q1 == q2;
  }

  /** A target later today is reached in target - now. */
  lemma LaterToday(now: int, hour: int, minute: int)
    requires IsTimeOfDay(now)
    requires TargetTime(hour, minute).Some? && now < TargetTime(hour, minute).value
    ensures MicrosUntilTarget(now, hour, minute) == Some(TargetTime(hour, minute).value - now)
  {
  }

  /** A target not later than now is tomorrow's; when it is now, the wait is
      exactly one day. */
  lemma NotLaterToday(now: int, hour: int, minute: int)
    requires IsTimeOfDay(now)
    requires TargetTime(hour, minute).Some? && TargetTime(hour, minute).value <= now
    ensures MicrosUntilTarget(now, hour, minute) == Some(TargetTime(hour, minute).value + MicrosPerDay - now)
    ensures TargetTime(hour, minute).value == now ==> MicrosUntilTarget(now, hour, minute) == Some(MicrosPerDay)
  {
  }

  /** The scheduler's own target, 23:00: at 22:30 the wait is half an hour,
      at 23:00 a full day. */
  lemma EveningExample()
    ensures MicrosUntilTarget(22 * MicrosPerHour + 30 * MicrosPerMinute, 23, 0) == Some(30 * MicrosPerMinute)
    ensures MicrosUntilTarget(23 * MicrosPerHour, 23, 0) == Some(MicrosPerDay)
  {
    LaterToday(22 * MicrosPerHour + 30 * MicrosPerMinute, 23, 0);
    NotLaterToday(23 * MicrosPerHour, 23, 0);
  }
}
