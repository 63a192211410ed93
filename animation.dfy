/**
 * The decorator's animation timer: a start instant (0 while idle), a delay
 * added when it is started, and a duration over which its progress ramps
 * from 0 to 1. Progress is computed lazily from a clock reading `now`
 * (milliseconds), which the caller passes in.
 */
module Animation {

  class AnimationProgress {
    var start: int
    var delay: int
    var duration: int

    /** A zero duration would make the ramp divide zero by zero at the start instant. */
    ghost predicate Valid()
      reads this
    {
      duration != 0
    }

    constructor ()
      ensures Valid()
      ensures start == 0 && delay == 1000 && duration == 300
    {
      start, delay, duration := 0, 1000, 300;
    }

    method SetDelay(d: int)
      modifies this`delay
      ensures delay == d
    {
      delay := d;
    }

    method SetDuration(d: int)
      requires d != 0
      modifies this`duration
      ensures duration == d
    {
      duration := d;
    }

    /** Starting the timer: it becomes due `delay` milliseconds from now. */
    method Start(now: int)
      modifies this`start
      ensures start == now + delay
    {
      start := now + delay;
    }

    method Reset()
      modifies this`start
      ensures start == 0
    {
      start := 0;
    }

    function Progress(now: int): (p: real)
      reads this
      requires Valid()
      ensures 0.0 <= p <= 1.0
      ensures start == 0 || now < start ==> p == 0.0
      ensures start != 0 && now >= start && now - start > duration ==> p == 1.0
      ensures start != 0 && 0 <= now - start <= duration ==> p * (duration as real) == (now - start) as real
    {
      if start == 0 then 0.0
      else
        var delta := now - start;
        if delta < 0 then 0.0
        else if delta > duration then 1.0
        else (now - start) as real / duration as real
    }

    predicate IsDone(now: int)
      reads this
      ensures Valid() && duration > 0 && IsDone(now) ==> Progress(now) == 1.0
    {
      if start == 0 then false
      else
        var delta := now - start;
        delta > duration
    }

    predicate IsRunning(now: int)
      reads this
      ensures Valid() && now >= start && IsRunning(now) ==>
                Progress(now) * (duration as real) == (now - start) as real
    {
      start != 0 && !IsDone(now)
    }
  }

  /** A timer never moves backwards: progress is monotone in the clock. */
  lemma ProgressMonotone(a: AnimationProgress, t1: int, t2: int)
    requires a.Valid() && t1 <= t2
    ensures a.Progress(t1) <= a.Progress(t2)
  {
    var d := a.duration as real;
    if a.start != 0 && 0 <= t1 - a.start <= a.duration && 0 <= t2 - a.start <= a.duration {
      var p1, p2 := a.Progress(t1), a.Progress(t2);
      assert d > 0.0;
      assert p1 * d == (t1 - a.start) as real;
      assert p2 * d == (t2 - a.start) as real;
      var e1, e2 := t1 - a.start, t2 - a.start;
      assert e1 <= e2;
      assert e1 as real <= e2 as real;
      assert (p2 - p1) * d == e2 as real - e1 as real;
      NonNegativeFactor(p2 - p1, d);
    }
  }

  lemma NonNegativeFactor(x: real, d: real)
    requires d > 0.0 && x * d >= 0.0
    ensures x >= 0.0
  {
  }

  /** A finished timer shows full progress; a started timer that is not done is running. */
  lemma DoneMeansFullProgress(a: AnimationProgress, now: int)
    requires a.Valid() && a.duration > 0
    ensures a.IsDone(now) ==> a.Progress(now) == 1.0 && !a.IsRunning(now)
    ensures !a.IsDone(now) && a.start != 0 ==> a.IsRunning(now)
    ensures a.start == 0 ==> !a.IsDone(now) && !a.IsRunning(now) && a.Progress(now) == 0.0
  {
  }

  /**
   * The bias-label timer (delay 0, duration 1000) started at a nonzero
   * instant t0: idle progress at t0, half way at t0 + 500, full at t0 + 1000
   * but still running there, done one millisecond later.
   */
  lemma BiasTimeline(a: AnimationProgress, t0: int)
    requires a.delay == 0 && a.duration == 1000 && a.start == t0 + a.delay && t0 != 0
    ensures a.Valid()
    ensures a.Progress(t0) == 0.0 && a.IsRunning(t0)
    ensures a.Progress(t0 + 500) == 0.5
    ensures a.Progress(t0 + 1000) == 1.0 && a.IsRunning(t0 + 1000)
    ensures a.IsDone(t0 + 1001) && !a.IsRunning(t0 + 1001)
  {
  }

  /** Start with a positive delay: the timer is running but shows nothing until the delay has passed. */
  lemma DelayedStart(a: AnimationProgress, now: int, later: int)
    requires a.Valid() && a.delay > 0 && a.duration > 0 && a.start == now + a.delay && a.start != 0
    requires now <= later <= now + a.delay
    ensures a.IsRunning(later) && a.Progress(later) == 0.0
  {
  }
}
