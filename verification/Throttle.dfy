// The CPU throttle window shared by the hashing loops: work for p milliseconds of every window of
// 100, then sleep for the rest.
module Throttle {

  // nanoseconds of the monotone clock
  const MILLISECOND: nat := 1_000_000
  const WINDOW_MS: nat := 100

  /** A check of the window: the time since the previous reading of the clock, and, should the
      task go to sleep, the time it sleeps. */
  datatype Check = Check(gap: nat, nap: nat)

  /** The window's start, the last reading of the clock, and the totals over all completed windows. */
  datatype WindowState = WindowState(start: nat, clock: nat, completed: nat, work: nat, sleep: nat)

  type Window = w: WindowState | w.start <= w.clock witness WindowState(0, 0, 0, 0, 0)

  function NewWindow(now: nat): Window {
    WindowState(now, now, 0, 0, 0)
  }

  /** The working part of the window is used up when this much of it has passed. */
  predicate Due(p: nat, elapsed: nat) {
    elapsed / MILLISECOND >= p
  }

  function AfterCheck(p: nat, w: Window, c: Check): Window {
    var now := w.clock + c.gap;
    if Due(p, now - w.start)
    then WindowState(now + c.nap, now + c.nap, w.completed + 1, w.work + (now - w.start), w.sleep + c.nap)
    else w.(clock := now)
  }

  /** A check at most h ms after the last one, whose sleep is not cut short. */
  predicate Timely(p: nat, h: nat, c: Check)
    requires p <= WINDOW_MS
  {
    c.gap <= h * MILLISECOND && (WINDOW_MS - p) * MILLISECOND <= c.nap
  }

  function AfterRun(p: nat, w: Window, cs: seq<Check>): Window
    decreases |cs|
  {
    if cs == [] then w else AfterRun(p, AfterCheck(p, w, cs[0]), cs[1..])
  }

  /** The bounds on k completed windows, and less than p ms of work seen in the open one. */
  ghost predicate Bounded(p: nat, h: nat, w: Window)
    requires p <= WINDOW_MS
  {
    && w.start <= w.clock < w.start + p * MILLISECOND
    && w.completed * (p * MILLISECOND) <= w.work <= w.completed * ((p + h) * MILLISECOND)
    && w.completed * ((WINDOW_MS - p) * MILLISECOND) <= w.sleep
  }

  lemma OneMore(k: nat, x: nat)
    ensures (k + 1) * x == k * x + x
  {
  }

  lemma CheckKeepsBounds(p: nat, h: nat, w: Window, c: Check)
    requires 0 < p < WINDOW_MS && Bounded(p, h, w) && Timely(p, h, c)
    ensures Bounded(p, h, AfterCheck(p, w, c))
  {
    OneMore(w.completed, p * MILLISECOND);
    OneMore(w.completed, (p + h) * MILLISECOND);
    OneMore(w.completed, (WINDOW_MS - p) * MILLISECOND);
    assert (p + h) * MILLISECOND == p * MILLISECOND + h * MILLISECOND;
  }

  lemma {:induction false} RunKeepsBounds(p: nat, h: nat, w: Window, cs: seq<Check>)
    requires 0 < p < WINDOW_MS && Bounded(p, h, w) && forall c :: c in cs ==> Timely(p, h, c)
    ensures Bounded(p, h, AfterRun(p, w, cs))
    decreases |cs|
  {
    if cs != [] {
      CheckKeepsBounds(p, h, w, cs[0]);
      RunKeepsBounds(p, h, AfterCheck(p, w, cs[0]), cs[1..]);
    }
  }

  /** A check sends the task to sleep exactly when the whole milliseconds since the window began are p
      or more; then a new window begins as it wakes, and the finished one is counted. */
  lemma SleepsExactlyWhenUsedUp(p: nat, w: Window, c: Check)
    ensures var n := AfterCheck(p, w, c);
            var worked := w.clock + c.gap - w.start;
            if worked / 1_000_000 >= p
            then n == WindowState(w.clock + c.gap + c.nap, w.clock + c.gap + c.nap, w.completed + 1,
                                  w.work + worked, w.sleep + c.nap)
            else n == w.(clock := w.clock + c.gap)
  {
  }

  /** For any usage of 1 to 99 percent and checks at most h ms apart, with sleeps of 100-p ms or more, k
      completed windows hold between k*p and k*(p+h) ms of work and at least k*(100-p) ms of sleep, and
      the window that is open less than p ms of work. */
  lemma DutyCycle(p: nat, h: nat, now: nat, cs: seq<Check>)
    requires 0 < p < 100
    requires forall c :: c in cs ==> c.gap <= h * 1_000_000 && (100 - p) * 1_000_000 <= c.nap
    ensures var w := AfterRun(p, NewWindow(now), cs);
            && w.completed * (p * 1_000_000) <= w.work <= w.completed * ((p + h) * 1_000_000)
            && w.completed * ((100 - p) * 1_000_000) <= w.sleep
            && w.clock - w.start < p * 1_000_000
  {
    RunKeepsBounds(p, h, NewWindow(now), cs);
  }
}
