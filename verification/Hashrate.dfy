// The start-up hashrate measurement: one counter of two 32-bit digits, nonce and ntime, against a
// 64-bit count of hashes and the clock.
module Hashrate {
  import opened Wrappers
  import opened Throttle
  import Clock

  const U64_VALUES: nat := U32_VALUES * U32_VALUES

  datatype Header = Header(ntime: u32, nonce: u32)

  /** The clock at one turn of the loop: since the start, and at the throttle check. */
  datatype Turn = Turn(elapsed: nat, check: Check)

  /** The header hashed at iteration i. */
  function HeaderOf(i: nat): Header
    requires i < U64_VALUES
  {
    Header(i / U32_VALUES, i % U32_VALUES)
  }

  /** No header is hashed twice. */
  lemma HeadersDiffer(i: nat, j: nat)
    requires i < j < U64_VALUES
    ensures HeaderOf(i) != HeaderOf(j)
  {
    assert i == i / U32_VALUES * U32_VALUES + i % U32_VALUES;
    assert j == j / U32_VALUES * U32_VALUES + j % U32_VALUES;
  }

  /** The throttle after the first n turns; at 100 percent there is none. */
  function Throttled(p: nat, now: nat, turns: nat -> Turn, n: nat): Window
  {
    if n == 0 then NewWindow(now)
    else if p < WINDOW_MS then AfterCheck(p, Throttled(p, now, turns, n - 1), turns(n - 1).check)
    else Throttled(p, now, turns, n - 1)
  }

  /** Runs until the clock passes one second or both digits overflow. The loop ends within 2^64
      turns even if the clock stands still, hashes a new header at every turn, and reports the
      number of turns, except that a full 2^64 turns leave the 64-bit count at 0. */
  method MeasureHashrate(p: nat, now: nat, turns: nat -> Turn)
    returns (hashCount: nat, window: Window, headers: seq<Header>)
    requires 0 < p <= WINDOW_MS
    ensures |headers| <= U64_VALUES
    ensures hashCount == if |headers| == U64_VALUES then 0 else |headers|
    ensures forall i :: 0 <= i < |headers| ==> headers[i] == HeaderOf(i) && turns(i).elapsed < 1_000_000_000
    ensures |headers| < U64_VALUES ==> turns(|headers|).elapsed >= 1_000_000_000
    ensures window == Throttled(p, now, turns, |headers|)
    ensures p == 100 ==> window == NewWindow(now)
  {
    var nonce: u32, ntime: u32 := 0, 0;
    hashCount, headers := 0, [];
    window := NewWindow(now);
    while true
      invariant |headers| == hashCount < U64_VALUES
      invariant hashCount == ntime * U32_VALUES + nonce
      invariant forall i :: 0 <= i < hashCount ==> headers[i] == HeaderOf(i) && turns(i).elapsed < Clock.SECOND
      invariant window == Throttled(p, now, turns, hashCount)
      invariant p == 100 ==> window == NewWindow(now)
      decreases U64_VALUES - hashCount
    {
      var turn := turns(hashCount);
      if turn.elapsed >= Clock.SECOND {
        break;
      }
      if p < WINDOW_MS {
        window := AfterCheck(p, window, turn.check);
      }
      OdometerReads(ntime, nonce);
      headers := headers + [Header(ntime, nonce)];
      hashCount := if hashCount + 1 == U64_VALUES then 0 else hashCount + 1;
      if nonce < U32_MAX {
        nonce := nonce + 1;
      } else {
        if ntime == U32_MAX {
          break;
        }
        ntime, nonce := ntime + 1, 0;
      }
    }
  }

  lemma OdometerReads(ntime: u32, nonce: u32)
    ensures ntime * U32_VALUES + nonce < U64_VALUES
    ensures HeaderOf(ntime * U32_VALUES + nonce) == Header(ntime, nonce)
  {
  }

  /** The measurement keeps the duty cycle: bounds on its work and sleep over completed windows. */
  lemma {:induction false} MeasurementDutyCycle(p: nat, h: nat, now: nat, turns: nat -> Turn, n: nat)
    requires 0 < p < 100
    requires forall i :: 0 <= i < n ==>
               turns(i).check.gap <= h * 1_000_000 && (100 - p) * 1_000_000 <= turns(i).check.nap
    ensures var w := Throttled(p, now, turns, n);
            && w.completed * (p * 1_000_000) <= w.work <= w.completed * ((p + h) * 1_000_000)
            && w.completed * ((100 - p) * 1_000_000) <= w.sleep
            && w.start <= w.clock < w.start + p * 1_000_000
    decreases n
  {
    if n > 0 {
      MeasurementDutyCycle(p, h, now, turns, n - 1);
      CheckKeepsBounds(p, h, Throttled(p, now, turns, n - 1), turns(n - 1).check);
    }
  }
}
