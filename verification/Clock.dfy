// The clock arithmetic of the hashing loops: header timestamps that follow a monotone clock.
module Clock {
  import opened Wrappers

  // the monotone clock counts nanoseconds
  const SECOND: nat := 1_000_000_000

  /** Whole seconds between two readings of the clock. */
  function ElapsedSeconds(start: nat, now: nat): nat
    requires start <= now
  {
    (now - start) / SECOND
  }

  /** The two clamps of the source: the elapsed seconds are narrowed to 32 bits, then added to the
      job's minimum with saturation. */
  function ClampedNtime(minNtime: u32, elapsed: nat): u32 {
    var narrowed: u32 := if elapsed < U32_VALUES then elapsed else U32_MAX;
    if minNtime + narrowed < U32_VALUES then minNtime + narrowed else U32_MAX
  }

  /** The two clamps together are one: the minimum plus the elapsed seconds, capped at 2^32-1. */
  lemma ClampIsOneMinimum(minNtime: u32, elapsed: nat)
    ensures ClampedNtime(minNtime, elapsed) == if minNtime + elapsed < U32_MAX then minNtime + elapsed else U32_MAX
  {
  }

  function WrappingIncrement(nonce: u32): u32 {
    if nonce == U32_MAX then 0 else nonce + 1
  }
}
