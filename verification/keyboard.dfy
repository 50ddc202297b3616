/**
 Keyboard snapshots and the time unit of the input subsystem.

 A snapshot records which keys are down at one instant; a default-constructed
 keyboard state has no key down. Durations and frame times are whole ticks of
 100 nanoseconds, as a time span counts them, so no floating point is involved.
 */
module Keyboard {

  /** A code of the keyboard key enumeration; every code fits in one byte. */
  newtype Key = k: int | 0 <= k < 256

  /** The two keys the built-in demo script presses. */
  const D: Key := 68
  const S: Key := 83

  /** The set of keys that are down at one instant. */
  type KeyboardState = set<Key>

  /** The state of a default-constructed snapshot: every key is up. */
  const NoKeys: KeyboardState := {}

  /** Elapsed time, counted in ticks of 100 ns. */
  type Ticks = nat

  const TicksPerSecond: Ticks := 10_000_000

  function FromSeconds(seconds: nat): Ticks
  {
    seconds * TicksPerSecond
  }
}
