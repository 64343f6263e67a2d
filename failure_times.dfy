/**
 * Sequences of failure instants, in milliseconds, as both adapters see them
 * when failures are recorded one after another on a clock that does not run
 * backwards.
 */
module FailureTimes {
  /** The times never decrease, and no two successive ones are more than
      `gap` ms apart. */
  predicate GapsAtMost(times: seq<int>, gap: int) {
    forall i :: 0 < i < |times| ==> times[i - 1] <= times[i] <= times[i - 1] + gap
  }
}
