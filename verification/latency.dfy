/**
 * The latency estimator: the ping part of the `game-update` handler.
 */
module Latency {
  import opened Types

  /**
   * On a snapshot: if an input emission is pending (`lastInputTime > 0`) the
   * ping becomes the time since it and the pending instant is cleared;
   * otherwise nothing changes.
   */
  function OnSnapshot(s: State, now: int): (r: State)
    ensures s.lastInputTime > 0 ==> r.ping == now - s.lastInputTime && r.lastInputTime == 0
    ensures s.lastInputTime <= 0 ==> r == s
    ensures r.lastInputTime <= 0
    ensures r == s.(ping := r.ping, lastInputTime := r.lastInputTime)
  {
    if s.lastInputTime > 0 then s.(ping := now - s.lastInputTime, lastInputTime := 0) else s
  }

  /** A second snapshot with no input emitted in between takes no latency sample. */
  lemma NoSampleWithoutInput(s: State, t1: int, t2: int)
    ensures OnSnapshot(OnSnapshot(s, t1), t2) == OnSnapshot(s, t1)
    ensures OnSnapshot(OnSnapshot(s, t1), t2).ping == (if s.lastInputTime > 0 then t1 - s.lastInputTime else s.ping)
  {
  }
}
