/** Subtraction of time points that saturates instead of overflowing. */
module Durations {
  import opened TimerSpec

  /** The representation type: arithmetic that leaves the range does not verify. */
  newtype Ticks = t: int | MIN_TIME <= t <= MAX_TIME

  const MIN_TICKS: Ticks := -0x8000_0000_0000_0000
  const MAX_TICKS: Ticks := 0x7FFF_FFFF_FFFF_FFFF

  /** The duration nearest to the difference `t1 - t2`. */
  function Saturated(t1: int, t2: int): int {
    if t1 - t2 < MIN_TIME then MIN_TIME else if t1 - t2 > MAX_TIME then MAX_TIME else t1 - t2
  }

  function Distance(a: int, b: int): nat {
    if a <= b then b - a else a - b
  }

  predicate NoFarther(d: Ticks, other: Ticks, t1: Ticks, t2: Ticks) {
    Distance(d as int, t1 as int - t2 as int) <= Distance(other as int, t1 as int - t2 as int)
  }

  function SafeSubtract(t1: Ticks, t2: Ticks): (d: Ticks)
    ensures d as int == Saturated(t1 as int, t2 as int)
    ensures forall other: Ticks :: NoFarther(d, other, t1, t2)
  {
    if t1 >= 0 then
      if t2 >= 0 then t1 - t2
      else if t2 == MIN_TICKS then MAX_TICKS
      else if MAX_TICKS - t1 < 0 - t2 then MAX_TICKS
      else t1 - t2
    else
      if t2 < 0 then t1 - t2
      else if t1 == MIN_TICKS then MIN_TICKS
      else if MAX_TICKS - t2 < 0 - t1 then MIN_TICKS
      else -(t2 - t1)
  }

  /** Waiting for `d` does not oversleep any timer that expires. */
  ghost predicate NoLater<T>(w: Waits<T>, now: Ticks, d: Ticks) {
    forall t | t in w && w[t].expiry != MAX_TIME :: d as int <= Saturated(w[t].expiry, now as int)
  }

  /** Waiting for `d` ends when some timer expires. */
  ghost predicate Attained<T>(w: Waits<T>, now: Ticks, d: Ticks) {
    exists t | t in w :: w[t].expiry != MAX_TIME && d as int == Saturated(w[t].expiry, now as int)
  }
}
