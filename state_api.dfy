/**
 * The monotone update rules of the engine's state store
 * (engine/state/api/src/index.ts, `TransactionBase`). Each rule reads the
 * current value of a quality and decides whether to store a new one; when
 * it stores, it reports the change as an `Effect`. Values are integers (the
 * source's JavaScript numbers, without fractions, NaN or infinities).
 */
module StateApi {
  import opened Common

  /** The value a quality had before and has after a stored update. */
  datatype Effect = Effect(before: int, after: int)

  /** `set`: only a value above the current one is stored. */
  function SetRule(current: int, value: int): (r: Option<Effect>)
    ensures r.Some? <==> current < value
    ensures r.Some? ==> r.value.before == current && r.value.after == value
  {
    if current < value then Some(Effect(current, value)) else None
  }

  /** `unset`: only a positive value below the current one is stored. */
  function UnsetRule(current: int, value: int): (r: Option<Effect>)
    ensures r.Some? <==> 0 < value < current
    ensures r.Some? ==> r.value.before == current && r.value.after == value
  {
    if value > 0 && current > value then Some(Effect(current, value)) else None
  }

  /** `increment`: the sum is stored when it exceeds the current value, that is when the step is positive. */
  function IncrementRule(current: int, step: int): (r: Option<Effect>)
    ensures r.Some? <==> step > 0
    ensures r.Some? ==> r.value.before == current && r.value.after == current + step
  {
    var next := current + step;
    if next > current then Some(Effect(current, next)) else None
  }

  /**
   * `decrement`: the difference, but never below 0, is stored when it is
   * below the current value; on a value that is not negative, that is when
   * both the value and the step are positive.
   */
  function DecrementRule(current: int, step: int): (r: Option<Effect>)
    ensures current >= 0 ==> (r.Some? <==> current > 0 && step > 0)
    ensures r.Some? ==> r.value.before == current && r.value.after == Max(0, current - step)
    ensures r.Some? ==> 0 <= r.value.after < current
  {
    var next := Max(0, current - step);
    if next < current then Some(Effect(current, next)) else None
  }

  function Max(a: int, b: int): (m: int)
    ensures m >= a && m >= b && (m == a || m == b)
  {
    if a >= b then a else b
  }
}
