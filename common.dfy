/** Types shared by the controller modules: an optional value (JavaScript's
    `null` or a falsy value against a present one) and the two selectable gems. */
module Common {

  datatype Option<T> = None | Some(value: T)

  /** The two interactive gems; App keys its selection and its property
      table by these names ('diamond' and 'radiant'). */
  datatype GemId = Diamond | Radiant

  /** Math.min(elapsed / duration, 1): the share of a transition of length
      `duration` that has passed after `elapsed`, never more than all of it. */
  function Progress(elapsed: real, duration: real): (p: real)
    requires duration > 0.0
    ensures p <= 1.0
    ensures elapsed >= 0.0 ==> 0.0 <= p
    ensures elapsed >= duration ==> p == 1.0
  {
    if elapsed / duration < 1.0 then elapsed / duration else 1.0
  }
}
