/** Small shared datatypes, and the Node timer rule, used by the modules of the model. */
module Common {

  /** A value that may be absent: JavaScript's `undefined`/`null`, or a lookup that found nothing. */
  datatype Option<+T> = None | Some(value: T)

  /** The largest delay Node's `setTimeout` honours: 2^31 - 1 milliseconds. */
  const TimeoutMax: int := 0x7FFF_FFFF

  /**
   * The delay Node's `setTimeout` actually waits: a delay below 1 ms or above
   * `TimeoutMax` is replaced by 1 ms.
   */
  function TimerDelay(requested: int): (d: int)
    ensures 1 <= d <= TimeoutMax
    ensures 1 <= requested <= TimeoutMax ==> d == requested
    ensures (requested < 1 || requested > TimeoutMax) ==> d == 1
  {
    if 1 <= requested <= TimeoutMax then requested else 1
  }
}
