/** Small shared vocabulary. */
module Common {

  type Byte = b: int | 0 <= b < 0x100
  type Word = w: int | 0 <= w < 0x1_0000_0000

  /** A value that may be missing. */
  datatype Option<+T> = None | Some(value: T)

  /**
   * How an effect that the program does not control ends: it completes, it
   * raises an exception that handlers may see, or the process dies and no
   * handler runs.  Failure-compatible, so `:-` is exception propagation.
   */
  datatype Outcome = Done | Raised | Died {
    predicate IsFailure() {
      !Done?
    }

    function PropagateFailure(): Outcome
      requires IsFailure()
    {
      this
    }
  }
}
