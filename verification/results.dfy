/** Error handling for the dynamic model: each exception `DynamicModel`
    can raise becomes an `Err` carrying the kind of that exception, so that
    every raising path is an ordinary result value. */
module Results {

  /** A possibly absent value: the target `y` of a call may be `None`, and a
      stateless predictor carries no hidden state. */
  datatype Option<T> = None | Some(value: T)

  /** The exceptions the modelled code can raise. */
  datatype Error =
    | UnknownMode       // `set_mode` with a value that is neither run mode (AttributeError)
    | UnsupportedMode   // `forward` dispatching on a value that is neither run mode
    | MissingTarget     // the target `y` is `None` where the code indexes or clones it
    | ShapeMismatch     // `torch.cat` of unequal time lengths, or a non-broadcastable write
    | IndexOutOfRange   // `y_next[:, :, -1]` on an empty output, or a write past the end

  /** The value a step of the model computes, or the exception that stopped it;
      usable with `:-` so that an exception propagates unchanged. */
  datatype Result<T> = Ok(value: T) | Err(error: Error) {
    predicate IsFailure() {
      Err?
    }

    function PropagateFailure<U>(): Result<U>
      requires Err?
    {
      Err(error)
    }

    function Extract(): T
      requires Ok?
    {
      value
    }
  }

  /** Success or failure of an operation that also changes state on both paths. */
  datatype Outcome = Pass | Fail(error: Error)
}
