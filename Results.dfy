/** Go's `(value, error)` and bare `error` returns. An error is represented by
    its message, the string that `err.Error()` would give. */
module Results {

  /** A value, or the message of the error returned in its place. */
  datatype Result<+T> = Ok(value: T) | Err(msg: string)

  /** A bare Go `error` return: nil (`Pass`) or an error with a message. */
  datatype Outcome = Pass | Fail(msg: string)

  /** `fmt.Errorf("<context>, %v", err)`: the context, a comma and a space, then
      the wrapped error's message. */
  function Wrap(context: string, msg: string): (w: string)
    ensures |w| == |context| + 2 + |msg|
    ensures w[..|context|] == context && w[|context| + 2..] == msg
    ensures w[|context|..|context| + 2] == ", "
  {
    context + ", " + msg
  }
}
