/** Small value types shared by the whole model. */
module Support {

  /** Java's nullable result: None stands for `null`. */
  datatype Option<+T> = None | Some(value: T)

  /** The structural failures a java.util.List raises on a bad index. */
  datatype Error = IndexOutOfBounds(index: int, size: nat)

  /** A value, or the exception the call threw instead of returning it. */
  datatype Result<+T> = Ok(value: T) | Err(error: Error)

  /** Outcome of a `void` call that may throw. */
  datatype Status = Done | Failed(error: Error)
}
