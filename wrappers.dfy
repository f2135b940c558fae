/** Small failure-carrying datatypes shared by the model. */
module Wrappers {

  /** The value range of Java's `Integer`, the type of every record id in the model. */
  newtype int32 = x: int | -0x8000_0000 <= x < 0x8000_0000

  /** A value that may be absent: Java's nullable references and `Optional`. */
  datatype Option<+T> = None | Some(value: T)

  /** The outcome of an operation that may throw: a value, or the failure it reports. */
  datatype Result<+T, +E> = Success(value: T) | Failure(error: E)

  /** A list parameter that may be null, read as the empty list when it is. */
  function NonNullList<T>(list: Option<seq<T>>): seq<T>
  {
    match list
    case None => []
    case Some(l) => l
  }
}
