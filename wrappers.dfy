/** Option and Result datatypes shared by the other modules. */
module Wrappers {

  /** `None` stands for Java's `null` or for a store key that was never put. */
  datatype Option<+T> = None | Some(value: T)

  datatype Result<+R, +E> = Ok(value: R) | Err(error: E)

  /** `[x]` for `Some(x)`, nothing for `None`. */
  function Listed<T>(o: Option<T>): seq<T> {
    match o
    case None => []
    case Some(x) => [x]
  }
}
