/** Option and Result, the two failure-carrying shapes the model uses in
    place of the C++ code's null pointers and thrown exceptions. */
module Wrappers {

  datatype Option<+T> = None | Some(value: T)

  /** Failure(e) stands for "the operation threw e". */
  datatype Result<+R, +E> = Success(value: R) | Failure(error: E)
}
