/** Option and Result values, standing for JavaScript's `undefined` and for a
    rejected promise or a thrown error. */
module Wrappers {

  datatype Option<+T> = None | Some(value: T)

  datatype Result<+R, +E> = Success(value: R) | Failure(error: E)
}
