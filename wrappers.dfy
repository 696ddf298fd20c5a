/** Optional values (Java null / C++ nullptr) and results with an error path,
    shared by every module of the model. */
module Wrappers {

  /** A value that may be absent: `None` stands for Java's null and C++'s nullptr. */
  datatype Option<+T> = None | Some(value: T)

  /** The outcome of an operation that either returns a value or throws. */
  datatype Result<+T, +E> = Success(value: T) | Failure(error: E)
}
