// Failure-carrying result types shared by every module of the model.
module Wrappers {

  datatype Option<+T> = None | Some(value: T)

  datatype Result<+T, +E> = Success(value: T) | Failure(error: E)

  /** How an atomic file write can end (src/ulg/tasks/state.py:323-351): the rename did
      not happen; it did, but the directory sync after it failed; or all went well. */
  datatype Write = NotLanded | LandedThenFailed | Landed
}
