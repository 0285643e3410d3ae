/** Outcomes of the runtime's checked operations.

    The tensor engine stops the process on a failed `assert` and on a thrown
    `std::runtime_error`; the model returns `Failure` with the reason instead. */
module Outcomes {

  /** Why an operation aborted. */
  datatype Fault =
    | AssertionFailed(check: string)
    | RuntimeError(message: string)

  datatype Result<+T> = Success(value: T) | Failure(fault: Fault)

  datatype Option<+T> = None | Some(value: T)
}
