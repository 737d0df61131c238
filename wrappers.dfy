/** Failure-carrying values shared by every module of the model. */
module Wrappers {

  /** A value that may be missing; `None` stands for a NaN or infinite result of the source. */
  datatype Option<+T> = None | Some(value: T)

  /** The exceptions the library throws, by kind. */
  datatype Error =
    | InvalidArgument   // std::invalid_argument
    | RangeError        // std::range_error
    | OutOfRange        // std::out_of_range from a checked `at()` or std::stoi
    | RuntimeError      // std::runtime_error
    | MatrixShapeError  // lga::Matrix_Shape_Error
    | NotImplemented    // lga::Not_Implement_Error
    | NonFinite         // a division by zero whose NaN or infinity the source would carry on

  /** Either a value or the exception that replaced it. */
  datatype Result<+T> = Ok(value: T) | Err(error: Error)

  /** The completion of an operation that only changes state: normally, or by an exception. */
  datatype Outcome = Pass | Fail(error: Error)
}
