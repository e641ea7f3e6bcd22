/** Small failure-carrying result types shared by the model. */
module Wrappers {

  /** An optional value: a null pointer or a present one. */
  datatype Option<+T> = None | Some(value: T)

  /** The outcome of an operation that can throw. */
  datatype Result<+T> = Ok(value: T) | Err(error: Error)

  /** The exceptions the modelled code can raise. */
  datatype Error = DivisionByZero | ZeroVectorNormalization
}
