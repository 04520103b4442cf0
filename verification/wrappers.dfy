/** Option and Result, the failure-carrying values used throughout the model. */
module Wrappers {

  datatype Option<+T> = None | Some(value: T)

  datatype Result<+R, +E> = Success(value: R) | Failure(error: E)

  /** The exceptions the modelled code can raise. */
  datatype Error =
    /** A command exited with a nonzero status (CalledProcessError). */
    | CalledProcessError(returncode: int, argv: seq<string>, output: string)
    /** An `assert` on the format of a command's output failed. */
    | AssertionError
    /** Tuple unpacking of a `split` result found the wrong number of fields. */
    | ValueError(text: string)
    /** A view selector named a scheme other than `working` or `index`. */
    | UnknownURIScheme(scheme: string)
}
