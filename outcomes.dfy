/** Values shared by the context engine and its propagation adapter: an optional
    value, the kinds of error the engine raises, and the results of operations
    that either complete or throw. */
module Outcomes {

  datatype Option<+T> = None | Some(value: T)

  /** The errors the engine throws, by kind rather than by message. */
  datatype Error =
    | AlreadyFinished      // "Work context has already finished"
    | NotCleared           // "Finish called before context was cleared"
    | OutOfOrder           // "Exit called out of order"
    | NotCallable          // a TypeError: a value that is not a function was called
    | Thrown(value: int)   // whatever user code (a body given to run, a finish listener) threw

  /** The completion of an operation that yields a value. */
  datatype Result<+T> = Ok(value: T) | Err(error: Error)

  /** The completion of an operation that yields nothing. */
  datatype Outcome = Done | Fail(error: Error)
}
