/** Option, the outcome of a resolver (a value or a thrown error message), the outcome
    of a guard that either throws or returns true, nullable arguments and form submits. */
module Wrappers {

  datatype Option<+T> = None | Some(value: T)

  /** A resolver either returns a value or throws an `Error` whose message is `msg`. */
  datatype Result<+T> = Ok(value: T) | Err(msg: string)

  /** A guard such as `isAdmin` either returns true or throws an `Error` with message `msg`. */
  datatype Outcome = Pass | Fail(msg: string)

  /** A nullable GraphQL argument: left out of the call, passed as `null`, or given. */
  datatype Arg<+T> = Omitted | Null | Given(value: T)

  /** A form submit handler either sets its error message and issues no call, or issues
      the call with these variables. */
  datatype Submission<+V> = Rejected(error: string) | Submitted(vars: V)
}
