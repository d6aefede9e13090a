/** Option and Result, the failure-compatible types shared by every module. */
module Wrappers {

  datatype Option<+T> = None | Some(value: T)

  /** What a service call can report; Internal stands for every failure of the database itself. */
  datatype Error =
    | Internal
    | NotFound
    | AlreadyExists
    | Forbidden
    | InvalidArgument
    | FailedPrecondition
    | Unknown

  datatype Result<+T> = Ok(value: T) | Err(error: Error) {

    predicate IsFailure() {
      Err?
    }

    function PropagateFailure<U>(): (r: Result<U>)
      requires Err?
    {
      Err(error)
    }

    function Extract(): (t: T)
      requires Ok?
    {
      value
    }
  }
}
