/** Small failure-carrying datatypes shared by every module. */
module Wrappers {

  /** Python's `Optional[T]`: a value or `None`. */
  datatype Option<+T> = None | Some(value: T)

  /** The result of an operation that either succeeds or raises an
      `HTTPException` with a status code and a detail message. An uncaught
      Python exception is modelled as status 500. */
  datatype Outcome<+T> = Ok(value: T) | Err(status: nat, detail: string)
}
