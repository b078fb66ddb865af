/** Failure-compatible wrappers shared by every module of the model.
    A Rust `panic!` (or a failed `assert!`) on a path the source can reach is
    modelled as `Failure(message)`, so that callers see the error path instead
    of a precondition that hides it. */
module Wrappers {

  datatype Option<+T> = None | Some(value: T)

  datatype Result<+T> = Success(value: T) | Failure(error: string)
  {
    /** The failure-compatible members that let `:-` stop at the first
        panic, as Rust's `?` does. */
    predicate IsFailure() { Failure? }

    function PropagateFailure<U>(): Result<U>
      requires Failure?
    {
      Failure(error)
    }

    function Extract(): T
      requires Success?
    {
      value
    }
  }

  /** The Rust `Ordering` enum. */
  datatype Ordering = Less | Equal | Greater
}
