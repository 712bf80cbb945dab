/** Failure-compatible Option and Result types, used with `:-` throughout the model. */
module Wrappers {

  datatype Option<+T> = None | Some(value: T) {
    predicate IsFailure() {
      None?
    }

    function PropagateFailure<U>(): Option<U>
      requires None?
    {
      None
    }

    function Extract(): T
      requires Some?
    {
      value
    }
  }

  /** Rust's `Result<T, E>`. */
  datatype Result<+T, +E> = Ok(value: T) | Err(error: E) {
    predicate IsFailure() {
      Err?
    }

    function PropagateFailure<U>(): Result<U, E>
      requires Err?
    {
      Err(error)
    }

    function Extract(): T
      requires Ok?
    {
      value
    }

    /** Rust's `Result::ok`. */
    function ToOption(): Option<T> {
      match this
      case Ok(v) => Some(v)
      case Err(_) => None
    }
  }

  /** An abort of the whole program (`panic!`, `unwrap`, `expect`, an out-of-bounds index). */
  datatype Panic = Panic(reason: string)

  const UnwrapPrefix: string := "called `Result::unwrap()` on an `Err` value: "

  /** The panic of `Result::unwrap` on an error: a fixed prefix, then the
      error's `Debug` text. */
  function UnwrapErr(debug: string): (p: Panic)
    ensures |p.reason| == |UnwrapPrefix| + |debug|
    ensures p.reason[..|UnwrapPrefix|] == UnwrapPrefix && p.reason[|UnwrapPrefix|..] == debug
  {
    Panic(UnwrapPrefix + debug)
  }
}
