/** Rust's `Option` and `Result`, with the few combinators the model uses. */
module Wrappers {

  datatype Option<+T> = None | Some(value: T) {

    /** `Option::map`: applies `f` to the value, if there is one. */
    function Map<U>(f: T -> U): Option<U> {
      match this
      case None => None
      case Some(v) => Some(f(v))
    }

    /** `Option::unwrap_or`. */
    function GetOr(default: T): T {
      match this
      case None => default
      case Some(v) => v
    }
  }

  datatype Result<+T, +E> = Ok(value: T) | Err(error: E)

  /** `slice::first`: the first element, if any. */
  function First<T>(s: seq<T>): Option<T> {
    if |s| == 0 then None else Some(s[0])
  }
}
