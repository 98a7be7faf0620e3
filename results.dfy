/** Option, Result and Poll, the wrappers the Rust code returns from fallible and asynchronous operations. */
module Results {
  datatype Option<+T> = None | Some(value: T)

  datatype Result<+T, +E> = Ok(value: T) | Err(error: E)

  /** `core::task::Poll`. */
  datatype Poll<+T> = Pending | Ready(value: T)

  /** `Option::unwrap_or`. */
  function UnwrapOr<T>(o: Option<T>, default: T): (r: T)
    ensures o.Some? ==> r == o.value
    ensures o.None? ==> r == default
  {
    match o
    case Some(v) => v
    case None => default
  }
}
