/** The Option type that Rust's `Option<T>` is modelled by. */
module Options {

  datatype Option<+T> = None | Some(value: T)

  /** `Option::and_then`: feed the wrapped value to `f`, or stay `None`. */
  function AndThen<T, U>(o: Option<T>, f: T -> Option<U>): Option<U>
  {
    match o
    case None => None
    case Some(v) => f(v)
  }
}
