/** Shared failure-carrying datatypes. */
module Common {

  /** A value that may be absent: JavaScript's `null`/`undefined`, a file that
      could not be read, or a JSON text that did not parse. */
  datatype Option<T> = None | Some(value: T)

  /** The outcome of a computation that may throw. */
  datatype Result<T> = Ok(value: T) | Thrown(error: string)

  /** `Math.min(a, b)`. */
  function Min(a: int, b: int): (r: int)
    ensures r <= a && r <= b && (r == a || r == b)
  {
    if a < b then a else b
  }
}
