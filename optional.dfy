/** Option and Result, the two failure-carrying shapes the model needs. */
module Optional {

  /** Rust's `Option<T>`. */
  datatype Option<+T> = None | Some(value: T)

  /** A computation that either yields a value or stops with a panic message. */
  datatype Result<+T> = Success(value: T) | Panic(message: string)
}
