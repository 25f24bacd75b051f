/** Small result types shared by the modules of this model. */
module Wrappers {

  /** Rust's `Option<T>`. */
  datatype Option<+T> = None | Some(value: T)

  /** What a Rust call produces when it may panic: a returned value, or a panic
      (an `unwrap` on an error, an out-of-range index, ...). */
  datatype Outcome<+T> = Returned(value: T) | Panicked
}
