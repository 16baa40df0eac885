/** Option and Result, the shapes of the source's `Option` and `anyhow::Result`. */
module Wrappers {
  datatype Option<T> = None | Some(value: T)

  /** A failed operation carries the reason; in the source a panic (`unwrap` on `None`/`Err`,
      an out-of-range index) is modelled as an `Err` too, since nothing after it runs. */
  datatype Result<T, E> = Ok(value: T) | Err(error: E)
}
