/** Option and Result values for missing cells (pandas NaN/NaT) and for
    operations of the dashboard that raise. */
module Wrappers {

  /** A value that may be missing: `None` stands for a NaN or NaT cell. */
  datatype Option<+T> = None | Some(value: T)

  /** The outcome of an operation that pandas may abort with an exception. */
  datatype Result<+R, +E> = Ok(value: R) | Err(error: E)
}
