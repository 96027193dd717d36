/** Option and Result, the failure-carrying datatypes shared by every module. */
module Wrappers {

  datatype Option<+T> = None | Some(value: T)

  /** `Err` stands for a Rust panic or a Python exception / `sys.exit`. */
  datatype Result<+T, +E> = Ok(value: T) | Err(error: E)
}
