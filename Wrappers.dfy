// Nullable references and optional results.
module Wrappers {
  /** `None` stands for C#'s null reference, `Some(v)` for a present value. */
  datatype Option<T> = None | Some(value: T)
}
