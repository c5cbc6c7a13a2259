/** Option and a Go-style call outcome shared by the model. */
module Wrappers {

  /** An optional value: a Go `*T` that may be nil, or a lookup that may fail. */
  datatype Option<+T> = None | Some(value: T)

  /** What a Go call that can fail ends in: a value with a nil error, a value with a
      non-nil error (Go functions return both), or a runtime panic (an index out of
      range, a failed type assertion). */
  datatype GoResult<+T> = Ok(value: T) | Err(value: T) | Panic
}
