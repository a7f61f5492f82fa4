/** Option and Result: the nil pointer and the error return of the generator. */
module Wrappers {

  /** `None` stands for a nil `Type`, `*Location` or `*LineRange`. */
  datatype Option<+T> = None | Some(value: T)

  /** The `error` result of a Go function: `Err` carries the error's message. */
  datatype Result<+T> = Ok(value: T) | Err(msg: string)
}
