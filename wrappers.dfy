/** Option and Result, the shapes every fallible lookup of the model returns. */
module Wrappers {

  datatype Option<+T> = None | Some(value: T)

  /** The JavaScript errors the modelled code can throw. */
  datatype Error =
    | TypeError(what: string)          // property access on `undefined`
    | UnknownArgumentType              // a step argument with neither `rows` nor `content`

  datatype Result<+T> = Ok(value: T) | Fail(error: Error)

  /** Outcome of a handler that returns nothing but may throw. */
  datatype Outcome = Pass | Throw(error: Error)
}
