/** Option and Result values, and the Python exceptions the model raises as errors. */
module Wrappers {

  datatype Option<+T> = None | Some(value: T)

  /** The exceptions the plugin's code can raise on the paths it does not guard. */
  datatype PyError =
    | IndexError      // `xs[i]` with `i` out of range
    | ValueError      // `xs.remove(x)` with `x` not in `xs`
    | AttributeError  // a method called on `None`

  datatype Result<+T> = Ok(value: T) | Err(error: PyError)
}
