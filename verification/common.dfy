/** Values shared by every part of the assistant model: Python's `None`,
    the outcome of a call that may raise, and Python truthiness of the
    optional strings the extensions pass around. */
module Common {

  datatype Option<+T> = None | Some(value: T)

  /** The exceptions the modelled code can raise. */
  datatype Fault =
    | ValueError(message: string)
    | TypeError(message: string)
    | UnboundLocalError(message: string)
    | AttributeError(message: string)

  /** What a Python call produces: a return value (possibly `None`) or a
      raised exception. */
  datatype Outcome =
    | Returned(value: Option<string>)
    | Raised(fault: Fault)

  /** Python truthiness of `str | None`: `None` and `""` are falsy. */
  predicate Truthy(s: Option<string>) {
    s.Some? && s.value != ""
  }

  /** The outcome of a function that returned a string. */
  function Says(s: string): Outcome {
    Returned(Some(s))
  }
}
