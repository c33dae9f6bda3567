/** The two shapes every fallible operation of the node is modelled with, and the
    exceptions it can raise. */
module Results {
  datatype Option<+T> = None | Some(value: T)

  datatype Result<+T> = Ok(value: T) | Err(fault: Fault)

  /** One constructor for each exception class the modelled code raises or lets escape. */
  datatype Fault =
    | ValueError(text: string)
    | RuntimeError(text: string)
    | TypeError(text: string)
    | KeyError(text: string)
    | OverflowError
    | ConnectionClosed
}
