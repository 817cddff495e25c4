/** Shared vocabulary of the model: optional values, the Python exceptions the
    modelled code can raise, timestamps and the exposure rows the database
    layer hands back. */
module Common {

  datatype Option<T> = None | Some(value: T)

  /** The exceptions of the modelled Python code that end an operation. */
  datatype Exception =
    | ValueError(message: string)
    | IndexError
    | AttributeError(name: string)
    | OSError(path: string)
    | DatabaseError(statement: string)

  /** The outcome of an operation that may raise. */
  datatype Result<T> = Ok(value: T) | Err(error: Exception)

  /** A point in time, in whole seconds. */
  type Time = int

  /** One row of the exposure listing the database layer returns:
      `(id, createtime, exposure)`, the exposure being its obsid. */
  datatype ExposureRow = ExposureRow(id: int, createtime: Time, exposure: string)
}
