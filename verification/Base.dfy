/** Small datatypes the other modules share. */
module Base {

  datatype Option<+T> = None | Some(value: T)

  /** The outcome of an operation the source lets fail; which error it was is not modelled. */
  datatype Result<+T> = Ok(value: T) | Err
}
