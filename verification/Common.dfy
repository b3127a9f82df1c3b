/** Datatypes shared by the models. */
module Common {

  /** A value that may be absent: the source's `null`, `undefined` or missing key. */
  datatype Option<+T> = None | Some(value: T) {
    function GetOr(default: T): T {
      if Some? then value else default
    }
  }

  /** The value a call returns, or the error it throws. */
  datatype Result<+T> = Ok(value: T) | Err(error: string)
}
