/** Small wrapper datatypes shared by the models of both back ends. */
module Common {

  /** A value that may be absent: Python's `None`, or an attribute a feed entry lacks. */
  datatype Option<T> = None | Some(value: T) {
    function GetOr(default: T): T {
      match this
      case Some(v) => v
      case None => default
    }
  }

  /** The outcome of an operation that may raise: `Err` stands for the exception. */
  datatype Result<T, E> = Ok(value: T) | Err(error: E)
}
