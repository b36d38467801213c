/** Option and Result, the two wrapper types the catalogue code returns everywhere. */
module Results {

  datatype Option<+T> = None | Some(value: T) {
    function GetOr(default: T): T {
      match this
      case Some(v) => v
      case None => default
    }
  }

  datatype Result<+T, +E> = Ok(value: T) | Err(error: E) {
    /** `Result::ok`: the success value, if any. */
    function ToOption(): Option<T> {
      match this
      case Ok(v) => Some(v)
      case Err(_) => None
    }
  }

  /** The unit value `()` of Rust. */
  datatype Unit = Unit
}
