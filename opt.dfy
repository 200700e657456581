/** Optional values and results with an error message: the model's rendering of
    JavaScript's `null`/`undefined` and of a rejected promise or a thrown error. */
module Opt {

  datatype Option<+T> = None | Some(value: T) {

    /** `x ?? d` */
    function GetOr(default: T): T {
      match this
      case Some(v) => v
      case None => default
    }
  }

  datatype Result<+T> = Ok(value: T) | Err(message: string)
}
