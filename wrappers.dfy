/** Small value wrappers shared by every module of the model. */
module Wrappers {

  /** A value that may be absent (JavaScript `undefined` / `null`). */
  datatype Option<+T> = None | Some(value: T) {
    function GetOr(default: T): (r: T)
      ensures Some? ==> r == value
      ensures None? ==> r == default
    {
      match this
      case Some(v) => v
      case None => default
    }
  }

  /** A value or the reason it could not be produced. */
  datatype Result<+T, +E> = Ok(value: T) | Err(error: E)

  /**
   * The settled outcome of one awaited network call: the call resolved with
   * a value, or it rejected (any network, status or parse failure).
   */
  datatype Call<+T> = Succeeded(value: T) | Failed
}
