/** Small failure-compatible wrappers used across the model. */
module Wrappers {

  datatype Option<+T> = None | Some(value: T) {
    /** The value, or a default when absent (Python's `x or default` / `d.get(k, default)`). */
    function GetOr(default: T): T {
      match this
      case Some(v) => v
      case None => default
    }
  }

  /** A value, or the reason it could not be produced. */
  datatype Result<+T, +E> = Ok(value: T) | Err(error: E)

  /**
   * What a call to the Gemini model came back with: the response's `text` attribute
   * (None when it has none), or an exception and its message. The call itself is made
   * outside the model.
   */
  datatype ModelCall = Replied(text: Option<string>) | Raised(message: string)
}
