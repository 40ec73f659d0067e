/** Small outcome types shared by the economic core. */
module Wrappers {

  /** A value that may be absent: a missing row, a failed storage read. */
  datatype Option<+T> = None | Some(value: T) {

    /** The value if present, otherwise the given fallback (Rust's `unwrap_or`). */
    function GetOr(default: T): T {
      match this
      case Some(v) => v
      case None => default
    }
  }

  /**
   * What a request handler hands back to the transport layer: either a body
   * (business outcomes, including declined ones with `success: false`) or a
   * generic internal failure (HTTP 500; the diagnostic detail is only logged).
   */
  datatype Reply<+T> = Ok(body: T) | InternalError
}
