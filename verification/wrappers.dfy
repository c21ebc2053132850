/** Optional values and results shared by the rest of the model. */
module Wrappers {

  /** A value that may be absent, as a Bevy `get_single` that found nothing. */
  datatype Option<+T> = None | Some(value: T) {

    /** The carried value, or `default` when there is none. */
    function GetOr(default: T): T {
      match this
      case Some(v) => v
      case None => default
    }
  }

  /** Either a value or the reason the program stopped. */
  datatype Result<+R, +E> = Success(value: R) | Failure(error: E)
}
