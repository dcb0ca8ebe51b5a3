/** Optional values: the model's rendering of Swift's `T?`, used for the
    keys a search response may or may not carry and for the search bar's
    text, which UIKit may report as nil. */
module Options {

  datatype Option<+T> = None | Some(value: T) {

    /** The wrapped value, or `default` when there is none
        (Swift's `if let x = … { use x } else { keep default }`). */
    function GetOr(default: T): T {
      match this
      case Some(v) => v
      case None => default
    }
  }
}
