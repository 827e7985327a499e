/** Java references that may be null, and the way Java renders them in text. */
module Nullable {

  /** A Java reference: `None` is `null`. */
  datatype Option<+T> = None | Some(value: T) {
    function GetOr(default: T): T {
      match this
      case Some(v) => v
      case None => default
    }
  }

  /** The text Java's string concatenation and `String.formatted` produce
      for a `String` that may be null. */
  function Render(s: Option<string>): string {
    match s
    case Some(v) => v
    case None => "null"
  }
}
