/** The optional value used throughout the model: `None` stands for JavaScript's
    `undefined` (a missing key, a failed lookup), for a step that throws, or
    for the number NaN. */
module Wrappers {
  datatype Option<+T> = None | Some(value: T) {
    function GetOr(default: T): T {
      match this
      case Some(v) => v
      case None => default
    }
  }
}
