/** An optional value: a present or absent key of one of the game's records. */
module Wrappers {

  datatype Option<+T> = None | Some(value: T) {

    /** The value if present, or the given default (Python's `dict.get(key, default)`). */
    function GetOr(default: T): T {
      match this
      case Some(v) => v
      case None => default
    }
  }
}
