/** Optional values: `None` stands for a JavaScript `undefined`/`null`, or a NaN where a number failed to parse. */
module Wrappers {

  datatype Option<+T> = None | Some(value: T) {

    /** The `??` operator: the value if present, otherwise the default. */
    function GetOr(default: T): T {
      match this
      case Some(v) => v
      case None => default
    }
  }
}
