/** Optional values: `None` stands for a JavaScript `null` or `undefined`. */
module Wrappers {

  datatype Option<+T> = None | Some(value: T) {

    function GetOr(default: T): T {
      match this
      case Some(v) => v
      case None => default
    }
  }

  /** A string as JavaScript's truthiness sees it: `null`, `undefined` and "" are false. */
  predicate Truthy(o: Option<string>) {
    o.Some? && o.value != ""
  }
}
