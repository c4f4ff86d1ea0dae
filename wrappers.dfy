/** Option value used for JavaScript's `undefined`/`null` and for `NaN` results. */
module Wrappers {

  datatype Option<+T> = None | Some(value: T) {

    /**
     * The wrapped value, or `default` when absent. It returns any present
     * value without testing its truthiness, which matches JavaScript's
     * `x || default` for its callers: a list is always truthy, and a total of
     * 0 falls back to 0 anyway.
     */
    function GetOr(default: T): T {
      match this
      case Some(v) => v
      case None => default
    }
  }
}
