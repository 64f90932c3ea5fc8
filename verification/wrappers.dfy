/** The optional-value datatype used wherever the source has `undefined`,
    `null`, a failed parse or a failed request. */
module Wrappers {

  datatype Option<+T> = None | Some(value: T) {

    /** Returns the value in Some, or `default` for None. */
    function GetOr(default: T): (r: T)
      ensures Some? ==> r == value
      ensures None? ==> r == default
    {
      match this
      case Some(v) => v
      case None => default
    }
  }
}
