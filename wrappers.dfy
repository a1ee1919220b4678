/** The optional-value datatype shared by every module of the model. */
module Wrappers {

  /** `None` stands for JavaScript's `undefined` / Python's `None` where a
      value may be missing. */
  datatype Option<+T> = None | Some(value: T) {
    function GetOr(default: T): T {
      match this
      case Some(v) => v
      case None => default
    }
  }
}
