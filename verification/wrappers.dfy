/** Small value wrappers shared by the whole model. */
module Wrappers {

  /** An optional value: Python's `None` versus a present value, or a JSON key
      that is absent versus present. */
  datatype Option<+T> = None | Some(value: T) {

    /** `dict.get(key, default)`: the value when present, the default otherwise. */
    function GetOr(default: T): T {
      match this
      case Some(v) => v
      case None => default
    }
  }
}
