/** The optional value used wherever the system has "None" or a missing key. */
module Wrappers {

  datatype Option<+T> = None | Some(value: T) {

    /** `x or default` / `d.get(k, default)` */
    function GetOr(default: T): T
    {
      match this
      case Some(v) => v
      case None => default
    }
  }
}
