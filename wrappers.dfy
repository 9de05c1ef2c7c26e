/** Option: the model's stand-in for a C# reference or nullable value that may be null. */
module Wrappers {

  datatype Option<+T> = None | Some(value: T) {

    /** The C# `x ?? fallback`. */
    function GetOr(fallback: T): T
    {
      match this
      case Some(v) => v
      case None => fallback
    }
  }
}
