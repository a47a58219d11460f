/** The optional-value datatype used wherever the source has `null`, `undefined` or a failed read. */
module Wrappers {

  datatype Option<+T> = None | Some(value: T)
  {
    /** The encapsulated value, or `default` if there is none. */
    function GetOr(default: T): T
    {
      match this
      case Some(v) => v
      case None => default
    }
  }
}
