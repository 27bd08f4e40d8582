/** The optional-value type used for fields and dictionary entries that may be absent. */
module Options {

  datatype Option<+T> = None | Some(value: T) {

    /** Python's `d.get(k, default)`: the value when present, `default` otherwise. */
    function GetOr(default: T): (r: T)
      ensures Some? ==> r == value
      ensures None? ==> r == default
    {
      match this
      case Some(v) => v
      case None => default
    }
  }
}
