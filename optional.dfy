/** A value that may be missing: an absent session key or form field, a
    word the selector could not draw, a database row that does not exist. */
module Optional {

  datatype Option<+T> = None | Some(value: T) {

    /** The value, or `default` when it is missing (Python's `d.get(k, default)`). */
    function GetOr(default: T): (r: T)
      ensures Some? ==> r == value
      ensures None? ==> r == default
    {
      match this
      case Some(v) => v
      case None => default
    }
  }

  /** Python truthiness of an optional string: `not s` holds for `None` and for `""`. */
  predicate Blank(s: Option<string>)
  {
    s.None? || s.value == ""
  }
}
