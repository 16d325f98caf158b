/** Python's `None`, and `dict.get` on a key that may be missing. */
module Optional {

  /** A value that may be absent: `None`, or `Some` value. */
  datatype Option<T> = None | Some(value: T) {

    /** What `d.get(key, fallback)` returns: the stored value when there is
        one, otherwise the fallback. */
    function ValueOr(fallback: T): T {
      if Some? then value else fallback
    }
  }
}
