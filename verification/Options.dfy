/** A value that may be missing. */
module Options {

  datatype Option<+T> = None | Some(value: T) {
    /** SQL COALESCE. */
    function Or(other: Option<T>): Option<T> {
      if Some? then this else other
    }
  }
}
