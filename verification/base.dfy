/** Small failure-carrying datatypes shared by every module. */
module Base {

  datatype Option<+T> = None | Some(value: T) {
    function OrElse(other: Option<T>): Option<T> {
      if Some? then this else other
    }
  }

  /** What a Go call that may panic or never return actually does:
      it returns a value, it panics, or it runs (or blocks) forever. */
  datatype Outcome<+T> = Returned(value: T) | Panicked | Diverges
}
