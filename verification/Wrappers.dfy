/** The optional value that stands for the source's `null` and `undefined`. */
module Wrappers {
  datatype Option<+T> = None | Some(value: T) {

    /** The source's `this ?? other`. */
    function Or(other: Option<T>): Option<T> {
      if Some? then this else other
    }
  }
}
