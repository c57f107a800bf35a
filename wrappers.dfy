/** An optional value: JavaScript's `null` / `undefined` results become `None`. */
module Wrappers {

  datatype Option<+T> = None | Some(value: T) {

    /** The first alternative that produced a value, as a regex alternation `x|y` does. */
    function OrElse(other: Option<T>): Option<T> {
      match this
      case Some(_) => this
      case None => other
    }
  }
}
