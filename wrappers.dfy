/** Optional values and the Java exceptions the modelled code can raise. */
module Wrappers {

  /** java.util.Optional, or a nullable reference. */
  datatype Option<+T> = None | Some(value: T) {
    function GetOr(default: T): T {
      match this
      case Some(v) => v
      case None => default
    }
  }

  /** The unchecked exceptions the modelled code throws. */
  datatype Fault =
    | IndexOutOfBounds   // ArrayIndexOutOfBoundsException, raised on purpose or by an array access
    | NullPointer        // NullPointerException (Optional.of(null), a null plane, a null argument)
    | IllegalArgument    // IllegalArgumentException (BiMap.put, Arrays.fill with from > to)
    | NoSuchElement      // NoSuchElementException (Optional.get on an empty Optional)

  /** The outcome of a Java call: a normal return or a thrown exception. */
  datatype Outcome<+T> = Ok(value: T) | Thrown(fault: Fault)
}
