/** Small value types shared by every page of the application. */
module Common {

  /** Record identifiers are the strings produced by `crypto.randomUUID` (or the fixed ids of
      the predefined schedule). */
  type Id = string

  datatype Option<+T> = None | Some(value: T) {
    function GetOr(default: T): T {
      match this
      case Some(v) => v
      case None => default
    }
  }

  /** The outcome of an operation that may throw. */
  datatype Result<+T> = Ok(value: T) | Err(message: string)

  /** A value `parseInt` gave that is a number (not NaN) and greater than 0. */
  predicate PositiveInt(n: Option<int>) {
    n.Some? && n.value > 0
  }

  /** A value `parseFloat` gave that is a number (not NaN) and greater than 0. */
  predicate PositiveReal(x: Option<real>) {
    x.Some? && x.value > 0.0
  }

  /** A notification raised through the `sonner` toast API, or none at all. */
  datatype Toast = NoToast | Error(message: string) | Success(message: string) | Info(message: string)
}
