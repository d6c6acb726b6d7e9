/** The optional value used wherever the TypeScript code has `undefined`,
    and the outcome of a call that may throw. */
module Wrappers {

  datatype Option<+T> = None | Some(value: T) {

    /** The value, or `default` when absent (the `??` operator). */
    function GetOr(default: T): T {
      match this
      case Some(v) => v
      case None => default
    }
  }

  /** A value, or the message of the `Error` thrown instead. */
  datatype Outcome<+T> = Done(value: T) | Thrown(message: string)
}
