/** The optional value used for lookups that may find nothing
    (Kotlin's nullable results, Swift's optionals). */
module Wrappers {

  datatype Option<+T> = None | Some(value: T) {

    /** Returns the value in Some, or `default` when None (Kotlin `?:`, Swift `??`). */
    function GetOr(default: T): T {
      match this
      case Some(v) => v
      case None => default
    }
  }
}
