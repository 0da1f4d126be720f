/** Result shapes shared by the modules of this project. */
module Outcomes {

  datatype Option<+T> = None | Some(value: T) {
    function GetOr(default: T): T {
      if Some? then value else default
    }
  }

  /** An attempt that performs durable operations in order and then succeeds or stops. */
  datatype Attempt<T> = Attempt(ops: seq<T>, done: bool)
}
