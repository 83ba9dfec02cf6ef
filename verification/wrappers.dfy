/** Failure-compatible optional values, standing in for the `T | undefined`
    and `T | null` results of the services. */
module Wrappers {

  datatype Option<+T> = None | Some(value: T)
}
