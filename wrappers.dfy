/** The usual optional value, used wherever the plugins return an empty `optional<>`
    or swallow an exception and carry on without a result. */
module Wrappers {

  datatype Option<+T> = None | Some(value: T)

}
