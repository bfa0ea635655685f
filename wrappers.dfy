/** A value that may be absent: JavaScript's `undefined` on the one side,
    a present value on the other. */
module Wrappers {

  datatype Option<+T> = None | Some(value: T)

}
