/** An optional value, used where the program works with `undefined`, `NaN` or a missing element. */
module Wrappers {

  datatype Option<+T> = None | Some(value: T)

}
