/** Option, the value that a lookup or a parse may fail to produce. */
module Wrappers {

  datatype Option<+T> = None | Some(value: T)
}
