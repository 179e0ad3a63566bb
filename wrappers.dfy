/** The optional value used wherever the source signals "no result" through a
    boolean return beside an out-parameter. */
module Wrappers {
  datatype Option<+T> = None | Some(value: T)
}
