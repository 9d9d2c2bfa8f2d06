/** The Some/None datatype used for values the engine or a library may fail to give. */
module Wrappers {
  datatype Option<+T> = None | Some(value: T)
}
