/** The optional value used for the current selection: `None` plays the part of a null `Box*`. */
module Wrappers {
  datatype Option<+T> = None | Some(value: T)
}
