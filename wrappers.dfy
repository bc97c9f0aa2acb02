/** The Option datatype shared by the other modules: a value or nothing (C++'s null). */
module Wrappers {

  datatype Option<+T> = None | Some(value: T)
}
