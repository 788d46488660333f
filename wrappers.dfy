/** The optional value used wherever the application stores or returns `null`. */
module Wrappers {

  datatype Option<+T> = None | Some(value: T)
}
