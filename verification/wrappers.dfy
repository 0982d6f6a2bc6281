/** The optional value the pipeline uses where the source returns `null`. */
module Wrappers {

  datatype Option<+T> = None | Some(value: T)
}
