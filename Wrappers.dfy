/** The optional value the collector uses wherever the Python code stores or returns `None`. */
module Wrappers {

  datatype Option<+T> = None | Some(value: T)
}
