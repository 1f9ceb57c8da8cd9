/** The usual optional value; `None` stands for the program's nil, miss or absent document. */
module Wrappers {
  datatype Option<+T> = None | Some(value: T)
}
