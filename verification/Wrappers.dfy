/** The usual optional value, used wherever the program has a `std::optional`. */
module Wrappers {
  datatype Option<+T> = None | Some(value: T)
}
