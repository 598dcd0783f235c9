/** The optional value used wherever the program keeps a nullable pointer or an empty std::function. */
module Wrappers {

  datatype Option<+T> = None | Some(value: T)
}
