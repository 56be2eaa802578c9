/** The optional value that stands in for a null shared pointer or for
    std::string::npos throughout the model. */
module Wrappers {

  datatype Option<+T> = None | Some(value: T)
}
