/** The optional value used for "not found" results (std::string::npos, a failed parse). */
module Wrappers {
  datatype Option<+T> = None | Some(value: T)
}
