/** The Some/None datatype used wherever the modelled code returns a value or None. */
module Wrappers {

  datatype Option<+T> = None | Some(value: T)
}
