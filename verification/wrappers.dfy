/** The Some/None datatype used by the parsers of this model to report input
    that does not have the expected shape. */
module Wrappers {

  datatype Option<+T> = None | Some(value: T)

}
