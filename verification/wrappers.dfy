/** A minimal optional-value datatype, used for the optional detail text of a
    user message and for parse results. */
module Wrappers {

  datatype Option<+T> = None | Some(value: T)
}
