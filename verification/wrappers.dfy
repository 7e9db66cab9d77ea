/** The scripts return Python's `None` for an absent value; `Option` models it. */
module Wrappers {

  datatype Option<+T> = None | Some(value: T)

}
