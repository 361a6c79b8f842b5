/** Python's `None`-or-value, as used throughout the modelled code. */
module Opt {

  datatype Option<+T> = None | Some(value: T)

}
