/** Python's `None`-or-value, used wherever the bot handles a value that may be `None`. */
module Wrappers {

  datatype Option<+T> = None | Some(value: T)
}
