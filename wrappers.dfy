/** The optional value used wherever the bot's JavaScript returns `null` or leaves a key out. */
module Wrappers {
  datatype Option<+T> = None | Some(value: T)
}
