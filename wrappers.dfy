/** The optional value the bot uses for nullable columns and globals (Python's None). */
module Wrappers {
  datatype Option<+T> = None | Some(value: T)
}
