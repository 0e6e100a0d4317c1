/** The optional value the source returns from lookups and protocol steps. */
module Wrappers {

  datatype Option<+T> = None | Some(value: T)
}
