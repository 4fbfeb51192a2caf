/** An optional value: the game's `null`-or-number and "no enemy hit" results. */
module Wrappers {
  datatype Option<+T> = None | Some(value: T)
}
