/** A value that may be absent: a line `readLine` returned, or `null` at the end of the stream. */
module Wrappers {

  datatype Option<+T> = None | Some(value: T)
}
