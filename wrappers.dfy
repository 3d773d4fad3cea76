/** Java's nullable references, where the model needs to tell "no object" apart. */
module Wrappers {
  datatype Option<+T> = None | Some(value: T)
}
