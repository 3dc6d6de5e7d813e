/** Option, for lookups that can miss and decoders that can fail. */
module Wrappers {

  datatype Option<+T> = None | Some(value: T)
}
