/** The optional value used by the parsers and decoders of this model. */
module Wrappers {

  datatype Option<+T> = None | Some(value: T)
}
