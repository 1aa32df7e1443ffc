/** The optional value used for nullable references in the model. */
module Options {
  datatype Option<+T> = None | Some(value: T)
}
