/** The option type shared by the modules of this model. */
module Optional {
  datatype Option<T> = None | Some(value: T)
}
