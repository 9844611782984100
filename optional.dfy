/** The usual Some/None wrapper, used for the component's nullable state. */
module Optional {
  datatype Option<T> = None | Some(value: T)
}
