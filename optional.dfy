/** The usual Some/None wrapper, used for "absent" values and for searches that can fail. */
module Optional {

  datatype Option<+T> = None | Some(value: T)
}
