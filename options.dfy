/** The optional values the monitors pass around where the source uses Python's `None`. */
module Options {

  datatype Option<+T> = None | Some(value: T)
}
