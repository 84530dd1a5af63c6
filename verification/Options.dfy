/** The one optional type of the model: Go's nil values and (value, ok) results. */
module Options {
  datatype Option<+T> = None | Some(value: T)
}
