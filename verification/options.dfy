/** An optional value, for SelectedItem's result and Perform's message. */
module Options {

  datatype Option<T> = None | Some(value: T)
}
