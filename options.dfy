/** An optional value: what the wheel's loader returns when the store holds nothing usable. */
module Options {

  datatype Option<+T> = None | Some(value: T)
}
