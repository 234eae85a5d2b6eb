/** The value a lookup may not find: a JavaScript `undefined` or `null` in the modelled code. */
module Options {
  datatype Option<+T> = None | Some(value: T)
}
