/** An optional value, standing for a JavaScript variable that may hold `null`. */
module Options {
  datatype Option<+T> = None | Some(value: T)
}
