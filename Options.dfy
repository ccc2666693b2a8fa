/** The optional value used wherever the JavaScript code returns `undefined` or `null` for "nothing". */
module Options {

  datatype Option<+T> = None | Some(value: T)
}
