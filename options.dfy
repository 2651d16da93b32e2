/** The optional value used wherever the PHP code can yield "nothing" (a null setting, a failed read). */
module Options {
  datatype Option<+T> = None | Some(value: T)
}
