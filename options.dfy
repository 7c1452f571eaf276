/** The optional value used wherever the bot answers "nothing" (Python's None). */
module Options {
  datatype Option<+T> = None | Some(value: T)
}
