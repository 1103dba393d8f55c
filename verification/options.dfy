/** The optional value used wherever the bot returns `None` on failure. */
module Options {

  datatype Option<+T> = None | Some(value: T)
}
