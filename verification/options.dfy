/** The optional value used wherever the app returns or stores `None`. */
module Options {

  datatype Option<+T> = None | Some(value: T)

  /** The state of one key of the session store: never set (or popped), or set to a value. */
  datatype Slot<+T> = Absent | Present(value: T)
}
