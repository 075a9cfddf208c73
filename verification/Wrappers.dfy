module Wrappers {

  /** The usual optional value; it stands for null pointers and failed searches. */
  datatype Option<+T> = None | Some(value: T)
}
