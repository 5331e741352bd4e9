/** Datatypes shared by every component of the model. */
module Common {

  datatype Option<+T> = None | Some(value: T)

  /** A byte on the wire. */
  newtype byte = x: int | 0 <= x < 256

  const LF: byte := 10
  const CR: byte := 13
}
