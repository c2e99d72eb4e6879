/** Datatypes shared by every module of the project. */
module Common {
  datatype Option<+T> = None | Some(value: T)
}
