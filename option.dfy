/** A value that may be absent: the Dafny counterpart of a nullable column or of `None`. */
module Optional {

  datatype Option<+T> = None | Some(value: T)
}
