/** The optional value used where the source has a nullable reference. */
module Optional {

  datatype Option<+T> = None | Some(value: T)
}
