/** The conventional optional value, used where the program has a nullable column or returns None. */
module Options {

  datatype Option<+T> = None | Some(value: T)
}
