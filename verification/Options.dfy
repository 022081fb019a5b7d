/** The optional value every module of this project uses for what the program leaves `undefined`. */
module Options {
  datatype Option<+T> = None | Some(value: T)
}
