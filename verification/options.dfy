/** The optional value the model uses wherever the Java code may hold `null`. */
module Options {

  datatype Option<+T> = None | Some(value: T)
}
