/** An optional value; in the numeric modules `None` stands for the NaN or the infinity of the source. */
module Options {
  datatype Option<+T> = None | Some(value: T)
}
