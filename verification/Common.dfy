/** Types that several modules share. */
module Common {
  type byte = bv8

  datatype Option<+T> = None | Some(value: T)
}
