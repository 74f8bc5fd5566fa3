/** Types that several modules share. */
module Types {

  datatype Option<+T> = None | Some(value: T)

  newtype Byte = x: int | 0 <= x < 256
}
