/** Definitions that several parts share. */
module Common {
  datatype Option<T> = None | Some(value: T)

  /** The number of 32-bit words, and of those that are not negative as signed words. */
  const WORD := 0x1_0000_0000
  const HALF := 0x8000_0000
}
