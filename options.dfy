/** `T | undefined` (or `T | null`) of the code. */
module Options {
  datatype Option<+T> = None | Some(value: T)
}
