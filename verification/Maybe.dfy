/** A value that may be absent: the source's `T | null` and `T | undefined`. */
module Maybe {
  datatype Option<+T> = None | Some(value: T)
}
