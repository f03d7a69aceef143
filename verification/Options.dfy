// A value that may be absent; the source's `T | null`.
module Options {
  datatype Option<+T> = None | Some(value: T)
}
