/** Optional values shared by every module of the model. */
module Wrappers {

  /** A value that may be absent (a C# null reference or a lookup that found nothing). */
  datatype Option<+T> = None | Some(value: T)
}
