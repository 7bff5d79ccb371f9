/** Optional values: the model's counterpart of Swift's `T?`. */
module Wrappers {

  datatype Option<+T> = None | Some(value: T)

  /** The contained text, or the empty string for an absent component. */
  function TextOr(o: Option<string>): string
  {
    match o
    case Some(t) => t
    case None => ""
  }
}
