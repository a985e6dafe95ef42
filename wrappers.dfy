/** Optional values and error results shared by every module of the model. */
module Wrappers {

  /** A Java reference that may be null, or a lookup that may miss. */
  datatype Option<T> = None | Some(value: T)
  {
    predicate IsSome() { Some? }

    function GetOr(default: T): (r: T)
      ensures Some? ==> r == value
      ensures None? ==> r == default
    {
      match this
      case None => default
      case Some(v) => v
    }
  }

  /** The outcome of an operation that can fail with an error message. */
  datatype Result<T> = Ok(value: T) | Err(error: string)
}
