/** Small value types shared by the whole model: nullable references,
    error results, C#'s `bool?` and bytes. */
module Types {

  /** A C# reference that may be `null`. */
  datatype Option<+T> = None | Some(value: T)

  /** The outcome of an operation that may throw. */
  datatype Result<+T> = Ok(value: T) | Err(error: Error)

  /** The exceptions the modelled code can raise. */
  datatype Error =
    | NullReference      // a member was accessed through `null`
    | ArgumentNull       // a library routine was handed `null`
    | InvalidData        // `InvalidDataException` (not fingerprintable)
    | ArgumentOutOfRange // a range slice past the start of a string

  /** C#'s `bool?`: unset, explicitly false, explicitly true. */
  datatype NullableBool = Null | False | True {
    /** `this ?? fallback` */
    function Coalesce(fallback: bool): (r: bool)
      ensures Null? ==> r == fallback
      ensures !Null? ==> r == True?
    {
      match this
      case Null => fallback
      case False => false
      case True => true
    }
  }

  newtype byte = x: int | 0 <= x < 256
}
