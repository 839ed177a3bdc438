/** Small datatypes shared by every module: optional values, Python call outcomes, bytes. */
module Base {

  datatype Option<+T> = None | Some(value: T) {
    function GetOr(default: T): T {
      match this
      case Some(v) => v
      case None => default
    }
  }

  /** How a Python call ended: it returned a value, or it raised an exception that its
      caller did not catch (named by the exception class). */
  datatype Outcome<+T> = Returned(value: T) | Raised(error: string)

  newtype byte = x: int | 0 <= x < 256

  type Bytes = seq<byte>
}
