// Optional values. JavaScript's `undefined`/`null` (and the "truthy"
// checks the application performs on optional fields) are modelled with
// this datatype.

module Opt {

  datatype Option<T> = None | Some(value: T)
  {
    function GetOr(default: T): (r: T)
      ensures this.Some? ==> r == value
      ensures this.None? ==> r == default
    {
      match this
      case Some(v) => v
      case None => default
    }
  }
}
