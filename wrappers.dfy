/** Optional values: `None` stands for an error return of a Go call whose error text the model does not use. */
module Wrappers {

  datatype Option<+T> = None | Some(value: T) {

    /** The wrapped value, or `default` when there is none. */
    function GetOr(default: T): (v: T)
      ensures this.Some? ==> v == this.value
      ensures this.None? ==> v == default
    {
      match this
      case Some(v) => v
      case None => default
    }
  }
}
