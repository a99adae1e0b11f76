/** Option and Result, used for PHP's "value or false/null" returns and for
    exceptions that propagate out of a call. */
module Wrappers {

  datatype Option<+T> = None | Some(value: T)

  datatype Result<+T, +E> = Ok(value: T) | Err(error: E) {

    /** Applies `f` to a success value and passes an error through unchanged. */
    function MapValue<U>(f: T -> U): (r: Result<U, E>)
      ensures r.Ok? <==> this.Ok?
      ensures r.Ok? ==> r.value == f(this.value)
      ensures r.Err? ==> r.error == this.error
    {
      match this
      case Ok(v) => Ok(f(v))
      case Err(e) => Err(e)
    }
  }
}
