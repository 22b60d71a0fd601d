/** Option and Result values, and the errors the codec can raise. */
module Wrappers {

  datatype Option<+T> = None | Some(value: T)

  /** The exceptions the codec raises, one constructor per cause. */
  datatype Error =
      /** `math.log10` of a value that is not positive ("math domain error"). */
    | MathDomainError(arg: real)
      /** lookup of an enum member by an unknown name (`T[name]`). */
    | KeyError(name: string)
      /** lookup of an enum member by a value no member has (`T(value)`). */
    | InvalidEnumValue(value: real)
      /** `si_prefixer` found no prefix for the value. */
    | PrefixNotFound(value: real)

  /** Success or failure; usable with `:-`. */
  datatype Result<+R> = Success(value: R) | Failure(error: Error) {

    predicate IsFailure() {
      Failure?
    }

    function PropagateFailure<U>(): Result<U>
      requires Failure?
    {
      Failure(error)
    }

    function Extract(): R
      requires Success?
    {
      value
    }
  }

  /** Turns a missing value into the given error. */
  function OrFail<T>(o: Option<T>, e: Error): (r: Result<T>)
    ensures r.Success? <==> o.Some?
    ensures r.Success? ==> r.value == o.value
    ensures r.Failure? ==> r.error == e
  {
    match o
    case Some(v) => Success(v)
    case None => Failure(e)
  }
}
