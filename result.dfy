/**
 * The success/failure variant of include/util/result.h.
 *
 * `getValue` and `getError` go through `std::get`, which throws
 * `std::bad_variant_access` when the other alternative is held; that
 * exceptional exit is the `BadVariantAccess` answer of `Access`.
 */
module Results {

  /** The outcome of `std::get`: the held alternative, or the exception. */
  datatype Access<+T> = Got(got: T) | BadVariantAccess

  datatype Result<+T, +E> = Success(value: T) | Failure(error: E)
  {
    /** `isSuccess()`: the value alternative is held. */
    predicate IsSuccess()
    {
      Success?
    }

    /** `isFailure()`: the error alternative is held. */
    predicate IsFailure()
    {
      Failure?
    }

    /** `getValue()`: the value, or `bad_variant_access` on a failure. */
    function GetValue(): (a: Access<T>)
      ensures a.Got? <==> IsSuccess()
      ensures a.Got? ==> a.got == value
    {
      match this
      case Success(v) => Got(v)
      case Failure(_) => BadVariantAccess
    }

    /** `getError()`: the error, or `bad_variant_access` on a success. */
    function GetError(): (a: Access<E>)
      ensures a.Got? <==> IsFailure()
      ensures a.Got? ==> a.got == error
    {
      match this
      case Success(_) => BadVariantAccess
      case Failure(e) => Got(e)
    }

    /** `getValueOr(d)`: the held value on success, d on failure. */
    function GetValueOr(d: T): (r: T)
      ensures IsSuccess() ==> r == value
      ensures IsFailure() ==> r == d
    {
      if IsSuccess() then value else d
    }
  }

  /** `success(v)`: reading the value back gives v. */
  function MakeSuccess<T, E>(v: T): (r: Result<T, E>)
    ensures r.IsSuccess() && !r.IsFailure()
    ensures r.GetValue() == Got(v) && r.GetError() == BadVariantAccess
  {
    Success(v)
  }

  /** `failure(e)`: reading the error back gives e. */
  function MakeFailure<T, E>(e: E): (r: Result<T, E>)
    ensures r.IsFailure() && !r.IsSuccess()
    ensures r.GetError() == Got(e) && r.GetValue() == BadVariantAccess
  {
    Failure(e)
  }

  /** Exactly one of `isSuccess()` and `isFailure()` holds. */
  lemma ExactlyOneAlternative<T, E>(r: Result<T, E>)
    ensures r.IsSuccess() != r.IsFailure()
  {
  }

  /**
   * A result is determined by what its getters return: the getters are an
   * inverse of the two factories.
   */
  lemma GettersDetermineResult<T, E>(r: Result<T, E>)
    ensures r.IsSuccess() ==> r == MakeSuccess(r.GetValue().got)
    ensures r.IsFailure() ==> r == MakeFailure(r.GetError().got)
  {
  }
}
