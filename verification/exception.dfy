/**
 * `VerdictException`: the checked exception `checkHasErrors` raises, an
 * immutable carrier of the error map and of the data under validation.
 */
module Exceptions {
  import opened Values

  /**
   * Both fields are final: a value of this datatype never changes, so each
   * accessor gives the same answer for the whole life of the exception.
   * The datatype constructor is the two-argument Java constructor.
   */
  datatype VerdictException = VerdictException(errors: ErrorMap, data: Option<Subject>) {

    /** `getErrors()`: the map given at construction, not a copy of it. */
    function GetErrors(): ErrorMap {
      errors
    }

    /** `getData()`: the data given at construction, possibly `null`. */
    function GetData(): Option<Subject> {
      data
    }
  }

  /** The two-argument constructor: the accessors give back exactly its arguments. */
  lemma AccessorsReturnArguments(errors: ErrorMap, data: Option<Subject>)
    ensures VerdictException(errors, data).GetErrors() == errors
    ensures VerdictException(errors, data).GetData() == data
  {
  }

  /** The one-argument constructor `VerdictException(errors)`: no data, so `getData()` is `null`. */
  function WithoutData(errors: ErrorMap): (e: VerdictException)
    ensures e.GetErrors() == errors
    ensures e.GetData() == None
  {
    VerdictException(errors, None)
  }
}
