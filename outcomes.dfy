/** Failure outcomes of the equaliser and phase-recovery code, named after the
    Python exceptions the numeric code raises on each path. */
module Outcomes {

  datatype Option<+T> = None | Some(value: T)

  datatype Error =
    | KeyError(key: string)   // lookup of an unknown training method
    | NameError(name: string) // use of an undefined global name
    | TypeError               // arithmetic on a missing (None) argument
    | IndexError              // write outside a freshly allocated array
    | ZeroDivisionError       // integer division by zero
    | ValueError              // shape mismatch or a rejected argument value

  datatype Result<+T> = Success(value: T) | Failure(error: Error) {

    predicate IsFailure() {
      Failure?
    }

    function PropagateFailure<U>(): Result<U>
      requires Failure?
    {
      Failure(error)
    }

    function Extract(): T
      requires Success?
    {
      value
    }
  }
}
