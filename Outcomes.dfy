/** The ways a computation of the engine can end: a value, or the Python
    exception that would have escaped from it. */
module Outcomes {

  /** The exceptions the modelled code can raise. */
  datatype Error =
    | MissingField(name: string)   // attribute or key not present (AttributeError / KeyError)
    | WrongType(name: string)      // a field holds a value of the wrong kind (TypeError)
    | DivisionByZero               // `/`, `//` or `%` by zero (ZeroDivisionError)
    | MathDomain                   // `math.log` / `log1p` outside its domain (ValueError)
    | AssertionFailed              // a failed `assert` (AssertionError)

  datatype Result<T> = Ok(value: T) | Err(error: Error)
  {
    predicate IsFailure()
    {
      Err?
    }

    function PropagateFailure<U>(): Result<U>
      requires Err?
    {
      Err(error)
    }

    function Extract(): T
      requires Ok?
    {
      value
    }
  }
}
