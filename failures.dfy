/** Values standing for Java's nulls and exceptions in the rest of the model. */
module Failures {

  /** An optional value: `None` stands for a Java `null` reference. */
  datatype Option<+T> = None | Some(value: T)

  /** The exceptions the modelled code throws or lets through. */
  datatype Error =
    /** SamlResponseValidationException with its message. */
    | SamlResponseValidation(message: string)
    /** InvalidEntityIdException with its message. */
    | InvalidEntityId(message: string)
    /** NullPointerException from dereferencing an absent element. */
    | NullPointer
    /** IndexOutOfBoundsException from `get(0)` on an empty list. */
    | IndexOutOfBounds
    /** Any exception raised inside a collaborator this model does not define. */
    | External(reason: string)

  /** The result of a Java method that returns a value or throws. */
  datatype Result<+T> = Ok(value: T) | Err(error: Error)

  /** The result of a Java `void` validator: it returns normally or throws. */
  datatype Check = Pass | Fail(error: Error)

  /** Runs `second` only when `first` passed: two validator calls in sequence. */
  function AndThen(first: Check, second: Check): (r: Check)
    ensures first.Fail? ==> r == first
    ensures first.Pass? ==> r == second
  {
    if first.Fail? then first else second
  }
}
