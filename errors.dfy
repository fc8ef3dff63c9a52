/** The exceptions the core throws, as values. */
module Errors {

  /** One violated constraint (jakarta.validation.ConstraintViolation): the property it
      is on and its message. */
  datatype Violation = Violation(property: string, message: string)

  datatype Error =
      /** ConstraintViolationException, thrown by the store's save with every violation found. */
    | ConstraintViolation(violations: set<Violation>)
      /** CustomerNotFoundException, thrown by the service's delete. */
    | CustomerNotFound(message: string)
      /** IllegalArgumentException, thrown by the mapper for an unsupported class. */
    | IllegalArgument(message: string)
      /** NullPointerException: a null reference dereferenced, or a null key offered to the
          concurrent map. */
    | NullPointer
}
