/** The three exception kinds the reservation core throws, plus the raw
    IllegalArgumentException that escapes from the property lookup, and the
    failure-carrying wrappers the model uses instead of Java exceptions. */
module Exceptions {

  datatype Option<+T> = None | Some(value: T)

  /** One constructor per exception class; each carries its message. */
  datatype Error =
    | ParameterValidation(message: string)  // ParameterValidationException
    | ObjectNotFound(message: string)       // ObjectNotFoundException
    | Business(message: string)             // BusinessException
    | IllegalArgument(message: string)      // uncaught IllegalArgumentException from UUID.fromString

  /** A call that either returns a value or throws. */
  datatype Result<+T> = Ok(value: T) | Err(error: Error)

  /** A `void` call that either returns or throws. */
  datatype Outcome = Pass | Fail(error: Error)

  /** The message `new ObjectNotFoundException(clazz)` builds from the class name. */
  function NotFoundMessage(className: string): string
  {
    "The " + className + " was not found in the Database"
  }

  const BOOKING_NOT_FOUND: string := NotFoundMessage("Booking")
  const PROPERTY_NOT_FOUND: string := NotFoundMessage("Property")
}
