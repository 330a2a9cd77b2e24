/** The application's exception classes as error values, and the
    failure-carrying wrappers the model returns instead of raising. */
module Errors {

  /** One constructor per exception class of the application, plus the
      built-in `ValueError` and any other exception a collaborator raises. */
  datatype ErrorKind =
    | TwilioValidationError
    | ConversationMemoryError
    | LLMProviderError
    | AgentToolError
    | ConfigurationError
    | RateLimitError
    | MessageProcessingError
    | ExternalAPIError
    | ValueError
    | OtherException

  /** A raised exception: its class and its message text. */
  datatype Error = Error(kind: ErrorKind, message: string)

  datatype Option<+T> = None | Some(value: T) {
    function GetOr(default: T): T {
      match this
      case Some(v) => v
      case None => default
    }
  }

  /** The value an operation returns, or the exception it raises. */
  datatype Result<+T> = Ok(value: T) | Err(error: Error)

  /** The outcome of an operation that returns nothing: it completes, or raises. */
  datatype Outcome = Pass | Fail(error: Error)
}
