/** The application layer's error taxonomy: one alternative per exception class. */
module ApplicationExceptions {
  import opened Text

  const ApplicationErrorCode := "APPLICATION_ERROR"

  datatype ApplicationException =
    /** The base class, built with its message and an error code (by default `ApplicationErrorCode`). */
    | ApplicationError(msg: string, code: string)
    | RepositoryError(detail: string)
    | UseCaseError(detail: string, useCase: string)
    | ValidationError(detail: string)
    | ConversationAlreadyExists(conversationId: string)
  {
    /** The `message` attribute, which is also `str(e)`. */
    function Message(): string {
      match this
      case ApplicationError(m, _) => m
      case RepositoryError(d) => "Repository error: " + d
      case UseCaseError(d, u) => "Use case '" + u + "' failed: " + d
      case ValidationError(d) => "Validation error: " + d
      case ConversationAlreadyExists(id) => "Conversation already exists: " + id
    }

    /** The `error_code` attribute. */
    function ErrorCode(): string {
      match this
      case ApplicationError(_, c) => c
      case RepositoryError(_) => "REPOSITORY_ERROR"
      case UseCaseError(_, _) => "USE_CASE_ERROR"
      case ValidationError(_) => "VALIDATION_ERROR"
      case ConversationAlreadyExists(_) => "CONVERSATION_ALREADY_EXISTS"
    }
  }

  /** `ApplicationException(message)` with the default error code. */
  function NewApplicationException(message: string): (e: ApplicationException)
    ensures e.Message() == message && e.ErrorCode() == ApplicationErrorCode
  {
    ApplicationError(message, ApplicationErrorCode)
  }

  /** The use-case message names the failing use case between quotes and keeps the cause at its end. */
  lemma UseCaseMessageShape(detail: string, useCase: string)
    ensures var m := UseCaseError(detail, useCase).Message();
      var head := "Use case '" + useCase + "' failed: ";
      StartsWith(m, head) && m[|head|..] == detail
  {
  }
}
