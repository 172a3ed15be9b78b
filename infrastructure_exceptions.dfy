/** The infrastructure layer's error taxonomy: one alternative per exception class. */
module InfrastructureExceptions {
  import opened Text

  const InfrastructureErrorCode := "INFRASTRUCTURE_ERROR"
  const PersistencePrefix := "Persistence error: "

  datatype InfrastructureException =
    /** The base class, built with its message and an error code (by default `InfrastructureErrorCode`). */
    | InfrastructureError(msg: string, code: string)
    | PersistenceError(detail: string)
    /** A `PersistenceException` subclass: its message is the persistence message of an operation-tagged detail. */
    | MemoryRepositoryError(detail: string, operation: string)
    | AdapterError(detail: string, adapter: string)
  {
    /** The `message` attribute, which is also `str(e)`. */
    function Message(): string {
      match this
      case InfrastructureError(m, _) => m
      case PersistenceError(d) => PersistencePrefix + d
      case MemoryRepositoryError(d, op) => PersistencePrefix + "Memory repository operation '" + op + "' failed: " + d
      case AdapterError(d, a) => "Adapter '" + a + "' error: " + d
    }

    /** The `error_code` attribute. */
    function ErrorCode(): string {
      match this
      case InfrastructureError(_, c) => c
      case PersistenceError(_) => "PERSISTENCE_ERROR"
      case MemoryRepositoryError(_, _) => "PERSISTENCE_ERROR"
      case AdapterError(_, _) => "ADAPTER_ERROR"
    }
  }

  /** `InfrastructureException(message)` with the default error code. */
  function NewInfrastructureException(message: string): (e: InfrastructureException)
    ensures e.Message() == message && e.ErrorCode() == InfrastructureErrorCode
  {
    InfrastructureError(message, InfrastructureErrorCode)
  }

  /**
   * A memory-repository error is a persistence error whose detail is the
   * operation-tagged text: same message, same code.
   */
  lemma MemoryErrorIsPersistenceError(detail: string, operation: string)
    ensures MemoryRepositoryError(detail, operation).Message()
         == PersistenceError("Memory repository operation '" + operation + "' failed: " + detail).Message()
    ensures MemoryRepositoryError(detail, operation).ErrorCode() == PersistenceError(detail).ErrorCode()
  {
  }

  /**
   * Whatever the detail says also appears, unchanged, at the end of the full
   * message; so a "not found" in the detail survives into the message that
   * the repository adapter inspects.
   */
  lemma {:induction false} MemoryErrorKeepsDetail(detail: string, operation: string, p: string)
    requires Contains(Lower(detail), p)
    ensures Contains(Lower(MemoryRepositoryError(detail, operation).Message()), p)
  {
    var head := PersistencePrefix + "Memory repository operation '" + operation + "' failed: ";
    assert MemoryRepositoryError(detail, operation).Message() == head + detail;
    LowerAppend(head, detail);
    ContainsSuffix(Lower(head), Lower(detail), p);
  }
}
