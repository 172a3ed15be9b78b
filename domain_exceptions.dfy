/** The domain layer's error taxonomy: one alternative per exception class. */
module DomainExceptions {
  import opened Text

  const DomainErrorCode := "DOMAIN_ERROR"
  const NotFoundPrefix := "Conversation not found: "

  datatype DomainException =
    /** The base class, built with its message and an error code (by default `DomainErrorCode`). */
    | DomainError(msg: string, code: string)
    | ConversationNotFound(conversationId: string)
    | InvalidMessage(detail: string)
    | ConversationLimitExceeded(limit: int)
    | DebateGenerationFailed(detail: string)
  {
    /** The `message` attribute, which is also `str(e)`. */
    function Message(): string {
      match this
      case DomainError(m, _) => m
      case ConversationNotFound(id) => NotFoundPrefix + id
      case InvalidMessage(d) => "Invalid message: " + d
      case ConversationLimitExceeded(n) => "Conversation limit exceeded: " + IntToString(n) + " messages"
      case DebateGenerationFailed(d) => "Debate generation failed: " + d
    }

    /** The `error_code` attribute. */
    function ErrorCode(): string {
      match this
      case DomainError(_, c) => c
      case ConversationNotFound(_) => "CONVERSATION_NOT_FOUND"
      case InvalidMessage(_) => "INVALID_MESSAGE"
      case ConversationLimitExceeded(_) => "CONVERSATION_LIMIT_EXCEEDED"
      case DebateGenerationFailed(_) => "DEBATE_GENERATION_FAILED"
    }
  }

  /** `DomainException(message)` with the default error code. */
  function NewDomainException(message: string): (e: DomainException)
    ensures e.Message() == message && e.ErrorCode() == DomainErrorCode
  {
    DomainError(message, DomainErrorCode)
  }

  /** The not-found message names the id after a fixed prefix, so the id can be read back from it. */
  lemma NotFoundMessageNamesId(id: string)
    ensures var m := ConversationNotFound(id).Message();
      StartsWith(m, NotFoundPrefix) && m[|NotFoundPrefix|..] == id
  {
  }

  /** The not-found message says "not found" in any letter case, whatever the id. */
  lemma NotFoundMessageSaysNotFound(id: string)
    ensures Contains(Lower(ConversationNotFound(id).Message()), "not found")
  {
    var tail := ": " + id;
    assert ConversationNotFound(id).Message() == "Conversation " + "not found" + tail;
    var low := Lower("not found");
    assert low == "not found" by {
      forall k | 0 <= k < 9
        ensures low[k] == "not found"[k]
      {
      }
    }
    LowerAppend("Conversation " + "not found", tail);
    LowerAppend("Conversation ", "not found");
    ContainsInMiddle(Lower("Conversation "), "not found", Lower(tail));
  }

  /** The limit message carries the limit, which can be read back from its digits. */
  lemma LimitMessageCarriesLimit(limit: nat)
    ensures var m := ConversationLimitExceeded(limit).Message();
      var p := "Conversation limit exceeded: ";
      var digits := m[|p|..|m| - |" messages"|];
      (forall i :: 0 <= i < |digits| ==> '0' <= digits[i] <= '9') && ParseDigits(digits) == limit
  {
    var p := "Conversation limit exceeded: ";
    var m := ConversationLimitExceeded(limit).Message();
    assert m[|p|..|m| - |" messages"|] == NatToString(limit);
    NatToStringRoundTrip(limit);
  }
}
