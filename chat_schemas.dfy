/**
 * The request and response schemas of the chat API: the field validators of
 * `MessageSchema`, `ChatRequest` and `ChatResponse`, each returning the
 * cleaned value or the message of the `ValueError` it raises, and the length
 * bounds pydantic checks on `ChatRequest.message` before its validator runs.
 * A model is built when every field passes; otherwise its errors are listed
 * in field order.
 */
module ChatSchemas {
  import opened Wrappers
  import opened Text
  import opened Messages
  import opened ConversationIds
  import opened Conversations
  import opened DebateTurns

  const RoleError := "Role must be 'user' or 'bot'"
  const EmptySchemaMessage := "Message cannot be empty"
  const ShortRequestMessage := "Message too short (minimum 5 characters)"
  const EmptyIdError := "Conversation ID cannot be empty string"
  const IdFormatError := "Conversation ID must be a valid UUID format"
  const TooManyMessagesError := "Too many messages in response"
  /** pydantic's own messages for the `min_length=1` and `max_length=2000` bounds. */
  const RawTooShortError := "String should have at least 1 character"
  const RawTooLongError := "String should have at most 2000 characters"

  const MinRequestLength := 1
  const MaxRequestLength := 2000
  const MinCleanedLength := 5
  const UuidLength := 36
  const UuidDashes := 4
  const MaxResponseMessages := 10

  /** The errors of two fields, in field order. */
  function FieldErrors<A, B>(a: Result<A, string>, b: Result<B, string>): (errors: seq<string>)
    ensures errors == [] <==> a.Success? && b.Success?
    ensures |errors| <= 2
  {
    (if a.Failure? then [a.error] else []) + (if b.Failure? then [b.error] else [])
  }

  // ---------------------------------------------------------------------------
  // MessageSchema

  /** `MessageSchema.validate_role`: the value itself when it is "user" or "bot". */
  function ValidateRole(v: string): (r: Result<string, string>)
    ensures r.Success? ==> r.value == v
    ensures r.Failure? ==> r.error == RoleError
  {
    if v == "user" || v == "bot" then Success(v) else Failure(RoleError)
  }

  /** The schema accepts exactly the wire values of the domain's roles. */
  lemma RoleSchemaMatchesRoles(v: string)
    ensures ValidateRole(v).Success? <==> RoleFromValue(v).Some?
    ensures ValidateRole(v).Success? <==> exists role: MessageRole :: role.Value() == v
  {
    if ValidateRole(v).Success? {
      assert RoleFromValue(v).value.Value() == v;
    }
  }

  /** `MessageSchema.validate_message`: a non-blank message, stripped. */
  function ValidateSchemaMessage(v: string): (r: Result<string, string>)
    ensures r.Success? <==> !IsBlank(v)
    ensures r.Success? ==> r.value == Strip(v)
    ensures r.Failure? ==> r.error == EmptySchemaMessage
  {
    if v == [] || IsBlank(v) then Failure(EmptySchemaMessage) else Success(Strip(v))
  }

  /** What the message validator returns is non-empty, and validating it again changes nothing. */
  lemma SchemaMessageIsClean(v: string)
    requires ValidateSchemaMessage(v).Success?
    ensures var m := ValidateSchemaMessage(v).value;
      && m != [] && !IsSpace(m[0]) && !IsSpace(m[|m| - 1]) && ValidateSchemaMessage(m) == Success(m)
  {
    StripIsSlice(v);
    StripIdempotent(v);
  }

  datatype MessageSchema = MessageSchema(role: string, message: string)

  /** `MessageSchema(role=..., message=...)`. */
  function NewMessageSchema(role: string, message: string): (r: Result<MessageSchema, seq<string>>)
    ensures r.Success? <==> ValidateRole(role).Success? && ValidateSchemaMessage(message).Success?
    ensures r.Success? ==> r.value == MessageSchema(role, ValidateSchemaMessage(message).value)
    ensures r.Failure? ==> r.error == FieldErrors(ValidateRole(role), ValidateSchemaMessage(message))
  {
    var vr, vm := ValidateRole(role), ValidateSchemaMessage(message);
    if vr.Success? && vm.Success? then Success(MessageSchema(vr.value, vm.value))
    else Failure(FieldErrors(vr, vm))
  }

  /** A stored message, in wire form, passes the schema unchanged. */
  lemma StoredMessagePassesSchema(m: Message)
    requires m.Valid()
    ensures NewMessageSchema(m.ToDict()["role"], m.ToDict()["message"]) == Success(MessageSchema(m.role.Value(), m.content))
  {
    ValidContentIsStripped(m.content);
  }

  // ---------------------------------------------------------------------------
  // ChatRequest

  /**
   * `ChatRequest.message`: the raw length bounds first, then
   * `validate_message_content` (non-blank, at least 5 characters once
   * stripped), which returns the stripped message.
   */
  function ValidateRequestMessage(v: string): (r: Result<string, string>)
    ensures r.Success? <==> MinRequestLength <= |v| <= MaxRequestLength && !IsBlank(v) && |Strip(v)| >= MinCleanedLength
    ensures r.Success? ==> r.value == Strip(v)
    ensures |v| < MinRequestLength ==> r == Failure(RawTooShortError)
    ensures |v| > MaxRequestLength ==> r == Failure(RawTooLongError)
    ensures MinRequestLength <= |v| <= MaxRequestLength && IsBlank(v) ==> r == Failure(EmptySchemaMessage)
    ensures MinRequestLength <= |v| <= MaxRequestLength && !IsBlank(v) && |Strip(v)| < MinCleanedLength ==>
      r == Failure(ShortRequestMessage)
  {
    if |v| < MinRequestLength then Failure(RawTooShortError)
    else if |v| > MaxRequestLength then Failure(RawTooLongError)
    else if IsBlank(v) then Failure(EmptySchemaMessage)
    else if |Strip(v)| < MinCleanedLength then Failure(ShortRequestMessage)
    else Success(Strip(v))
  }

  /**
   * A message the request schema accepts also passes the use cases' own
   * message checks, both raw and as the schema hands it on.
   */
  lemma AcceptedRequestPassesUseCase(v: string)
    requires ValidateRequestMessage(v).Success?
    ensures MessageProblem(v).None?
    ensures MessageProblem(ValidateRequestMessage(v).value).None?
  {
    StripIsSlice(v);
    MessageCheckIgnoresPadding(v);
  }

  /**
   * The schema is stricter than the use cases: it counts the raw length, so
   * padding that takes a message past 2000 characters is refused even when
   * the stripped message is short enough for the use cases.
   */
  lemma PaddingCountsAgainstRequest(v: string)
    requires MessageProblem(v).None? && |v| > MaxRequestLength
    ensures ValidateRequestMessage(v) == Failure(RawTooLongError)
  {
  }

  /** The boundaries of the raw bounds: 2000 characters pass the bound, 2001 do not, and the empty message fails first. */
  lemma RequestLengthBoundaries(v: string)
    ensures |v| == 0 ==> ValidateRequestMessage(v) == Failure(RawTooShortError)
    ensures |v| == MaxRequestLength + 1 ==> ValidateRequestMessage(v) == Failure(RawTooLongError)
    ensures |v| == MaxRequestLength && !IsSpace(v[0]) && !IsSpace(v[|v| - 1]) ==> ValidateRequestMessage(v) == Success(v)
  {
    if |v| == MaxRequestLength && !IsSpace(v[0]) && !IsSpace(v[|v| - 1]) {
      StripUnpadded(v);
    }
  }

  /**
   * `ChatRequest.validate_conversation_id`: `None` passes; a blank id fails;
   * otherwise the stripped id must have 36 characters, four of them dashes,
   * and is returned stripped. Nothing checks the digits or where the dashes are.
   */
  function ValidateConversationId(v: Option<string>): (r: Result<Option<string>, string>)
    ensures v.None? ==> r == Success(None)
    ensures v.Some? ==>
      (r.Success? <==> !IsBlank(v.value) && |Strip(v.value)| == UuidLength && CountChar(Strip(v.value), '-') == UuidDashes)
    ensures v.Some? && r.Success? ==> r.value == Some(Strip(v.value))
    ensures v.Some? && IsBlank(v.value) ==> r == Failure(EmptyIdError)
    ensures v.Some? && !IsBlank(v.value) && r.Failure? ==> r.error == IdFormatError
  {
    match v
    case None => Success(None)
    case Some(s) =>
      if IsBlank(s) then Failure(EmptyIdError)
      else if |Strip(s)| != UuidLength || CountChar(Strip(s), '-') != UuidDashes then Failure(IdFormatError)
      else Success(Some(Strip(s)))
  }

  /** Every id the system generates passes the request schema unchanged. */
  lemma GeneratedIdPassesSchema(random: string)
    requires |random| == 32 && IsLowerHex(random)
    ensures ValidateConversationId(Some(Generate(random).Str())) == Success(Some(Generate(random).Str()))
  {
    var s := Generate(random).Str();
    DashedHexPart(Uuid4Hex(random));
    assert !IsSpace(s[0]) && !IsSpace(s[|s| - 1]);
    StripUnpadded(s);
  }

  /**
   * The id check looks at the shape only: any 36 characters without padding,
   * four of them dashes, pass unchanged, whatever the other characters are.
   */
  lemma IdCheckIsShapeOnly(s: string)
    requires |s| == UuidLength && !IsSpace(s[0]) && !IsSpace(s[|s| - 1]) && CountChar(s, '-') == UuidDashes
    ensures ValidateConversationId(Some(s)) == Success(Some(s))
  {
    StripUnpadded(s);
  }

  datatype ChatRequest = ChatRequest(conversationId: Option<string>, message: string)

  /** `ChatRequest(conversation_id=..., message=...)`. */
  function NewChatRequest(conversationId: Option<string>, message: string): (r: Result<ChatRequest, seq<string>>)
    ensures r.Success? <==> ValidateConversationId(conversationId).Success? && ValidateRequestMessage(message).Success?
    ensures r.Success? ==> r.value == ChatRequest(ValidateConversationId(conversationId).value, Strip(message))
    ensures r.Failure? ==> r.error == FieldErrors(ValidateConversationId(conversationId), ValidateRequestMessage(message))
  {
    var vi, vm := ValidateConversationId(conversationId), ValidateRequestMessage(message);
    if vi.Success? && vm.Success? then Success(ChatRequest(vi.value, vm.value))
    else Failure(FieldErrors(vi, vm))
  }

  // ---------------------------------------------------------------------------
  // ChatResponse

  /** `ChatResponse.validate_messages_count`: at most ten messages, returned as they are. */
  function ValidateMessagesCount<T>(v: seq<T>): (r: Result<seq<T>, string>)
    ensures r.Success? <==> |v| <= MaxResponseMessages
    ensures r.Success? ==> r.value == v
    ensures r.Failure? ==> r.error == TooManyMessagesError
  {
    if |v| > MaxResponseMessages then Failure(TooManyMessagesError) else Success(v)
  }

  datatype ChatResponse = ChatResponse(conversationId: string, message: seq<MessageSchema>)

  /** `ChatResponse(conversation_id=..., message=...)`. */
  function NewChatResponse(conversationId: string, messages: seq<MessageSchema>): (r: Result<ChatResponse, seq<string>>)
    ensures r.Success? <==> ValidateMessagesCount(messages).Success?
    ensures r.Success? ==> r.value == ChatResponse(conversationId, messages)
    ensures r.Failure? ==> r.error == [TooManyMessagesError]
  {
    match ValidateMessagesCount(messages)
    case Success(m) => Success(ChatResponse(conversationId, m))
    case Failure(e) => Failure([e])
  }

  /**
   * The wire messages of a conversation with the default history size form a
   * valid response: at most ten of them (five exchanges), each a valid
   * `MessageSchema` as it stands.
   */
  lemma ConversationResponseIsValid(c: Conversation)
    requires c.Valid() && c.maxHistory == DefaultMaxHistory
    ensures var api := c.MessagesForApi();
      && ValidateMessagesCount(api).Success?
      && forall i :: 0 <= i < |api| ==> NewMessageSchema(api[i]["role"], api[i]["message"]) == Success(MessageSchema(api[i]["role"], api[i]["message"]))
  {
    var api := c.MessagesForApi();
    forall i | 0 <= i < |api|
      ensures NewMessageSchema(api[i]["role"], api[i]["message"]) == Success(MessageSchema(api[i]["role"], api[i]["message"]))
    {
      StoredMessagePassesSchema(c.messages[i]);
    }
  }

  /** With a larger history size the response check does fail, once more than ten messages are kept. */
  lemma LongHistoryOverflowsResponse(c: Conversation)
    requires c.Valid() && |c.messages| > MaxResponseMessages
    ensures ValidateMessagesCount(c.MessagesForApi()) == Failure(TooManyMessagesError)
  {
  }
}
