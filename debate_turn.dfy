/**
 * What the two use cases share: the validation of the user's message, and one
 * turn of the debate on a conversation (user message, persona, bot message).
 */
module DebateTurns {
  import opened Wrappers
  import opened Text
  import opened Errors
  import opened Messages
  import opened Conversations
  import opened DebateStrategy
  import opened DebateOrchestrator

  const MinMessageLength := 5
  const EmptyMessage := "Message cannot be empty"
  const LongMessage := "Message too long (max 2000 characters)"
  const ShortMessage := "Message too short (min 5 characters)"

  /**
   * The persona check of `_validate_request` asks the orchestrator for this
   * method, which `DebateOrchestrator` does not define.
   */
  const OrchestratorClass := "DebateOrchestrator"
  const AvailabilityQuery := "get_available_personalities"

  /**
   * The message checks of `_validate_request`, in their order: blank, then
   * longer than 2000 once stripped, then shorter than 5 once stripped.
   */
  function MessageProblem(message: string): (r: Option<string>)
    ensures r.None? <==> !IsBlank(message) && MinMessageLength <= |Strip(message)| <= MaxContentLength
    ensures r == Some(EmptyMessage) <==> IsBlank(message)
    ensures r == Some(LongMessage) <==> !IsBlank(message) && |Strip(message)| > MaxContentLength
    ensures r == Some(ShortMessage) <==> !IsBlank(message) && |Strip(message)| < MinMessageLength
  {
    if message == [] || IsBlank(message) then Some(EmptyMessage)
    else if |Strip(message)| > MaxContentLength then Some(LongMessage)
    else if |Strip(message)| < MinMessageLength then Some(ShortMessage)
    else None
  }

  /** A message that passes validation is accepted by `Message` itself, stripped. */
  lemma CheckedMessageIsAccepted(message: string, timestamp: int)
    requires MessageProblem(message).None?
    ensures NewMessage(User, message, timestamp, None) == Success(Message(User, Strip(message), timestamp, None))
  {
  }

  /** 5 and 2000 characters pass, 4 and 2001 do not, counted after stripping. */
  lemma MessageBoundaries(message: string)
    requires !IsBlank(message)
    ensures |Strip(message)| == 4 ==> MessageProblem(message) == Some(ShortMessage)
    ensures |Strip(message)| == 5 ==> MessageProblem(message).None?
    ensures |Strip(message)| == 2000 ==> MessageProblem(message).None?
    ensures |Strip(message)| == 2001 ==> MessageProblem(message) == Some(LongMessage)
  {
  }

  /** Validation sees through padding: a message and its stripped form get the same verdict. */
  lemma MessageCheckIgnoresPadding(message: string)
    ensures MessageProblem(message) == MessageProblem(Strip(message))
  {
    StripIdempotent(message);
  }

  /**
   * The request's persona as the orchestrator receives it: `PersonalityType(member)`
   * is the member itself, so passing its tag resolves to the same persona.
   */
  function PreferredTag(preferred: Option<PersonalityType>): (r: Option<string>)
    ensures r.None? <==> preferred.None?
    ensures r.Some? ==> r.value != "" && ParsePersonality(r.value) == preferred
  {
    match preferred
    case None => None
    case Some(p) => TagRoundTrip(p, p.Tag()); Some(p.Tag())
  }

  /** What a conversation holds that a turn can change, and the history size that bounds it. */
  datatype State = State(messages: seq<Message>, topic: Option<string>, botPosition: Option<string>,
                         botPersonalityType: Option<string>, maxHistory: int)

  function StateOf(c: Conversation): State
    reads c
  {
    State(c.messages, c.topic, c.botPosition, c.botPersonalityType, c.maxHistory)
  }

  /**
   * One turn on a conversation: the user message is appended (topic and
   * position fixed if it is the first), the orchestrator answers and may
   * record its persona, and the answer is appended as a bot message. A user
   * message `Message` rejects changes nothing.
   */
  method Turn(c: Conversation, content: string, timestamp: int, now: int, preferred: Option<string>,
              fallback: PersonalityType, pick: nat) returns (r: Result<Reply, Error>)
    requires c.Valid() && pick < 3
    modifies c
    ensures c.Valid()
    ensures r.Failure? <==> NewMessage(User, content, timestamp, None).Failure?
    ensures r.Failure? ==> r.error == NewMessage(User, content, timestamp, None).error
    ensures r.Failure? ==> c.messages == old(c.messages) && c.topic == old(c.topic) && c.botPosition == old(c.botPosition)
    ensures r.Failure? ==> c.botPersonalityType == old(c.botPersonalityType)
    ensures r.Success? ==>
      var user := NewMessage(User, content, timestamp, None).value;
      && r.value == BotReply(old(c.botPersonalityType), Some(user), preferred, fallback, pick)
      && c.messages == Cap(old(c.messages) + [user, Message(Bot, ReplyText(r.value), now, None)], 2 * c.maxHistory)
      && c.botPersonalityType == KeptTag(old(c.botPersonalityType), r.value.persona)
    ensures r.Success? && |old(c.messages)| == 0 ==> c.topic == Some(IdentifyTopic(content))
    ensures r.Success? && |old(c.messages)| == 0 ==> c.botPosition == Some(ContrarianPosition(IdentifyTopic(content)))
    ensures r.Success? && |old(c.messages)| > 0 ==> c.topic == old(c.topic) && c.botPosition == old(c.botPosition)
  {
    var user := c.AddUserMessage(content, timestamp);
    if user.Failure? {
      return Failure(user.error);
    }
    var reply := GenerateBotResponse(c, Some(user.value), preferred, fallback, pick);
    ReplyIsValidContent(old(c.botPersonalityType), Some(user.value), preferred, fallback, pick);
    ValidContentIsStripped(ReplyText(reply));
    var bot := c.AddBotMessage(ReplyText(reply), now);
    CapTwice(old(c.messages), user.value, bot.value, 2 * c.maxHistory);
    return Success(reply);
  }

  /** Appending and trimming twice keeps the cap of both appended. */
  lemma CapTwice<T>(s: seq<T>, a: T, b: T, k: nat)
    ensures Cap(Cap(s + [a], k) + [b], k) == Cap(s + [a, b], k)
  {
    CapAppend(s + [a], [b], k);
    assert s + [a] + [b] == s + [a, b];
  }
}
