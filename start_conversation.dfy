/**
 * Starting a debate: validate the request, create a conversation under a
 * fresh id, play one turn on it and save it. Validation errors pass through;
 * any other failure is reported as this use case's failure.
 */
module StartConversation {
  import opened Wrappers
  import opened Text
  import opened Errors
  import opened ApplicationExceptions
  import opened InfrastructureExceptions
  import opened Messages
  import opened ConversationIds
  import opened Conversations
  import opened DebateStrategy
  import opened DebateOrchestrator
  import opened DebateTurns
  import opened MemoryStore
  import opened MemoryConversationRepositories

  const UseCaseName := "StartConversation"
  const FailurePrefix := "Failed to start conversation: "

  /** `StartConversationRequest`; the timestamp is a clock reading, if the caller gave one. */
  datatype StartRequest = StartRequest(message: string, preferred: Option<PersonalityType>, timestamp: Option<int>)

  /** `StartConversationResponse`: the id and the messages in wire form. */
  datatype StartResponse = StartResponse(conversationId: string, messages: seq<map<string, string>>)

  /** The `except` clauses of `execute`: a validation error passes, anything else is wrapped. */
  function StartFailure(e: Error): (r: Error)
    ensures e.Application? && e.application.ValidationError? ==> r == e
    ensures !(e.Application? && e.application.ValidationError?) ==>
      r == Application(UseCaseError(FailurePrefix + e.Str(), UseCaseName))
  {
    if e.Application? && e.application.ValidationError? then e
    else Application(UseCaseError(FailurePrefix + e.Str(), UseCaseName))
  }

  /**
   * `_validate_request` as written: after the message checks, a given persona
   * makes it ask the orchestrator for `get_available_personalities`, which
   * `DebateOrchestrator` does not define, so Python raises `AttributeError`.
   */
  function ValidateAsWritten(req: StartRequest): (r: Result<(), Error>)
    ensures r.Success? <==> MessageProblem(req.message).None? && req.preferred.None?
    ensures MessageProblem(req.message).Some? ==> r == Failure(Application(ValidationError(MessageProblem(req.message).value)))
    ensures MessageProblem(req.message).None? && req.preferred.Some? ==> r == Failure(AttributeError(OrchestratorClass, AvailabilityQuery))
  {
    match MessageProblem(req.message)
    case Some(problem) => Failure(Application(ValidationError(problem)))
    case None =>
      if req.preferred.Some? then Failure(AttributeError(OrchestratorClass, AvailabilityQuery))
      else Success(())
  }

  /**
   * A valid message with any persona at all ends the use case with a
   * `UseCaseException` naming the missing attribute, before anything is created.
   */
  lemma PreferredPersonaFailsAsWritten(req: StartRequest)
    requires MessageProblem(req.message).None? && req.preferred.Some?
    ensures ValidateAsWritten(req).Failure?
    ensures StartFailure(ValidateAsWritten(req).error)
         == Application(UseCaseError(FailurePrefix + AttributeError(OrchestratorClass, AvailabilityQuery).Str(), UseCaseName))
  {
  }

  /**
   * `_validate_request` as intended: the message checks, then membership of
   * the persona among the available ones, which every persona passes.
   */
  function Validate(req: StartRequest): (r: Result<(), Error>)
    ensures r.Success? <==> MessageProblem(req.message).None?
    ensures r.Failure? ==> r.error == Application(ValidationError(MessageProblem(req.message).value))
  {
    match MessageProblem(req.message)
    case Some(problem) => Failure(Application(ValidationError(problem)))
    case None =>
      PersonalitiesListed(req.preferred.GetOr(ConspiracyTheorist));
      Success(())
  }

  /** With the intended check, a persona never makes a valid request fail, and a message problem always does. */
  lemma PersonaNeverRejected(req: StartRequest, p: PersonalityType)
    ensures Validate(req) == Validate(StartRequest(req.message, Some(p), req.timestamp))
    ensures Validate(req).Failure? ==> StartFailure(Validate(req).error) == Validate(req).error
  {
  }

  /** `_create_new_conversation`: a new, empty conversation under the id drawn from `random`, created at the given time or now. */
  method CreateNewConversation(random: string, timestamp: Option<int>, now: int) returns (c: Conversation)
    requires |random| == 32 && IsLowerHex(random)
    ensures fresh(c) && c.Valid() && c.IsNew()
    ensures c.id == Generate(random) && c.createdAt == timestamp.GetOr(now) && c.maxHistory == DefaultMaxHistory
    ensures c.topic.None? && c.botPosition.None? && c.botPersonalityType.None?
  {
    var created := New(Generate(random), timestamp.GetOr(now), DefaultMaxHistory);
    c := created.value;
  }

  /** The user's message of the first turn, as stored. */
  function FirstUserMessage(req: StartRequest, now: int): Message {
    Message(User, Strip(req.message), req.timestamp.GetOr(now), None)
  }

  /** The reply of the first turn: there is no stored persona yet. */
  function FirstReply(req: StartRequest, now: int, fallback: PersonalityType, pick: nat): Reply
    requires pick < 3
  {
    BotReply(None, Some(FirstUserMessage(req, now)), PreferredTag(req.preferred), fallback, pick)
  }

  /**
   * The state the first turn leaves when `reply` answers it: exactly the
   * user's message and the bot's answer, the topic of the message and its
   * contrarian position, and the persona that answered.
   */
  function FirstState(req: StartRequest, now: int, reply: Reply): State {
    var topic := IdentifyTopic(req.message);
    State([FirstUserMessage(req, now), Message(Bot, ReplyText(reply), now, None)],
          Some(topic), Some(ContrarianPosition(topic)), Some(reply.persona.Tag()), DefaultMaxHistory)
  }

  /** A conversation as the first turn leaves it, under the drawn id. */
  predicate IsFirstTurn(c: Conversation, req: StartRequest, random: string, now: int, reply: Reply)
    requires |random| == 32 && IsLowerHex(random)
    reads c
  {
    && c.Valid()
    && c.id == Generate(random) && c.createdAt == req.timestamp.GetOr(now)
    && StateOf(c) == FirstState(req, now, reply)
  }

  /** After the first turn the response lists the user's message, then the bot's, in wire form. */
  lemma FirstTurnResponse(c: Conversation, req: StartRequest, random: string, now: int, reply: Reply)
    requires |random| == 32 && IsLowerHex(random)
    requires IsFirstTurn(c, req, random, now, reply)
    ensures var api := c.MessagesForApi();
      && |api| == 2 && api[0] == FirstUserMessage(req, now).ToDict()
      && api[1] == Message(Bot, ReplyText(reply), now, None).ToDict()
  {
  }

  /** The new conversation after its first turn, and the orchestrator's reply in it. */
  method FirstTurn(req: StartRequest, random: string, now: int, fallback: PersonalityType, pick: nat)
    returns (c: Conversation, ghost reply: Reply)
    requires Validate(req).Success? && pick < 3
    requires |random| == 32 && IsLowerHex(random)
    ensures reply == FirstReply(req, now, fallback, pick)
    ensures fresh(c) && IsFirstTurn(c, req, random, now, reply)
  {
    c := CreateNewConversation(random, req.timestamp, now);
    var ts := req.timestamp.GetOr(now);
    CheckedMessageIsAccepted(req.message, ts);
    var turn := Turn(c, req.message, ts, now, PreferredTag(req.preferred), fallback, pick);
    reply := turn.value;
  }

  /**
   * `save` of the conversation the first turn left, then the response built
   * from it; saving leaves the conversation itself as it was.
   */
  method SaveStarted(repo: MemoryConversationRepository, c: Conversation, saveFault: Option<string>,
                     ghost req: StartRequest, ghost random: string, ghost now: int, ghost reply: Reply)
    returns (r: Result<StartResponse, Error>)
    requires repo.Valid() && |random| == 32 && IsLowerHex(random)
    requires IsFirstTurn(c, req, random, now, reply)
    modifies repo.store
    ensures repo.Valid() && IsFirstTurn(c, req, random, now, reply)
    ensures r.Success? <==> saveFault.None?
    ensures saveFault.Some? ==> r == Failure(StartFailure(Wrapped(SaveFailed, MemoryRepositoryError(StoreFailed + saveFault.value, "store"))))
    ensures r.Failure? ==> repo.store.conversations == old(repo.store.conversations)
    ensures r.Success? ==> repo.store.conversations == old(repo.store.conversations)[c.id.Str() := c]
    ensures r.Success? ==> r.value == StartResponse(c.id.Str(), c.MessagesForApi())
  {
    var s := repo.Save(c, saveFault);
    if s.Failure? {
      return Failure(StartFailure(s.error));
    }
    return Success(StartResponse(c.id.Str(), c.MessagesForApi()));
  }

  /**
   * What follows validation: the first turn on a new conversation `c`, then
   * `save`; `reply` is the orchestrator's answer in that turn.
   */
  method Run(repo: MemoryConversationRepository, req: StartRequest, random: string, now: int,
             fallback: PersonalityType, pick: nat, saveFault: Option<string>)
    returns (r: Result<StartResponse, Error>, ghost c: Conversation, ghost reply: Reply)
    requires repo.Valid() && pick < 3 && Validate(req).Success?
    requires |random| == 32 && IsLowerHex(random)
    modifies repo.store
    ensures repo.Valid()
    ensures r.Success? <==> saveFault.None?
    ensures saveFault.Some? ==> r == Failure(StartFailure(Wrapped(SaveFailed, MemoryRepositoryError(StoreFailed + saveFault.value, "store"))))
    ensures r.Failure? ==> repo.store.conversations == old(repo.store.conversations)
    ensures reply == FirstReply(req, now, fallback, pick)
    ensures fresh(c) && IsFirstTurn(c, req, random, now, reply)
    ensures r.Success? ==>
      && repo.store.conversations == old(repo.store.conversations)[Generate(random).Str() := c]
      && r.value == StartResponse(Generate(random).Str(), c.MessagesForApi())
  {
    var started;
    started, reply := FirstTurn(req, random, now, fallback, pick);
    r := SaveStarted(repo, started, saveFault, req, random, now, reply);
    c := started;
  }

  /**
   * `execute`. `random` is the 32 hex digits `uuid4` draws, `now` the clock,
   * `fallback` and `pick` the orchestrator's and the persona's random choices,
   * `saveFault` a failure of the store during `save`. A request that fails
   * validation creates nothing and leaves the store as it was; otherwise only
   * the new entry is added, and only when `save` succeeds.
   */
  method Execute(repo: MemoryConversationRepository, req: StartRequest, random: string, now: int,
                 fallback: PersonalityType, pick: nat, saveFault: Option<string>) returns (r: Result<StartResponse, Error>, ghost c: Conversation?, ghost reply: Reply)
    requires repo.Valid() && pick < 3
    requires |random| == 32 && IsLowerHex(random)
    modifies repo.store
    ensures repo.Valid()
    ensures r.Success? <==> Validate(req).Success? && saveFault.None?
    ensures Validate(req).Failure? ==> r == Failure(Validate(req).error)
    ensures Validate(req).Success? && saveFault.Some? ==>
      r == Failure(StartFailure(Wrapped(SaveFailed, MemoryRepositoryError(StoreFailed + saveFault.value, "store"))))
    ensures r.Failure? ==> repo.store.conversations == old(repo.store.conversations)
    ensures Validate(req).Success? ==>
      && reply == FirstReply(req, now, fallback, pick)
      && c != null && fresh(c) && IsFirstTurn(c, req, random, now, reply)
    ensures r.Success? ==>
      && c != null
      && repo.store.conversations == old(repo.store.conversations)[Generate(random).Str() := c]
      && r.value == StartResponse(Generate(random).Str(), c.MessagesForApi())
  {
    var v := Validate(req);
    if v.Failure? {
      return Failure(StartFailure(v.error)), null, Template(ConspiracyTheorist, 0, "");
    }
    r, c, reply := Run(repo, req, random, now, fallback, pick, saveFault);
  }

  /**
   * `execute` as the program runs it, with `_validate_request` as written: a
   * request naming a persona fails with a `UseCaseException` and creates
   * nothing; any other request is served as `Execute` serves it.
   */
  method ExecuteAsWritten(repo: MemoryConversationRepository, req: StartRequest, random: string, now: int,
                          fallback: PersonalityType, pick: nat, saveFault: Option<string>)
    returns (r: Result<StartResponse, Error>, ghost c: Conversation?, ghost reply: Reply)
    requires repo.Valid() && pick < 3
    requires |random| == 32 && IsLowerHex(random)
    modifies repo.store
    ensures repo.Valid()
    ensures r.Success? <==> ValidateAsWritten(req).Success? && saveFault.None?
    ensures ValidateAsWritten(req).Failure? ==>
      r == Failure(StartFailure(ValidateAsWritten(req).error)) && repo.store.conversations == old(repo.store.conversations)
    ensures ValidateAsWritten(req).Success? && saveFault.Some? ==>
      r == Failure(StartFailure(Wrapped(SaveFailed, MemoryRepositoryError(StoreFailed + saveFault.value, "store"))))
    ensures r.Failure? ==> repo.store.conversations == old(repo.store.conversations)
    ensures ValidateAsWritten(req).Success? ==>
      && reply == FirstReply(req, now, fallback, pick)
      && c != null && fresh(c) && IsFirstTurn(c, req, random, now, reply)
    ensures r.Success? ==>
      && c != null
      && repo.store.conversations == old(repo.store.conversations)[Generate(random).Str() := c]
      && r.value == StartResponse(Generate(random).Str(), c.MessagesForApi())
  {
    var v := ValidateAsWritten(req);
    if v.Failure? {
      return Failure(StartFailure(v.error)), null, Template(ConspiracyTheorist, 0, "");
    }
    r, c, reply := Execute(repo, req, random, now, fallback, pick, saveFault);
  }
}
