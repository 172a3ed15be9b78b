/**
 * Continuing a debate: validate the request, look the conversation up, play
 * one turn on the object the store holds (so the store sees the turn at
 * once) and write it back with `update`. Validation errors and a missing
 * conversation pass through; any other failure is this use case's failure.
 */
module ContinueDebate {
  import opened Wrappers
  import opened Text
  import opened Errors
  import opened DomainExceptions
  import opened ApplicationExceptions
  import opened InfrastructureExceptions
  import opened Messages
  import opened ConversationIds
  import opened Conversations
  import opened DebateStrategy
  import opened DebateOrchestrator
  import opened DebateTurns
  import opened MemoryStore
  import opened MemoryConversationRepositories

  const UseCaseName := "ContinueDebate"
  const FailurePrefix := "Failed to continue debate: "
  const EmptyId := "Conversation ID cannot be empty"
  const BadIdPrefix := "Invalid conversation ID format: "

  /** `ContinueDebateRequest`; the timestamp is a clock reading, if the caller gave one. */
  datatype ContinueRequest = ContinueRequest(conversationId: string, message: string,
                                             preferred: Option<PersonalityType>, timestamp: Option<int>)

  /** `ContinueDebateResponse`: the id and the messages in wire form. */
  datatype ContinueResponse = ContinueResponse(conversationId: string, messages: seq<map<string, string>>)

  /** The errors `execute` lets through unchanged: a `ValidationException` or a `ConversationNotFoundException`. */
  predicate PassesThrough(e: Error) {
    || (e.Application? && e.application.ValidationError?)
    || (e.Domain? && e.domain.ConversationNotFound?)
  }

  /** The `except` clauses of `execute`: what passes through is re-raised, anything else is wrapped. */
  function ContinueFailure(e: Error): Error {
    if PassesThrough(e) then e
    else Application(UseCaseError(FailurePrefix + e.Str(), UseCaseName))
  }

  /** How a failing `find_by_id` ends the use case. */
  function FindFailure(fault: string): Error {
    ContinueFailure(Wrapped(FindFailed, MemoryRepositoryError(RetrieveFailed + fault, "retrieve")))
  }

  /** How a failing lookup inside `update` ends the use case. */
  function LookupFailure(fault: string, key: string): Error {
    ContinueFailure(UpdateError(MemoryRepositoryError(RetrieveFailed + fault, "retrieve"), key))
  }

  /** How a failing store `update` ends the use case. */
  function WriteFailure(fault: string, key: string): Error {
    ContinueFailure(UpdateError(MemoryRepositoryError(UpdateFailed + fault, "update"), key))
  }

  /** The use case fails in one of three ways only. */
  lemma ContinueFailureKinds(e: Error)
    ensures var r := ContinueFailure(e);
      || (r.Application? && r.application.ValidationError?)
      || (r.Domain? && r.domain.ConversationNotFound?)
      || (r.Application? && r.application.UseCaseError? && r.application.useCase == UseCaseName)
  {
  }

  /** The conversation id checks of `_validate_request`: blank, then what `from_string` rejects. */
  function IdProblem(id: string): (r: Option<string>)
    ensures r.None? <==> FromString(id).Success?
    ensures IsBlank(id) ==> r == Some(EmptyId)
    ensures !IsBlank(id) && !UuidAccepts(id) ==> r == Some(BadIdPrefix + (InvalidUuidPrefix + id))
  {
    if id == [] || IsBlank(id) then Some(EmptyId)
    else match FromString(id)
      case Failure(e) => Some(BadIdPrefix + e.Str())
      case Success(_) => None
  }

  /**
   * `_validate_request` as written: after the id and message checks, a given
   * persona makes it ask the orchestrator for `get_available_personalities`,
   * which `DebateOrchestrator` does not define, so Python raises `AttributeError`.
   */
  function ValidateAsWritten(req: ContinueRequest): (r: Result<(), Error>)
    ensures r.Success? <==> IdProblem(req.conversationId).None? && MessageProblem(req.message).None? && req.preferred.None?
    ensures IdProblem(req.conversationId).Some? ==>
      r == Failure(Application(ValidationError(IdProblem(req.conversationId).value)))
    ensures IdProblem(req.conversationId).None? && MessageProblem(req.message).Some? ==>
      r == Failure(Application(ValidationError(MessageProblem(req.message).value)))
    ensures IdProblem(req.conversationId).None? && MessageProblem(req.message).None? && req.preferred.Some? ==>
      r == Failure(AttributeError(OrchestratorClass, AvailabilityQuery))
  {
    match IdProblem(req.conversationId)
    case Some(problem) => Failure(Application(ValidationError(problem)))
    case None =>
      match MessageProblem(req.message)
      case Some(problem) => Failure(Application(ValidationError(problem)))
      case None =>
        if req.preferred.Some? then Failure(AttributeError(OrchestratorClass, AvailabilityQuery))
        else Success(())
  }

  /**
   * A valid id and message with any persona at all end the use case with a
   * `UseCaseException` naming the missing attribute, before the lookup.
   */
  lemma PreferredPersonaFailsAsWritten(req: ContinueRequest)
    requires IdProblem(req.conversationId).None? && MessageProblem(req.message).None? && req.preferred.Some?
    ensures ValidateAsWritten(req).Failure?
    ensures ContinueFailure(ValidateAsWritten(req).error)
         == Application(UseCaseError(FailurePrefix + AttributeError(OrchestratorClass, AvailabilityQuery).Str(), UseCaseName))
  {
    var e := AttributeError(OrchestratorClass, AvailabilityQuery);
    assert ValidateAsWritten(req) == Failure(e);
    assert !e.Application?;
  }

  /**
   * `_validate_request` as intended: the id checks, the message checks, then
   * membership of the persona among the available ones, which every persona passes.
   */
  function Validate(req: ContinueRequest): (r: Result<(), Error>)
    ensures r.Success? <==> FromString(req.conversationId).Success? && MessageProblem(req.message).None?
    ensures IdProblem(req.conversationId).Some? ==>
      r == Failure(Application(ValidationError(IdProblem(req.conversationId).value)))
    ensures IdProblem(req.conversationId).None? && MessageProblem(req.message).Some? ==>
      r == Failure(Application(ValidationError(MessageProblem(req.message).value)))
  {
    match IdProblem(req.conversationId)
    case Some(problem) => Failure(Application(ValidationError(problem)))
    case None =>
      match MessageProblem(req.message)
      case Some(problem) => Failure(Application(ValidationError(problem)))
      case None =>
        PersonalitiesListed(req.preferred.GetOr(ConspiracyTheorist));
        Success(())
  }

  /** With the intended check, a persona never decides the verdict. */
  lemma PersonaNeverRejected(req: ContinueRequest, p: PersonalityType)
    ensures Validate(req) == Validate(ContinueRequest(req.conversationId, req.message, Some(p), req.timestamp))
  {
  }

  /** Every failure of the intended check passes through `execute` unchanged. */
  lemma ValidationFailurePassesThrough(req: ContinueRequest)
    requires Validate(req).Failure?
    ensures PassesThrough(Validate(req).error) && ContinueFailure(Validate(req).error) == Validate(req).error
  {
  }

  /** The id is checked before the message: a blank id is reported whatever the message. */
  lemma IdCheckedFirst(req: ContinueRequest)
    requires IsBlank(req.conversationId)
    ensures Validate(req) == Failure(Application(ValidationError(EmptyId)))
    ensures ValidateAsWritten(req) == Validate(req)
  {
  }

  /** The key the store files the conversation under: `from_string` keeps the stripped id. */
  function Key(req: ContinueRequest): string {
    Strip(req.conversationId)
  }

  /** The key the store files the conversation under: `from_string` keeps the stripped id. */
  lemma KeyIsParsedId(req: ContinueRequest)
    requires FromString(req.conversationId).Success?
    ensures Key(req) == FromString(req.conversationId).value.Str()
  {
  }

  // ---------------------------------------------------------------------------
  // One turn on a stored conversation, on values

  /** The user's message of this turn, as stored. */
  function UserMessage(req: ContinueRequest, now: int): Message {
    Message(User, Strip(req.message), req.timestamp.GetOr(now), None)
  }

  /** The reply to this turn, given the persona the conversation had recorded. */
  function TurnReply(tag: Option<string>, req: ContinueRequest, now: int, fallback: PersonalityType, pick: nat): Reply
    requires pick < 3
  {
    BotReply(tag, Some(UserMessage(req, now)), PreferredTag(req.preferred), fallback, pick)
  }

  /** The bot's message carrying a reply. */
  function BotMessage(reply: Reply, now: int): Message {
    Message(Bot, ReplyText(reply), now, None)
  }

  /**
   * The state a turn answered by `reply` leaves: both messages appended and
   * the history trimmed, the persona that answered recorded if none was,
   * topic and position fixed by the message when it is the first and kept otherwise.
   */
  function Played(before: State, req: ContinueRequest, now: int, reply: Reply): State
    requires before.maxHistory >= 1
  {
    var first := |before.messages| == 0;
    State(Cap(before.messages + [UserMessage(req, now), BotMessage(reply, now)], 2 * before.maxHistory),
          if first then Some(IdentifyTopic(req.message)) else before.topic,
          if first then Some(ContrarianPosition(IdentifyTopic(req.message))) else before.botPosition,
          KeptTag(before.botPersonalityType, reply.persona),
          before.maxHistory)
  }

  /** The state one turn leaves, answered as the orchestrator answers it. */
  function NextState(before: State, req: ContinueRequest, now: int, fallback: PersonalityType, pick: nat): State
    requires pick < 3 && before.maxHistory >= 1
  {
    Played(before, req, now, TurnReply(before.botPersonalityType, req, now, fallback, pick))
  }

  /**
   * After a turn the history ends with the user's message and the bot's,
   * after the earlier messages that still fit, and stays within its bound.
   */
  lemma PlayedEndsWithTurn(before: State, req: ContinueRequest, now: int, reply: Reply)
    requires before.maxHistory >= 1
    ensures var after := Played(before, req, now, reply).messages;
      && |after| == (if |before.messages| + 2 <= 2 * before.maxHistory then |before.messages| + 2 else 2 * before.maxHistory)
      && after[|after| - 2] == UserMessage(req, now)
      && after[|after| - 1] == BotMessage(reply, now)
      && after[..|after| - 2] == before.messages[|before.messages| + 2 - |after|..]
  {
    var all := before.messages + [UserMessage(req, now), BotMessage(reply, now)];
    var after := Played(before, req, now, reply).messages;
    assert after == all[|all| - |after|..];
    assert after[|after| - 2] == all[|all| - 2];
    assert after[|after| - 1] == all[|all| - 1];
    assert after[..|after| - 2] == all[|all| - |after|..|all| - 2];
  }

  /** A recorded persona answers every later turn and stays recorded. */
  lemma RecordedPersonaAnswers(before: State, p: PersonalityType, req: ContinueRequest, now: int, fallback: PersonalityType, pick: nat)
    requires pick < 3 && before.maxHistory >= 1
    requires before.botPersonalityType == Some(p.Tag())
    ensures TurnReply(before.botPersonalityType, req, now, fallback, pick).persona == p
    ensures NextState(before, req, now, fallback, pick).botPersonalityType == before.botPersonalityType
  {
    StoredPersonaWins(p, Some(UserMessage(req, now)), PreferredTag(req.preferred), fallback, pick);
  }

  /** The topic of a debate is the one its first message names: later turns never change it. */
  lemma {:induction false} TopicFixedByFirstMessage(start: State, first: ContinueRequest, later: ContinueRequest, now: int, now2: int,
                                                    r1: Reply, r2: Reply)
    requires start.maxHistory >= 1 && |start.messages| == 0
    ensures var s1 := Played(start, first, now, r1);
      && s1.topic == Some(IdentifyTopic(first.message))
      && Played(s1, later, now2, r2).topic == s1.topic
      && Played(s1, later, now2, r2).botPosition == s1.botPosition
  {
    PlayedEndsWithTurn(start, first, now, r1);
  }

  /** `add_user_message`, `generate_bot_response`, `add_bot_message` on a validated request. */
  method PlayTurn(c: Conversation, req: ContinueRequest, now: int, fallback: PersonalityType, pick: nat) returns (reply: Reply)
    requires c.Valid() && pick < 3 && MessageProblem(req.message).None?
    modifies c
    ensures reply == TurnReply(old(c.botPersonalityType), req, now, fallback, pick)
    ensures c.Valid() && StateOf(c) == Played(old(StateOf(c)), req, now, reply)
  {
    var ts := req.timestamp.GetOr(now);
    CheckedMessageIsAccepted(req.message, ts);
    var turn := Turn(c, req.message, ts, now, PreferredTag(req.preferred), fallback, pick);
    reply := turn.value;
  }

  // ---------------------------------------------------------------------------
  // The outcome of the use case, on values

  /** How `update` and the response end a played turn, given the messages the conversation then holds. */
  function Finish(key: string, retrieveFault: Option<string>, updateFault: Option<string>, messages: seq<Message>): Result<ContinueResponse, Error> {
    if retrieveFault.Some? then Failure(LookupFailure(retrieveFault.value, key))
    else if updateFault.Some? then Failure(WriteFailure(updateFault.value, key))
    else Success(ContinueResponse(key, DictsOf(messages)))
  }

  /**
   * What `execute` answers, given the verdict of `_validate_request`, the
   * state of the conversation the lookup finds (`None` when there is none)
   * and the reply its turn gets: the first problem on the way, or the
   * response holding the conversation after the turn.
   */
  function Answer(verdict: Result<(), Error>, req: ContinueRequest, found: Option<State>, now: int, reply: Reply,
                  findFault: Option<string>, retrieveFault: Option<string>, updateFault: Option<string>): (r: Result<ContinueResponse, Error>)
    requires found.Some? ==> found.value.maxHistory >= 1
    ensures r.Success? <==> verdict.Success? && findFault.None? && found.Some? && retrieveFault.None? && updateFault.None?
  {
    if verdict.Failure? then Failure(verdict.error)
    else Looked(req, found.Some?, findFault, retrieveFault, updateFault,
                if found.Some? then Played(found.value, req, now, reply).messages else [])
  }

  /**
   * What follows validation: the lookup's failure, a missing conversation, or
   * `update` of the conversation holding `after` once the turn is played.
   */
  function Looked(req: ContinueRequest, present: bool, findFault: Option<string>, retrieveFault: Option<string>,
                  updateFault: Option<string>, after: seq<Message>): Result<ContinueResponse, Error> {
    if findFault.Some? then Failure(FindFailure(findFault.value))
    else if !present then Failure(Domain(ConversationNotFound(req.conversationId)))
    else Finish(Key(req), retrieveFault, updateFault, after)
  }

  /** The reply the turn on a found state gets from the orchestrator. */
  function ReplyTo(found: Option<State>, req: ContinueRequest, now: int, fallback: PersonalityType, pick: nat): Reply
    requires pick < 3
  {
    TurnReply(if found.Some? then found.value.botPersonalityType else None, req, now, fallback, pick)
  }

  /** Every failure is a validation error, a missing conversation, or this use case's own error. */
  lemma AnswerFailureKinds(req: ContinueRequest, found: Option<State>, now: int, reply: Reply,
                           findFault: Option<string>, retrieveFault: Option<string>, updateFault: Option<string>)
    requires found.Some? ==> found.value.maxHistory >= 1
    ensures var r := Answer(Validate(req), req, found, now, reply, findFault, retrieveFault, updateFault);
      r.Failure? ==>
        || (r.error.Application? && r.error.application.ValidationError?)
        || (r.error.Domain? && r.error.domain.ConversationNotFound?)
        || (r.error.Application? && r.error.application.UseCaseError? && r.error.application.useCase == UseCaseName)
  {
    if Validate(req).Failure? {
      ValidationFailurePassesThrough(req);
    } else if findFault.Some? {
      ContinueFailureKinds(Wrapped(FindFailed, MemoryRepositoryError(RetrieveFailed + findFault.value, "retrieve")));
    } else if found.Some? && retrieveFault.Some? {
      ContinueFailureKinds(UpdateError(MemoryRepositoryError(RetrieveFailed + retrieveFault.value, "retrieve"), Key(req)));
    } else if found.Some? && updateFault.Some? {
      ContinueFailureKinds(UpdateError(MemoryRepositoryError(UpdateFailed + updateFault.value, "update"), Key(req)));
    }
  }

  /** A successful continuation answers with the stripped id and the history, ending with this turn. */
  lemma AnswerShowsTurn(req: ContinueRequest, found: State, now: int, reply: Reply)
    requires found.maxHistory >= 1
    ensures var r := Answer(Success(()), req, Some(found), now, reply, None, None, None);
      && r.Success? && r.value.conversationId == Strip(req.conversationId)
      && |r.value.messages| >= 2
      && r.value.messages[|r.value.messages| - 2] == UserMessage(req, now).ToDict()
      && r.value.messages[|r.value.messages| - 1] == BotMessage(reply, now).ToDict()
  {
    PlayedEndsWithTurn(found, req, now, reply);
    FoundAnswer(req, found, now, reply);
  }

  /** With nothing failing, the answer is the response holding the played history. */
  lemma FoundAnswer(req: ContinueRequest, found: State, now: int, reply: Reply)
    requires found.maxHistory >= 1
    ensures Answer(Success(()), req, Some(found), now, reply, None, None, None)
         == Success(ContinueResponse(Key(req), DictsOf(Played(found, req, now, reply).messages)))
  {
  }

  /** A lookup whose failure text says "not found" is reported as a missing conversation. */
  lemma LookupFaultMayReadAsMissing(fault: string, key: string)
    requires Contains(Lower(fault), "not found")
    ensures LookupFailure(fault, key) == Domain(ConversationNotFound(key))
    ensures WriteFailure(fault, key) == Domain(ConversationNotFound(key))
  {
    FaultSayingNotFoundIsReportedAsMissing(fault, key);
  }

  // ---------------------------------------------------------------------------
  // The use case on the store

  /** Every stored conversation keeps its invariant. */
  predicate AllValid(m: map<string, Conversation>)
    reads m.Values
  {
    forall k :: k in m ==> m[k].Valid()
  }

  /** The conversation a continuation may change: the one stored under the key, if any. */
  function Touched(m: map<string, Conversation>, key: string): set<Conversation> {
    if key in m then {m[key]} else {}
  }

  /** The state of the conversation stored under `key`, if there is one. */
  function Found(m: map<string, Conversation>, key: string): Option<State>
    reads m.Values
  {
    if key in m then Some(StateOf(m[key])) else None
  }

  /** `get_messages_for_api` of a valid conversation is its whole history in wire form. */
  lemma ApiMessagesOfValid(c: Conversation)
    requires c.Valid()
    ensures c.MessagesForApi() == DictsOf(c.messages)
  {
  }

  /** `update` of the played conversation, then the response built from it. */
  method UpdatePlayed(repo: MemoryConversationRepository, c: Conversation, retrieveFault: Option<string>, updateFault: Option<string>)
    returns (r: Result<ContinueResponse, Error>)
    requires repo.Valid() && c.Valid()
    requires c.id.Str() in repo.store.conversations && repo.store.conversations[c.id.Str()] == c
    modifies repo.store
    ensures repo.Valid() && repo.store.conversations == old(repo.store.conversations)
    ensures r == Finish(c.id.Str(), retrieveFault, updateFault, c.messages)
  {
    var u := repo.Update(c, retrieveFault, updateFault);
    if u.Failure? {
      return Failure(ContinueFailure(u.error));
    }
    assert repo.store.conversations == old(repo.store.conversations);
    ApiMessagesOfValid(c);
    return Success(ContinueResponse(c.id.Str(), c.MessagesForApi()));
  }

  /** What follows the lookup: the turn on the stored conversation, then `update`. */
  method Proceed(repo: MemoryConversationRepository, req: ContinueRequest, c: Conversation, now: int,
                 fallback: PersonalityType, pick: nat, retrieveFault: Option<string>, updateFault: Option<string>)
    returns (r: Result<ContinueResponse, Error>, ghost reply: Reply)
    requires repo.Valid() && pick < 3 && MessageProblem(req.message).None?
    requires Key(req) in repo.store.conversations && repo.store.conversations[Key(req)] == c && c.Valid()
    modifies repo.store, c
    ensures repo.Valid() && repo.store.conversations == old(repo.store.conversations)
    ensures reply == TurnReply(old(c.botPersonalityType), req, now, fallback, pick)
    ensures c.Valid() && StateOf(c) == Played(old(StateOf(c)), req, now, reply)
    ensures r == Finish(Key(req), retrieveFault, updateFault, c.messages)
  {
    reply := PlayTurn(c, req, now, fallback, pick);
    r := UpdatePlayed(repo, c, retrieveFault, updateFault);
  }

  /**
   * What follows validation: `find_by_id` on the id `from_string` parsed, then
   * the turn and `update`. Where no turn is played, `reply` is a placeholder
   * that no postcondition mentions.
   */
  method Run(repo: MemoryConversationRepository, req: ContinueRequest, id: ConversationId, now: int, fallback: PersonalityType, pick: nat,
             findFault: Option<string>, retrieveFault: Option<string>, updateFault: Option<string>)
    returns (r: Result<ContinueResponse, Error>, ghost reply: Reply)
    requires repo.Valid() && pick < 3 && MessageProblem(req.message).None?
    requires Key(req) in repo.store.conversations ==> repo.store.conversations[Key(req)].Valid()
    requires id.Str() == Key(req)
    modifies repo.store, Touched(repo.store.conversations, Key(req))
    ensures repo.Valid() && repo.store.conversations == old(repo.store.conversations)
    ensures r == Looked(req, Key(req) in repo.store.conversations, findFault, retrieveFault, updateFault,
                        if Key(req) in repo.store.conversations then repo.store.conversations[Key(req)].messages else [])
    ensures findFault.None? && Key(req) in repo.store.conversations ==>
      var c := repo.store.conversations[Key(req)];
      && reply == TurnReply(old(c.botPersonalityType), req, now, fallback, pick)
      && c.Valid() && StateOf(c) == Played(old(StateOf(c)), req, now, reply)
    ensures !(findFault.None? && Key(req) in repo.store.conversations) ==> unchanged(repo.store.conversations.Values)
  {
    var found := repo.FindById(id, findFault);
    if found.Failure? {
      return Failure(ContinueFailure(found.error)), Template(ConspiracyTheorist, 0, "");
    }
    if found.value.None? {
      var missing := Domain(ConversationNotFound(req.conversationId));
      assert ContinueFailure(missing) == missing;
      return Failure(ContinueFailure(missing)), Template(ConspiracyTheorist, 0, "");
    }
    var c := found.value.value;
    assert c == repo.store.conversations[Key(req)];
    r, reply := Proceed(repo, req, c, now, fallback, pick, retrieveFault, updateFault);
  }

  /** Whether `execute` gets as far as the turn: a valid request whose conversation the lookup finds. */
  predicate Reaches(req: ContinueRequest, findFault: Option<string>, m: map<string, Conversation>) {
    Validate(req).Success? && findFault.None? && Key(req) in m
  }

  /**
   * `execute`. `now` is the clock, `fallback` and `pick` the orchestrator's
   * and the persona's random choices, `findFault`, `retrieveFault` and
   * `updateFault` failures of the store during `find_by_id` and the two store
   * calls of `update`; `reply` names the orchestrator's answer to the turn.
   * The store's dictionary keeps the same entries throughout: the turn
   * changes the stored conversation object itself, so a failing `update`
   * still leaves the turn in the store, and no other conversation changes.
   */
  method Execute(repo: MemoryConversationRepository, req: ContinueRequest, now: int, fallback: PersonalityType, pick: nat,
                 findFault: Option<string>, retrieveFault: Option<string>, updateFault: Option<string>)
    returns (r: Result<ContinueResponse, Error>, ghost reply: Reply)
    requires repo.Valid() && pick < 3 && AllValid(repo.store.conversations)
    modifies repo.store, Touched(repo.store.conversations, Key(req))
    ensures repo.Valid() && repo.store.conversations == old(repo.store.conversations)
    ensures r == Answer(Validate(req), req, old(Found(repo.store.conversations, Key(req))), now, reply, findFault, retrieveFault, updateFault)
    ensures Reaches(req, findFault, repo.store.conversations) ==>
      && reply == ReplyTo(old(Found(repo.store.conversations, Key(req))), req, now, fallback, pick)
      && var c := repo.store.conversations[Key(req)];
      c.Valid() && StateOf(c) == Played(old(StateOf(c)), req, now, reply)
    ensures !Reaches(req, findFault, repo.store.conversations) ==> unchanged(repo.store.conversations.Values)
  {
    var v := Validate(req);
    if v.Failure? {
      ValidationFailurePassesThrough(req);
      return Failure(ContinueFailure(v.error)), Template(ConspiracyTheorist, 0, "");
    }
    KeyIsParsedId(req);
    r, reply := Run(repo, req, FromString(req.conversationId).value, now, fallback, pick, findFault, retrieveFault, updateFault);
  }

  /** When validation as written lets a request through, so does the intended validation, and no persona was given. */
  lemma AsWrittenPassImpliesIntended(req: ContinueRequest)
    requires ValidateAsWritten(req).Success?
    ensures Validate(req).Success? && req.preferred.None?
  {
  }

  /**
   * `execute` as the program runs it, with `_validate_request` as written: a
   * request naming a persona fails with a `UseCaseException` and changes
   * nothing; any other request is answered as `Execute` answers it.
   */
  method ExecuteAsWritten(repo: MemoryConversationRepository, req: ContinueRequest, now: int, fallback: PersonalityType, pick: nat,
                          findFault: Option<string>, retrieveFault: Option<string>, updateFault: Option<string>)
    returns (r: Result<ContinueResponse, Error>, ghost reply: Reply)
    requires repo.Valid() && pick < 3 && AllValid(repo.store.conversations)
    modifies repo.store, Touched(repo.store.conversations, Key(req))
    ensures repo.Valid() && repo.store.conversations == old(repo.store.conversations)
    ensures ValidateAsWritten(req).Failure? ==>
      r == Failure(ContinueFailure(ValidateAsWritten(req).error)) && unchanged(repo.store.conversations.Values)
    ensures ValidateAsWritten(req).Success? ==>
      r == Answer(Validate(req), req, old(Found(repo.store.conversations, Key(req))), now, reply, findFault, retrieveFault, updateFault)
    ensures ValidateAsWritten(req).Success? && Reaches(req, findFault, repo.store.conversations) ==>
      && reply == ReplyTo(old(Found(repo.store.conversations, Key(req))), req, now, fallback, pick)
      && var c := repo.store.conversations[Key(req)];
      c.Valid() && StateOf(c) == Played(old(StateOf(c)), req, now, reply)
  {
    var v := ValidateAsWritten(req);
    if v.Failure? {
      return Failure(ContinueFailure(v.error)), Template(ConspiracyTheorist, 0, "");
    }
    AsWrittenPassImpliesIntended(req);
    r, reply := Execute(repo, req, now, fallback, pick, findFault, retrieveFault, updateFault);
  }
}
