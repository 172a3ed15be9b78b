# Debate-bot backend: a Dafny model

This project models the core of a debate chatbot backend. The bot takes the
opposite side of whatever the user argues and keeps that side for the whole
conversation.

- **Conversations.** A conversation is created on the user's first message. It
  fixes a topic from that message, and the contrarian position that goes with
  the topic.
- **History.** A conversation keeps at most `max_history` exchanges: the newest
  `2 * max_history` messages.
- **Personas.** One of three personas answers: conspiracy theorist, skeptical
  scientist or populist. The persona is chosen on the first turn and then
  recorded on the conversation.
- **Layers.** The code follows a hexagonal layout:
  - a domain layer: messages, conversations, the conversation id, the
    orchestrator and the personas, and domain exceptions;
  - an application layer: the repository port, the two use cases and
    application exceptions;
  - an infrastructure layer: an in-memory store behind a repository adapter,
    and infrastructure exceptions;
  - the request and response schemas of the HTTP interface.

## How the model is built

The model follows the same layers, one Dafny module per source file.

**Values and objects**
- Values are datatypes: a message, a conversation id, a persona's reply, the
  three exception hierarchies, and the schema records.
- Objects the code updates in place are classes with `modifies` frames:
  - the conversation;
  - the in-memory store, whose dictionary is a `map` plus an insertion-order
    `seq`;
  - the repository adapter.

**Exceptions and interfaces**
- Python exceptions become `Result` failures carrying an `Errors.Error`.
- The abstract repository port has no traits to become. Instead it is a set of
  two-state contract predicates, and the adapter's methods ensure them.

**Inputs from outside the model**
- The clock is the parameter `now`.
- Each random choice becomes a parameter:
  - the 32 hex digits `uuid4` draws;
  - the orchestrator's `random.choice` of a persona;
  - a persona's choice among its three fallback templates.
- Store failures are a `fault: Option<string>` parameter: the text of the
  exception the underlying operation would raise.

**Reply prose.** A persona's reply is a `Reply` value: which paragraph of which
keyword group answered, or which template was filled with which topic. A
placeholder string stands for the text.

## Model

| member | source | states |
|---|---|---|
| `Messages.RoleFromValue` | src/domain/entities/message.py:13-21 | `MessageRole(v)` yields the role whose wire value is `v`, and yields it exactly when such a role exists |
| `Messages.RoleValueRoundTrip` | src/domain/entities/message.py:13-21 | parsing a role's wire value gives back that role |
| `Messages.NewMessage` | src/domain/entities/message.py:38-47 | construction succeeds iff the content is not blank and its stripped form has at most 2000 characters; the stored content is the stripped content; a blank content gives the "cannot be empty" error, a long one the "too long" error |
| `Messages.Message.Valid` | src/domain/entities/message.py:38-47 | definition: the invariant every constructed message keeps, its content non-empty, unpadded and at most 2000 characters; `NewMessage` establishes it and `ValidContentIsStripped` states what it implies |
| `Messages.NewMessageIdempotent` | src/domain/entities/message.py:38-47 | rebuilding a constructed message from its own fields gives the same message |
| `Messages.NewMessageIgnoresPadding` | src/domain/entities/message.py:40-47 | construction depends on the content only through its stripped form |
| `Messages.ValidContentIsStripped` | src/domain/entities/message.py:40-47 | valid content is non-blank and already stripped |
| `Messages.ExactlyOneSide` | src/domain/entities/message.py:49-57 | every message is from exactly one of user and bot |
| `Messages.Message.IsFromUser` | src/domain/entities/message.py:49-52 | definition: `role == MessageRole.USER`; `ExactlyOneSide` relates it to `IsFromBot` |
| `Messages.Message.IsFromBot` | src/domain/entities/message.py:54-57 | definition: `role == MessageRole.BOT`; `ExactlyOneSide` relates it to `IsFromUser` |
| `Messages.Message.WordCount` | src/domain/entities/message.py:59-62 | `len(content.split())` equals the number of places where a run of non-whitespace begins |
| `Messages.Message.ContainsKeywords` | src/domain/entities/message.py:64-75 | true iff some keyword, lowercased, occurs in the lowercased content |
| `Messages.AnyInLowered` | src/domain/entities/message.py:74-75 | the `any(...)` loop is true iff some lowercased keyword occurs in the text |
| `Messages.KeywordCaseIgnored` | src/domain/entities/message.py:64-75 | upper-casing every keyword does not change the keyword test |
| `Messages.UpperAll` | src/domain/entities/message.py:64-75 | the keyword list with every keyword upper-cased, position by position |
| `Messages.LowerOfUpper` | src/domain/entities/message.py:74-75 | lowercasing an upper-cased string equals lowercasing the string itself |
| `Messages.Message.ToDict` | src/domain/entities/message.py:77-87 | the dict has exactly the keys "role" and "message"; the role reads back to the message's role and the message is the content |
| `Messages.PreviewBounds` | src/domain/entities/message.py:89-91 | `str(message)` has at most 8 + 50 + 3 characters; for content of at most 50 characters it is the upper-cased role tag, the whole content and "..." |
| `Messages.Message.Preview` | src/domain/entities/message.py:89-91 | definition: `str(message)`, the upper-cased role in brackets, the first 50 characters of the content and "..."; `PreviewBounds` states its length and its form for short content |
| `Text.TrimStart` | src/domain/entities/message.py:40-47 | the result is a suffix of the input, starts with a non-space (or is empty), and everything cut off is whitespace |
| `Text.TrimEnd` | src/domain/entities/message.py:40-47 | the result is a prefix of the input, ends with a non-space (or is empty), and everything cut off is whitespace |
| `Text.StripIsSlice` | src/domain/entities/message.py:40-47 | `str.strip()` returns a slice of the input with only whitespace outside it and no whitespace at either end |
| `Text.Strip` | src/domain/entities/message.py:40-47 | definition: `str.strip()` as `TrimStart` then `TrimEnd`; `StripIsSlice`, `StripIdempotent` and `StripUnpadded` state its properties |
| `Text.IsBlank` | src/domain/entities/message.py:40 | definition: `not s or not s.strip()`, that is, the stripped string is empty; `BlankIffAllSpace` states it is all whitespace |
| `Text.BlankIffAllSpace` | src/domain/entities/message.py:40 | `not s or not s.strip()` holds iff every character of `s` is whitespace |
| `Text.StripIdempotent` | src/domain/entities/message.py:40-47 | stripping twice is stripping once |
| `Text.StripUnpadded` | src/domain/entities/message.py:40-47 | a string with no whitespace at either end strips to itself |
| `Text.Lower` | src/domain/entities/message.py:74 | lowercasing keeps the length and maps each character on its own |
| `Text.LowerAppend` | src/domain/entities/message.py:74 | lowercasing distributes over concatenation |
| `Text.Upper` | src/domain/entities/message.py:91 | upper-casing keeps the length and maps each character on its own (ASCII letters only, see Left out) |
| `Text.ContainsIffOccurs` | src/domain/entities/message.py:75 | the `in` test on strings is true iff the pattern occurs at some index |
| `Text.AnyInIffSome` | src/domain/services/debate_orchestrator.py:71 | `any(word in text for word in words)` is true iff some word occurs in the text |
| `Text.ContainsLowerStripped` | src/domain/entities/conversation.py:174-191 | a keyword without whitespace occurs in the lowercased text iff it occurs in the lowercased stripped text |
| `Text.Split` | src/domain/entities/message.py:62 | `str.split()` yields only non-empty words without whitespace |
| `Text.SplitCountsWordStarts` | src/domain/entities/message.py:62 | the number of words `str.split()` yields is the number of word starts |
| `Text.Take` | src/domain/entities/message.py:91 | `s[:n]` is the first `min(n, len(s))` characters |
| `Text.CountChar` | src/interfaces/api/schemas/chat_schemas.py:83 | `s.count(c)` is at most `len(s)` |
| `Text.CountCharAppend` | src/interfaces/api/schemas/chat_schemas.py:83 | the count of a character is additive over concatenation |
| `Text.NatToString` | src/domain/exceptions.py:36-39 | the decimal rendering of a natural number is a non-empty string of digits |
| `Text.NatToStringRoundTrip` | src/domain/exceptions.py:36-39 | reading the decimal rendering back gives the number |
| `ConversationIds.FromString` | src/domain/value_objects/conversation_id.py:30-53 | succeeds iff the input is not blank and `uuid.UUID` accepts it; the value kept is the stripped input; a blank input gives "ConversationId cannot be empty", a rejected one "Invalid UUID format: " and the raw input |
| `ConversationIds.ParseHexInt` | src/domain/value_objects/conversation_id.py:47-51 | definition: `int(s, 16)` as `uuid.UUID` calls it: surrounding whitespace stripped, an optional sign, an optional `0x` with one `_` after it, then hex digits with single `_` between them, negated under a minus sign; `HexPartParses` states that 32 hex digits parse below 2^128 |
| `ConversationIds.UuidHexPart` | src/domain/value_objects/conversation_id.py:47-51 | definition: the string `uuid.UUID` hands to `int(_, 16)`: `urn:` and `uuid:` removed, braces stripped from both ends, dashes removed; `DashedHexPart` states that a dashed UUID gives back its 32 digits |
| `ConversationIds.UuidAccepts` | src/domain/value_objects/conversation_id.py:47-51 | definition: `uuid.UUID(s)` succeeds iff the hex part has 32 characters that `int(_, 16)` reads as a value in [0, 2^128); `CanonicalAccepted` states that every canonical UUID string passes |
| `ConversationIds.ConversationId.Str` | src/domain/value_objects/conversation_id.py:55-57 | definition: `str(id)` is the stored value; `GenerateRoundTrip` states that `from_string` reads it back |
| `ConversationIds.Generate` | src/domain/value_objects/conversation_id.py:25-28 | a generated id has 36 characters, and its 32 hex digits carry version digit 4 and a variant digit in 8, 9, a or b |
| `ConversationIds.Uuid4Hex` | src/domain/value_objects/conversation_id.py:25-28 | the 32 drawn digits with the version and variant digits set: lower-case hex, digit 12 is '4', digit 16 is one of "89ab" |
| `ConversationIds.Dashed` | src/domain/value_objects/conversation_id.py:25-28 | the 8-4-4-4-12 dashed form of 32 digits has 36 characters |
| `ConversationIds.DashesOfDashed` | src/domain/value_objects/conversation_id.py:25-28 | the dashed form has exactly four dashes, and removing them gives back the 32 digits |
| `ConversationIds.HexPartParses` | src/domain/value_objects/conversation_id.py:44-49 | 32 hex digits parse as a base-16 integer below 2^128 |
| `ConversationIds.CanonicalAccepted` | src/domain/value_objects/conversation_id.py:30-53 | any canonical dashed UUID string, in upper, lower or mixed case, is accepted and kept as it is |
| `ConversationIds.GenerateRoundTrip` | src/domain/value_objects/conversation_id.py:25-57 | `from_string(str(generate()))` gives back the generated id |
| `ConversationIds.GenerateShape` | src/domain/value_objects/conversation_id.py:25-28 | a generated id has 36 characters of which exactly four are dashes |
| `ConversationIds.GenerateInjective` | src/domain/value_objects/conversation_id.py:25-28 | two draws that give the same id agree on all 30 digits not overwritten by the version and variant |
| `DebateStrategy.ParsePersonality` | src/domain/services/debate_strategy.py:12-16 | `PersonalityType(tag)` succeeds iff the tag is one of the three tags, and then the member's tag is the input |
| `DebateStrategy.TagRoundTrip` | src/domain/services/debate_strategy.py:12-16 | every member parses back from its tag, and a parsed tag is the member's own |
| `DebateStrategy.PersonalityType.Tag` | src/domain/services/debate_strategy.py:12-16 | definition: the enum value of each member; `TagRoundTrip` and `PersonalitiesListed` state that the tags parse back and are distinct |
| `DebateStrategy.PersonalitiesListed` | src/domain/services/debate_strategy.py:12-16 | `list(PersonalityType)` has three members with distinct tags and contains every member |
| `DebateStrategy.ReplyText` | src/domain/services/debate_strategy.py:28-39 | a reply's text is non-empty; a template reply's text contains the topic it was filled with |
| `DebateStrategy.ReplyTextIsValidContent` | src/domain/services/debate_strategy.py:28-39 | a reply's text is valid message content |
| `DebateStrategy.AnyInHits` | src/domain/services/personalities/conspiracy_theorist.py:39 | the keyword test the rule tables use agrees with `any(word in msg for word in words)` |
| `DebateStrategy.Hits` | src/domain/services/personalities/conspiracy_theorist.py:16 | definition: `any(word in text for word in words)` as an existential over the words; `AnyInHits` ties the scan to it |
| `DebateStrategy.FirstGroupFrom` | src/domain/services/personalities/conspiracy_theorist.py:35-72 | the `if/elif` chain over keyword groups picks the first group, from a given one on, that has a keyword in the text, or none when no group does |
| `DebateStrategy.FirstGroup` | src/domain/services/personalities/conspiracy_theorist.py:11-33 | definition: `FirstGroupFrom` from the first group, the group an `if/elif` chain over the whole table answers with |
| `DebateStrategy.FirstGroupAt` | src/domain/services/personalities/conspiracy_theorist.py:35-72 | a group with a hit, after groups without one, is the group picked |
| `DebateStrategy.FirstGroupAgrees` | src/domain/services/personalities/conspiracy_theorist.py:35-72 | two texts with the same hits in every group pick the same group |
| `ConspiracyTheoristStrategy.Respond` | src/domain/services/personalities/conspiracy_theorist.py:11-33 | the reply is the conspiracy persona's; it answers the first keyword group in the lowercased message, with that group's sub-branch; with no keyword it is template `pick` on the context's topic |
| `ConspiracyTheoristStrategy.Variant` | src/domain/services/personalities/conspiracy_theorist.py:16-29 | definition: the nested tests inside the vaccine group (safe words, then authority words, else the third paragraph) and the climate group (cause words, else the second); one paragraph for every other group |
| `ConspiracyTheoristStrategy.AnyTopic` | src/domain/services/personalities/conspiracy_theorist.py:35-72 | the generic branch answers the first of its generic keyword groups that hits, with that group's single paragraph; with none it fills template `pick` with the topic |
| `ConspiracyTheoristStrategy.InitialStance` | src/domain/services/personalities/conspiracy_theorist.py:74-76 | the stance begins "The official story about " and contains the topic |
| `ConspiracyTheoristStrategy.VaccineBeforeClimate` | src/domain/services/personalities/conspiracy_theorist.py:16-25 | a message that mentions a vaccine word gets a vaccine paragraph, even if it also mentions climate |
| `ConspiracyTheoristStrategy.ResearchNeverReachesScience` | src/domain/services/personalities/conspiracy_theorist.py:47-60 | "research" is caught by the education group, so it never reaches the science paragraph |
| `ConspiracyTheoristStrategy.ReadsMessageAndTopicOnly` | src/domain/services/personalities/conspiracy_theorist.py:11-33 | the reply depends on the context only through its message and topic |
| `SkepticalScientistStrategy.Respond` | src/domain/services/personalities/skeptical_scientist.py:11-33 | the reply is the scientist persona's; it answers the first keyword group in the lowercased message, with that group's sub-branch; with no keyword it is template `pick` on the topic |
| `SkepticalScientistStrategy.Variant` | src/domain/services/personalities/skeptical_scientist.py:16-29 | definition: the nested tests inside the climate group (cause words, then consensus words, else the third paragraph) and the vaccine group (safe words, else the second); one paragraph for every other group |
| `SkepticalScientistStrategy.AnyTopic` | src/domain/services/personalities/skeptical_scientist.py:35-72 | the generic branch answers the first of its generic keyword groups that hits, with that group's single paragraph; with none it fills template `pick` with the topic |
| `SkepticalScientistStrategy.InitialStance` | src/domain/services/personalities/skeptical_scientist.py:74-76 | the stance begins "The scientific consensus on " and contains the topic |
| `SkepticalScientistStrategy.ClimateBeforeVaccine` | src/domain/services/personalities/skeptical_scientist.py:16-29 | a message mentioning climate words gets a climate paragraph, even if it also mentions vaccines |
| `SkepticalScientistStrategy.BareAiMatchesInsideWords` | src/domain/services/personalities/skeptical_scientist.py:47-48 | any message containing "ai", even inside another word, that no earlier group catches gets the technology paragraph |
| `SkepticalScientistStrategy.ReadsMessageAndTopicOnly` | src/domain/services/personalities/skeptical_scientist.py:11-33 | the reply depends on the context only through its message and topic |
| `PopulistStrategy.Respond` | src/domain/services/personalities/populist.py:11-33 | the reply is the populist persona's; it answers the first keyword group in the lowercased message; with no keyword it is template `pick` on the topic |
| `PopulistStrategy.AnyTopic` | src/domain/services/personalities/populist.py:35-72 | the generic branch answers the first of its generic keyword groups that hits, with that group's single paragraph; with none it fills template `pick` with the topic |
| `PopulistStrategy.InitialStance` | src/domain/services/personalities/populist.py:74-76 | the stance begins "The establishment has been deceiving us about " and contains the topic |
| `PopulistStrategy.TechnologyBeforeSocialMedia` | src/domain/services/personalities/populist.py:39-60 | a message hitting both the technology and the social-media words gets the technology paragraph |
| `PopulistStrategy.PrimaryGroupsHaveOneParagraph` | src/domain/services/personalities/populist.py:16-33 | the populist's groups have no sub-branches |
| `PopulistStrategy.ReadsMessageAndTopicOnly` | src/domain/services/personalities/populist.py:11-33 | the reply depends on the context only through its message and topic |
| `DebateOrchestrator.SelectByTopic` | src/domain/services/debate_orchestrator.py:68-79 | the persona of the first topic group with a keyword in the text; the random fallback when no group hits |
| `DebateOrchestrator.OpposingStance` | src/domain/services/debate_orchestrator.py:86-93 | each persona has its own stance label, and each label belongs to exactly one persona |
| `DebateOrchestrator.ContextFor` | src/domain/services/debate_orchestrator.py:81-98 | the context's topic is the first 100 characters of the message text, the stance is the persona's, and the history is empty |
| `DebateOrchestrator.Strategy` | src/domain/services/debate_orchestrator.py:20-26 | the strategy registered for a persona answers as that persona |
| `DebateOrchestrator.InitialStance` | src/domain/services/debate_orchestrator.py:100-103 | whichever persona the random choice gives, the stance contains the topic |
| `DebateOrchestrator.GenerateBotResponse` | src/domain/services/debate_orchestrator.py:28-66 | the reply is the one for the stored persona tag, the user message and the preferred persona; the conversation records the answering persona's tag only if it had none; its messages, topic and position are unchanged |
| `DebateOrchestrator.WorkingText` | src/domain/services/debate_orchestrator.py:35-36 | definition: `str(user_message)` when a message is given, else "general discussion"; `MessageContextIsPreview` states that the context carries the preview |
| `DebateOrchestrator.ResolvePersonality` | src/domain/services/debate_orchestrator.py:39-50 | definition: a non-empty stored tag decides, else a non-empty preferred tag, else topic selection, with topic selection also for a tag that does not parse; `StoredPersonaWins`, `InvalidStoredTagFallsToTopic` and `PreferredUsedWithoutStoredTag` state each branch |
| `DebateOrchestrator.KeptTag` | src/domain/services/debate_orchestrator.py:53-54 | definition: the stored tag when non-empty, else the answering persona's tag; `PersonaStaysFixed` states that it never changes after the first reply |
| `DebateOrchestrator.BotReply` | src/domain/services/debate_orchestrator.py:28-66 | definition: the resolved persona answering the context built from the working text; `GenerateBotResponse` returns it and `ReplyIsValidContent` states that its text is valid content |
| `DebateOrchestrator.StoredPersonaWins` | src/domain/services/debate_orchestrator.py:39-44 | a valid stored tag decides the persona, whatever the preference, and stays stored |
| `DebateOrchestrator.PersonaStaysFixed` | src/domain/services/debate_orchestrator.py:39-54 | after the first reply records its persona, every later reply comes from the same persona whatever its message or preference, and the tag does not change again |
| `DebateOrchestrator.InvalidStoredTagFallsToTopic` | src/domain/services/debate_orchestrator.py:39-44 | an unknown stored tag falls back to topic selection and is never overwritten |
| `DebateOrchestrator.PreferredUsedWithoutStoredTag` | src/domain/services/debate_orchestrator.py:44-48 | without a stored tag, a valid preferred tag decides the persona; an invalid one falls back to topic selection |
| `DebateOrchestrator.MessageContextIsPreview` | src/domain/services/debate_orchestrator.py:35-36 | the orchestrator works on `str(user_message)`, the 50-character preview, not the content |
| `DebateOrchestrator.SelectionSeesFirstFiftyCharacters` | src/domain/services/debate_orchestrator.py:35-36 | topic selection sees only the first 50 characters of the content |
| `DebateOrchestrator.LateKeywordsAreIgnored` | src/domain/services/debate_orchestrator.py:68-79 | a content whose first 50 characters come from the letters of the role marker (so can hold no topic word) goes to the random fallback, whatever keywords follow |
| `DebateOrchestrator.ReplyIsValidContent` | src/domain/services/debate_orchestrator.py:28-66 | every reply the orchestrator gives is valid message content, so adding it as the bot message cannot fail |
| `Conversations.FirstMatch` | src/domain/entities/conversation.py:189-191 | the first table entry whose keyword occurs in the text, none after it earlier, or none when no keyword occurs |
| `Conversations.TopicInIsFirstMatch` | src/domain/entities/conversation.py:189-194 | the topic chosen is that of the first matching keyword, or "general debate topic" |
| `Conversations.IdentifyTopicChoosesFirst` | src/domain/entities/conversation.py:164-194 | the generic topic iff no keyword occurs in the lowercased content; otherwise the topic of the first keyword that does |
| `Conversations.TopicIn` | src/domain/entities/conversation.py:189-194 | definition: the scan over the keyword table, returning the first hit's topic or the generic one; `TopicInIsFirstMatch` ties it to `FirstMatch` |
| `Conversations.IdentifyTopic` | src/domain/entities/conversation.py:164-194 | definition: `TopicIn` on the lowercased content; `IdentifyTopicChoosesFirst` and `TopicIgnoresPadding` state what it picks |
| `Conversations.TopicIgnoresPadding` | src/domain/entities/conversation.py:164-194 | the topic of a message does not depend on surrounding whitespace |
| `Conversations.LookupFinds` | src/domain/entities/conversation.py:218 | `dict.get(key, default)`: the first entry with the key, or the default when there is none |
| `Conversations.Lookup` | src/domain/entities/conversation.py:218 | definition: `dict.get(key, default)` on an association list; `LookupFinds` states it returns the first entry with the key, or the default |
| `Conversations.ContrarianPosition` | src/domain/entities/conversation.py:196-218 | definition: the position table's entry for the topic, or the default position; `PositionDefaultIffTopicDefault` states the default is used exactly for the generic topic |
| `Conversations.TablesLineUp` | src/domain/entities/conversation.py:177-216 | every topic of the keyword table has its own non-default position, and no table topic is the generic one |
| `Conversations.PositionDefaultIffTopicDefault` | src/domain/entities/conversation.py:196-218 | the bot gets the default contrarian position iff the topic is the generic one |
| `Conversations.VaccineTopicExample` | src/domain/entities/conversation.py:164-194 | an example: a message mentioning vaccines gets the vaccine topic |
| `Conversations.Cap` | src/domain/entities/conversation.py:220-234 | the last `k` elements, or all of them when there are at most `k` |
| `Conversations.CapAppend` | src/domain/entities/conversation.py:220-234 | trimming after each append is the same as trimming once at the end |
| `Conversations.CapBounds` | src/domain/entities/conversation.py:220-234 | a trimmed history is no longer than the limit or the input, and a short history is kept whole |
| `Conversations.CapKeepsValid` | src/domain/entities/conversation.py:97-98 | appending a valid message and trimming leaves a non-empty history within the limit, of valid messages, ending with the new one |
| `Conversations.LastIndexWith` | src/domain/entities/conversation.py:45-55 | the index of the last message with the role, with no later one, or none when no message has it |
| `Conversations.CountRolesCover` | src/domain/entities/conversation.py:62-71 | user messages and bot messages together are all the messages |
| `Conversations.DictsOf` | src/domain/entities/conversation.py:150-151 | the list of `to_dict()` results, position by position |
| `Conversations.Conversation.constructor` | src/domain/entities/conversation.py:27-38 | a new conversation with the given id, creation time and history size, and no messages, topic, position or persona |
| `Conversations.Conversation.Valid` | src/domain/entities/conversation.py:35-38 | definition: `max_history >= 1`, at most `2 * max_history` messages (what `_maintain_history_limit` at conversation.py:220-234 keeps), every message valid, and a position exactly when there is a topic; every mutating method preserves it |
| `Conversations.Conversation.PositionFitsTopic` | src/domain/entities/conversation.py:153-162 | definition: once a topic is set, the position is that topic's contrarian position, as `_extract_topic` sets both together; `AddUserMessage` and `FixTopic` preserve it |
| `Conversations.New` | src/domain/entities/conversation.py:35-38 | construction succeeds iff `max_history >= 1`, otherwise fails with "max_history must be at least 1"; a new conversation is empty |
| `Conversations.Conversation.MessageCount` | src/domain/entities/conversation.py:57-60 | the number of messages |
| `Conversations.Conversation.ExchangeCount` | src/domain/entities/conversation.py:62-71 | the smaller of the user and bot message counts, so at most half the messages |
| `Conversations.Conversation.LastUserMessage` | src/domain/entities/conversation.py:45-49 | none iff no message is from the user; otherwise the last user message |
| `Conversations.Conversation.LastBotMessage` | src/domain/entities/conversation.py:51-55 | none iff no message is from the bot; otherwise the last bot message |
| `Conversations.Conversation.RecentMessages` | src/domain/entities/conversation.py:127-141 | with a positive limit, at most that many of the newest messages; otherwise every message; by default, for a valid conversation, every message |
| `Conversations.Conversation.MessagesForApi` | src/domain/entities/conversation.py:143-151 | the wire form of the recent messages, in order; for a valid conversation, of every message |
| `Conversations.Conversation.AddUserMessage` | src/domain/entities/conversation.py:73-100 | the message is built as `NewMessage` builds it; on success it is appended and the history trimmed; the first message fixes topic and position; a failure changes nothing; the persona is untouched |
| `Conversations.Conversation.FixTopic` | src/domain/entities/conversation.py:153-162 | the topic is the one the content names, and the position is that topic's contrarian position |
| `Conversations.Conversation.AddBotMessage` | src/domain/entities/conversation.py:102-125 | the bot message is built as `NewMessage` builds it; on success it is appended and the history trimmed; topic, position and persona are untouched |
| `Conversations.Conversation.Append` | src/domain/entities/conversation.py:97-98 | the history becomes the trimmed history with the message appended, and ends with it |
| `Conversations.Conversation.TrimHistory` | src/domain/entities/conversation.py:220-234 | the history becomes its newest `2 * max_history` messages |
| `Conversations.Conversation.SetBotPersonalityType` | src/domain/services/debate_orchestrator.py:53-54 | the conversation records the tag |
| `DebateTurns.MessageProblem` | src/application/use_cases/start_conversation.py:127-134 | no problem iff the message is not blank and its stripped length is between 5 and 2000; otherwise exactly one of the empty, too-long and too-short errors, checked in that order |
| `DebateTurns.CheckedMessageIsAccepted` | src/application/use_cases/start_conversation.py:127-134 | a message that passes the use-case check always builds a message entity, with the stripped content |
| `DebateTurns.MessageBoundaries` | src/application/use_cases/start_conversation.py:130-134 | stripped lengths 4 and 2001 fail, and 5 and 2000 pass |
| `DebateTurns.MessageCheckIgnoresPadding` | src/application/use_cases/start_conversation.py:127-134 | the message's verdict depends only on its stripped form |
| `DebateTurns.PreferredTag` | src/application/use_cases/start_conversation.py:88-92 | a preferred persona is passed as its non-empty tag, which parses back to it; no preference passes none |
| `DebateTurns.Turn` | src/application/use_cases/start_conversation.py:82-98 | one turn: it fails iff the user message cannot be built, and then changes nothing; otherwise the reply is the orchestrator's; user and bot messages are appended and trimmed; the persona tag is recorded if there was none |
| `ConversationRepository.SaveThenFind` | src/application/ports/conversation_repository.py:23-49 | a lookup after a successful save finds the saved conversation; the store grows by one iff the id was new |
| `ConversationRepository.DeleteThenFind` | src/application/ports/conversation_repository.py:36-79 | after a delete that reports true, the id is not found and the store has one entry fewer |
| `ConversationRepository.UpdateKeepsIds` | src/application/ports/conversation_repository.py:52-63 | an update never adds or removes ids |
| `ConversationRepository.UpdateNeedsStoredId` | src/application/ports/conversation_repository.py:52-63 | updating an id that is not stored fails and changes nothing |
| `MemoryStore.Without` | src/infrastructure/persistence/memory_store.py:104-106 | the key order after `del`: the same keys minus the deleted one, still without repeats; a missing key leaves the order as it was |
| `MemoryStore.DistinctCardinality` | src/infrastructure/persistence/memory_store.py:128-142 | a list of distinct keys has as many elements as its set |
| `MemoryStore.MemoryConversationStore.constructor` | src/infrastructure/persistence/memory_store.py:22-24 | an empty store |
| `MemoryStore.MemoryConversationStore.Store` | src/infrastructure/persistence/memory_store.py:26-40 | the conversation is stored under its id; a new id goes to the end of the key order; a fault gives the "store" error and changes nothing |
| `MemoryStore.MemoryConversationStore.Retrieve` | src/infrastructure/persistence/memory_store.py:42-59 | the stored conversation under the id, or none iff absent; a fault gives the "retrieve" error |
| `MemoryStore.MemoryConversationStore.Update` | src/infrastructure/persistence/memory_store.py:61-85 | succeeds iff there is no fault and the id is stored, and then replaces that entry; an unknown id gives the "not found" error; a failure changes nothing |
| `MemoryStore.MemoryConversationStore.Delete` | src/infrastructure/persistence/memory_store.py:87-110 | reports whether the id was stored and removes it from the map and from the key order; a fault gives the "delete" error and changes nothing |
| `MemoryStore.MemoryConversationStore.Count` | src/infrastructure/persistence/memory_store.py:112-126 | the number of stored conversations; a fault gives the "count" error |
| `MemoryStore.MemoryConversationStore.GetAllIds` | src/infrastructure/persistence/memory_store.py:128-142 | the stored ids in insertion order, each once, one per stored conversation; a fault gives the "get_all_ids" error |
| `MemoryStore.MemoryConversationStore.Clear` | src/infrastructure/persistence/memory_store.py:144-155 | the store becomes empty; a fault gives the "clear" error and changes nothing |
| `MemoryStore.MemoryConversationStore.HealthCheck` | src/infrastructure/persistence/memory_store.py:157-170 | healthy iff the probe raises nothing |
| `MemoryConversationRepositories.Wrapped` | src/infrastructure/repositories/memory_conversation_repository.py:48-49 | a store error wrapped by the adapter is a `RepositoryException` |
| `MemoryConversationRepositories.UpdateError` | src/infrastructure/repositories/memory_conversation_repository.py:95-100 | a store error whose message says "not found" in any case becomes `ConversationNotFoundException` for the id; any other becomes the wrapped update error |
| `MemoryConversationRepositories.MemoryConversationRepository.constructor` | src/infrastructure/repositories/memory_conversation_repository.py:27-34 | the adapter uses the given store, or a fresh empty one when none is given |
| `MemoryConversationRepositories.MemoryConversationRepository.Save` | src/infrastructure/repositories/memory_conversation_repository.py:36-51 | meets the port's save contract; succeeds iff no fault; a fault gives the wrapped "store" error |
| `MemoryConversationRepositories.MemoryConversationRepository.FindById` | src/infrastructure/repositories/memory_conversation_repository.py:53-71 | meets the port's find contract; a found conversation has the id asked for; a fault gives the wrapped "retrieve" error |
| `MemoryConversationRepositories.MemoryConversationRepository.Update` | src/infrastructure/repositories/memory_conversation_repository.py:73-102 | meets the port's update contract; an unknown id gives `ConversationNotFoundException`; succeeds iff both store calls succeed and the id is stored; each store fault is translated by `UpdateError` |
| `MemoryConversationRepositories.MemoryConversationRepository.Delete` | src/infrastructure/repositories/memory_conversation_repository.py:104-122 | meets the port's delete contract; succeeds iff no fault |
| `MemoryConversationRepositories.MemoryConversationRepository.CountActiveConversations` | src/infrastructure/repositories/memory_conversation_repository.py:124-139 | meets the port's count contract; succeeds iff no fault |
| `MemoryConversationRepositories.MemoryConversationRepository.HealthCheck` | src/infrastructure/repositories/memory_conversation_repository.py:141-151 | healthy iff the store's probe raises nothing |
| `MemoryConversationRepositories.MemoryConversationRepository.GetAllConversationIds` | src/infrastructure/repositories/memory_conversation_repository.py:155-170 | exactly the stored ids, each once, one per stored conversation; succeeds iff no fault |
| `MemoryConversationRepositories.MemoryConversationRepository.ClearAllConversations` | src/infrastructure/repositories/memory_conversation_repository.py:172-186 | on success the store is empty, on failure unchanged; succeeds iff no fault |
| `MemoryConversationRepositories.StoreNotFoundIsTranslated` | src/infrastructure/repositories/memory_conversation_repository.py:95-98 | the store's own "not found for update" error becomes `ConversationNotFoundException` |
| `MemoryConversationRepositories.FaultSayingNotFoundIsReportedAsMissing` | src/infrastructure/repositories/memory_conversation_repository.py:95-98 | any store fault whose text says "not found" is reported as a missing conversation, even when the conversation exists |
| `DomainExceptions.NewDomainException` | src/domain/exceptions.py:8-14 | the base exception keeps its message and has the default code "DOMAIN_ERROR" |
| `DomainExceptions.DomainException.Message` | src/domain/exceptions.py:8-46 | definition: the `message` text each domain exception class builds in its `__init__`; `NotFoundMessageNamesId` and `LimitMessageCarriesLimit` state what can be read back from it |
| `DomainExceptions.DomainException.ErrorCode` | src/domain/exceptions.py:8-46 | definition: the `error_code` each domain exception class passes, the base class keeping the one it is given |
| `DomainExceptions.NotFoundMessageNamesId` | src/domain/exceptions.py:17-23 | the not-found message is a fixed prefix followed by the id, so the id can be read back |
| `DomainExceptions.NotFoundMessageSaysNotFound` | src/domain/exceptions.py:17-23 | the not-found message contains "not found" in lowercase, whatever the id |
| `DomainExceptions.LimitMessageCarriesLimit` | src/domain/exceptions.py:33-39 | the limit can be read back from the digits of the limit message |
| `ApplicationExceptions.NewApplicationException` | src/application/exceptions.py:8-14 | the base exception keeps its message and has the default code "APPLICATION_ERROR" |
| `ApplicationExceptions.ApplicationException.Message` | src/application/exceptions.py:8-45 | definition: the `message` text each application exception class builds; `UseCaseMessageShape` states the use-case message's form |
| `ApplicationExceptions.ApplicationException.ErrorCode` | src/application/exceptions.py:8-45 | definition: the `error_code` each application exception class passes |
| `ApplicationExceptions.UseCaseMessageShape` | src/application/exceptions.py:24-29 | the use-case message names the use case between quotes and ends with the cause unchanged |
| `InfrastructureExceptions.NewInfrastructureException` | src/infrastructure/exceptions.py:8-14 | the base exception keeps its message and has the default code "INFRASTRUCTURE_ERROR" |
| `InfrastructureExceptions.InfrastructureException.Message` | src/infrastructure/exceptions.py:8-37 | definition: the `message` text each infrastructure exception class builds, a memory-repository error through its persistence superclass; `MemoryErrorIsPersistenceError` states that nesting |
| `InfrastructureExceptions.InfrastructureException.ErrorCode` | src/infrastructure/exceptions.py:8-37 | definition: the `error_code` each infrastructure exception class passes |
| `InfrastructureExceptions.MemoryErrorIsPersistenceError` | src/infrastructure/exceptions.py:17-29 | a memory-repository error has the message and code of the persistence error of its operation-tagged detail |
| `InfrastructureExceptions.MemoryErrorKeepsDetail` | src/infrastructure/exceptions.py:24-29 | any text in the detail, in lowercase, survives into the full lowercased message |
| `StartConversation.StartFailure` | src/application/use_cases/start_conversation.py:109-115 | a validation error passes through unchanged; any other error becomes the "StartConversation" use-case error, with "Failed to start conversation: " and the cause |
| `Errors.Error.Str` | src/application/use_cases/start_conversation.py:111-115 | definition: `str(e)` of every error the core raises: the text of a `ValueError`, CPython's `AttributeError` text, or the exception's `message` |
| `StartConversation.ValidateAsWritten` | src/application/use_cases/start_conversation.py:117-143 | as written: passes iff the message passes and no persona is preferred; a message problem gives its validation error; a preferred persona gives the `AttributeError` of the missing `get_available_personalities` |
| `StartConversation.PreferredPersonaFailsAsWritten` | src/application/use_cases/start_conversation.py:136-143 | as written, a valid message with a preferred persona ends in the "StartConversation" use-case error naming the missing method |
| `StartConversation.Validate` | src/application/use_cases/start_conversation.py:117-143 | corrected: passes iff the message passes; a failure is the message problem's validation error |
| `StartConversation.PersonaNeverRejected` | src/application/use_cases/start_conversation.py:136-143 | corrected: every persona is available, so a preference never changes the verdict, and a validation failure passes through `execute` unchanged |
| `StartConversation.CreateNewConversation` | src/application/use_cases/start_conversation.py:145-161 | a fresh, valid, empty conversation under the generated id, created at the request's timestamp or `now`, with the default history size |
| `StartConversation.FirstTurnResponse` | src/application/use_cases/start_conversation.py:104-107 | after the first turn the response lists exactly the user's message, then the bot's, in wire form |
| `StartConversation.FirstReply` | src/application/use_cases/start_conversation.py:88-92 | definition: the orchestrator's reply to the first user message, with no stored persona and the preference passed as its tag |
| `StartConversation.FirstState` | src/application/use_cases/start_conversation.py:79-98 | definition: the state after the first turn: the user message and the bot reply, the message's topic and position, and the answering persona; `FirstTurn` produces it and `FirstTurnResponse` states the response it gives |
| `StartConversation.FirstTurn` | src/application/use_cases/start_conversation.py:79-98 | a fresh conversation holding the first turn: the user's message, the reply, the topic and position of the message and the answering persona |
| `StartConversation.SaveStarted` | src/application/use_cases/start_conversation.py:100-107 | succeeds iff the save has no fault, and then adds exactly the new entry and answers with its id and wire messages; a fault gives the wrapped save error and leaves the store as it was |
| `StartConversation.Run` | src/application/use_cases/start_conversation.py:79-107 | for a valid request: the first turn, then the save; succeeds iff the save does; on success only the new entry is added |
| `StartConversation.Execute` | src/application/use_cases/start_conversation.py:60-115 | with the corrected check: succeeds iff the request is valid and the save does not fail; a validation error is returned unchanged; a failed request leaves the store as it was; on success only the new conversation is added, and the response carries its id and messages |
| `StartConversation.ExecuteAsWritten` | src/application/use_cases/start_conversation.py:60-143 | as written: succeeds iff validation as written passes and the save does not fail; a rejected request gets the failure `execute` wraps around the validation error, the preferred-persona case included, and leaves the store as it was; a passing request is played and saved as in `Execute` |
| `ContinueDebate.ContinueFailureKinds` | src/application/use_cases/continue_debate.py:115-121 | whatever went wrong, `execute` raises a validation error, a not-found error or the "ContinueDebate" use-case error |
| `ContinueDebate.ContinueFailure` | src/application/use_cases/continue_debate.py:115-121 | definition: validation and not-found errors are re-raised, anything else becomes the "ContinueDebate" use-case error with "Failed to continue debate: " and `str(e)`; `ContinueFailureKinds` states the three kinds |
| `ContinueDebate.IdProblem` | src/application/use_cases/continue_debate.py:133-141 | no problem iff `from_string` accepts the id; a blank id gives "Conversation ID cannot be empty"; a rejected one gives the format-error prefix followed by `from_string`'s own message |
| `ContinueDebate.ValidateAsWritten` | src/application/use_cases/continue_debate.py:123-160 | as written: passes iff the id and the message pass and no persona is preferred; the id is checked first, then the message; a preferred persona gives the `AttributeError` of the missing method |
| `ContinueDebate.PreferredPersonaFailsAsWritten` | src/application/use_cases/continue_debate.py:153-160 | as written, a valid request with a preferred persona ends in the "ContinueDebate" use-case error naming the missing method |
| `ContinueDebate.Validate` | src/application/use_cases/continue_debate.py:123-160 | corrected: passes iff the id parses and the message passes; the id's error comes first, then the message's |
| `ContinueDebate.PersonaNeverRejected` | src/application/use_cases/continue_debate.py:153-160 | corrected: a preference never changes the verdict |
| `ContinueDebate.ValidationFailurePassesThrough` | src/application/use_cases/continue_debate.py:115-116 | a validation failure is re-raised by `execute` unchanged |
| `ContinueDebate.IdCheckedFirst` | src/application/use_cases/continue_debate.py:133-135 | a blank id is rejected before anything else, by both versions of the validation |
| `ContinueDebate.KeyIsParsedId` | src/application/use_cases/continue_debate.py:80-83 | the store key looked up is the parsed id's string |
| `ContinueDebate.Key` | src/application/use_cases/continue_debate.py:80 | definition: the stripped conversation id; `KeyIsParsedId` states it is `str(ConversationId.from_string(id))` |
| `ContinueDebate.PlayedEndsWithTurn` | src/application/use_cases/continue_debate.py:88-104 | after a turn the history ends with the user's message and the bot's reply, after the most recent earlier messages that still fit |
| `ContinueDebate.Played` | src/application/use_cases/continue_debate.py:88-104 | definition: the state one turn leaves: both messages appended and trimmed, the topic and position fixed by a first message and kept otherwise, the persona recorded if none was; `PlayedEndsWithTurn`, `TopicFixedByFirstMessage` and `RecordedPersonaAnswers` state its properties |
| `ContinueDebate.RecordedPersonaAnswers` | src/application/use_cases/continue_debate.py:94-98 | a conversation with a recorded persona is answered by that persona, and the record stays |
| `ContinueDebate.TopicFixedByFirstMessage` | src/application/use_cases/continue_debate.py:88-91 | the topic and position fixed by the first message survive every later turn |
| `ContinueDebate.PlayTurn` | src/application/use_cases/continue_debate.py:87-104 | the turn leaves the conversation valid and in the state `Played` describes, answered by `TurnReply` |
| `ContinueDebate.Answer` | src/application/use_cases/continue_debate.py:75-121 | the result of `execute` as a function of the verdict, the lookup and the faults: it succeeds iff validation passes, the conversation is found and no store call fails |
| `ContinueDebate.AnswerFailureKinds` | src/application/use_cases/continue_debate.py:75-121 | every failure of `execute` is a validation error, a not-found error or the "ContinueDebate" use-case error |
| `ContinueDebate.AnswerShowsTurn` | src/application/use_cases/continue_debate.py:106-113 | on success the response carries the stripped id and ends with the user's message and the bot's reply |
| `ContinueDebate.FoundAnswer` | src/application/use_cases/continue_debate.py:106-113 | on success the response is the key and the wire form of the history after the turn |
| `ContinueDebate.LookupFaultMayReadAsMissing` | src/infrastructure/repositories/memory_conversation_repository.py:95-98 | during the update, a fault that says "not found" reads as a missing conversation |
| `ContinueDebate.ApiMessagesOfValid` | src/domain/entities/conversation.py:143-151 | for a valid conversation the wire messages are those of the whole history |
| `ContinueDebate.UpdatePlayed` | src/application/use_cases/continue_debate.py:106-113 | the update writes back the same object, so the map is unchanged; the result follows the update's faults |
| `ContinueDebate.Proceed` | src/application/use_cases/continue_debate.py:87-113 | a found conversation: the turn, then the update; the store map is unchanged, and the conversation is in the played state |
| `ContinueDebate.Run` | src/application/use_cases/continue_debate.py:80-113 | after validation: lookup, turn and update; the result is the one `Looked` gives, and the conversation is played only when found |
| `ContinueDebate.Execute` | src/application/use_cases/continue_debate.py:60-121 | with the corrected check: the result equals `Answer` on the verdict, the stored state and the faults; the map of conversations keeps its entries; a conversation that is reached is played in place and stays valid |
| `ContinueDebate.AsWrittenPassImpliesIntended` | src/application/use_cases/continue_debate.py:123-160 | a request the as-written check passes also passes the corrected one, and names no persona |
| `ContinueDebate.ExecuteAsWritten` | src/application/use_cases/continue_debate.py:60-160 | as written: a request the as-written check rejects gets its wrapped failure and touches nothing; any other request is answered as `Execute` answers it |
| `ChatSchemas.FieldErrors` | src/interfaces/api/schemas/chat_schemas.py:13-86 | a model's errors, one per failing field in field order: none iff both fields pass |
| `ChatSchemas.ValidateRole` | src/interfaces/api/schemas/chat_schemas.py:19-25 | a role that passes is returned as it is; any other fails with "Role must be 'user' or 'bot'" |
| `ChatSchemas.RoleSchemaMatchesRoles` | src/interfaces/api/schemas/chat_schemas.py:19-25 | the schema accepts exactly the wire values of the message roles |
| `ChatSchemas.ValidateSchemaMessage` | src/interfaces/api/schemas/chat_schemas.py:27-33 | passes iff not blank, and returns the stripped text; otherwise "Message cannot be empty" |
| `ChatSchemas.SchemaMessageIsClean` | src/interfaces/api/schemas/chat_schemas.py:27-33 | what the message validator returns is non-empty, has no whitespace at either end, and passes again unchanged |
| `ChatSchemas.NewMessageSchema` | src/interfaces/api/schemas/chat_schemas.py:13-33 | a `MessageSchema` is built iff both fields pass, with the cleaned message; otherwise the fields' errors |
| `ChatSchemas.StoredMessagePassesSchema` | src/interfaces/api/schemas/chat_schemas.py:13-33 | the wire form of any stored message passes `MessageSchema` unchanged |
| `ChatSchemas.ValidateRequestMessage` | src/interfaces/api/schemas/chat_schemas.py:51-69 | passes iff the raw length is 1 to 2000, the text is not blank and the stripped text has at least 5 characters, and returns the stripped text; each failure has its own message, with the length bounds checked first |
| `ChatSchemas.AcceptedRequestPassesUseCase` | src/interfaces/api/schemas/chat_schemas.py:51-69 | a request message the schema accepts also passes the use cases' message check, both as sent and as cleaned |
| `ChatSchemas.PaddingCountsAgainstRequest` | src/interfaces/api/schemas/chat_schemas.py:51-56 | a message the use cases accept can still be refused by the schema, whose length bound counts surrounding whitespace |
| `ChatSchemas.RequestLengthBoundaries` | src/interfaces/api/schemas/chat_schemas.py:51-56 | raw length 0 and 2001 fail; an unpadded message of 2000 characters passes as it is |
| `ChatSchemas.ValidateConversationId` | src/interfaces/api/schemas/chat_schemas.py:71-86 | none passes as none; blank fails with "cannot be empty string"; otherwise passes iff the stripped id has 36 characters and four dashes, and then returns it; else the format error |
| `ChatSchemas.GeneratedIdPassesSchema` | src/interfaces/api/schemas/chat_schemas.py:71-86 | every generated id passes the request's id check unchanged |
| `ChatSchemas.IdCheckIsShapeOnly` | src/interfaces/api/schemas/chat_schemas.py:81-86 | any unpadded 36-character string with four dashes passes the id check, hex digits or not |
| `ChatSchemas.NewChatRequest` | src/interfaces/api/schemas/chat_schemas.py:36-86 | a `ChatRequest` is built iff both fields pass, with the cleaned id and message; otherwise the fields' errors |
| `ChatSchemas.ValidateMessagesCount` | src/interfaces/api/schemas/chat_schemas.py:118-125 | passes iff there are at most ten messages, returned as they are; otherwise "Too many messages in response" |
| `ChatSchemas.NewChatResponse` | src/interfaces/api/schemas/chat_schemas.py:89-125 | a `ChatResponse` is built iff the message count passes |
| `ChatSchemas.ConversationResponseIsValid` | src/interfaces/api/schemas/chat_schemas.py:113-125 | the wire messages of a valid conversation with the default history size are at most ten, and each is a valid `MessageSchema` as it stands |
| `ChatSchemas.LongHistoryOverflowsResponse` | src/interfaces/api/schemas/chat_schemas.py:118-125 | with a larger history size, a conversation holding more than ten messages fails the response check |

## Left out

- Text.Lower: lowercasing is ASCII-only, where Python's `str.lower` is Unicode-wide. For example, U+212A KELVIN SIGN lowers to 'k' in Python, so "marKet" hits the populist keyword "market" there but not in the model. The same holds for `Text.Upper`, used by `str(message)`.
- Text.LowerChar: maps only 'A'-'Z'; every other character is kept.
- StartConversation.Execute: it runs the corrected `Validate`, under which every persona is available. The program as written runs `ValidateAsWritten` (see Findings); `StartConversation.ExecuteAsWritten` models that run.
- ContinueDebate.Execute: it runs the corrected `Validate`, under which every persona is available. The program as written runs `ValidateAsWritten` (see Findings); `ContinueDebate.ExecuteAsWritten` models that run.
- StartConversation.Run: one `now` stands for each separate `datetime.now()` call: the user timestamp default, the bot timestamp and the creation time at start_conversation.py:84, :97 and :156. These readings may differ in the program.
- ContinueDebate.Run: one `now` stands for the two `datetime.now()` calls at continue_debate.py:90 and :103.
- DebateStrategy.ReplyText: reply prose is a placeholder. A reply is identified by its persona and by paragraph or template, not by its text. The real paragraphs are between 336 and 633 characters, and a template adds a topic of at most 100. The placeholder and the real text are both valid message content.
- DebateOrchestrator.GenerateBotResponse: `random.choice` is the `fallback` parameter and a persona's fallback template is `pick`. Nothing is claimed about their distribution.
- ConversationIds.Generate: `uuid4`'s randomness is the `random` parameter, which must be 32 lower-case hex digits.
- MemoryStore.MemoryConversationStore.Store: `asyncio.Lock` and `async` are dropped. Each store and repository call is one atomic step, so interleavings of concurrent requests are not modelled. The same holds for every other store and adapter method.
- MemoryStore.MemoryConversationStore.Update: the exceptions a dictionary or lock operation could raise are not derived. They come in as `fault: Option<string>` parameters, as on every other store method.
- MemoryConversationRepositories.MemoryConversationRepository.Save: the "Unexpected error …" branches are not modelled. These are at memory_conversation_repository.py:50-51, :70-71, :101-102, :121-122, :138-139, :169-170 and :185-186. The store only raises `MemoryRepositoryException`, so these branches catch only what the store's own wrapping lets through.
- Conversations.New: builds only an empty conversation. The dataclass also accepts initial messages, topic, position and persona (conversation.py:27-33), but the core's only caller, start_conversation.py:158-161, passes just the id and the creation time. An initial list is not trimmed by `__post_init__`, so it could hold more than `2 * max_history` messages.
- Conversations.Conversation.Valid: the invariant does not include the position-fits-topic property. That is the separate predicate `PositionFitsTopic`, which `AddUserMessage` and `FixTopic` preserve.
- ConversationIds.FromString and ConversationIds.UuidAccepts: `uuid.UUID` is modelled by its steps: `urn:` and `uuid:` removed, braces stripped, dashes removed, and the 32 characters left read as `int(_, 16)` reads them (`ParseHexInt`), surrounding whitespace, a sign, `0x` and '_' between digits included. Only the non-ASCII decimal digits (Unicode category Nd) that `int(_, 16)` also accepts are not modelled: an id spelled with them is accepted by `from_string` and rejected by `FromString`.
- ContinueDebate.IdProblem: the message of `ValueError` is as the model renders it; pydantic's "Value error, " prefix and its error structure in the HTTP response are interface concerns.
- ChatSchemas.FieldErrors: pydantic's error records are reduced to the message strings, in field order. Its built-in length errors are rendered with pydantic's texts but without their location and type fields.
- ChatSchemas.NewChatRequest: an absent `message` field and values that are not strings are rejected by pydantic before any validator runs; the model takes well-typed fields.
- `get_conversation_stats` (continue_debate.py:162-194) is not modelled, and neither is the `get_debate_statistics` it calls. The orchestrator does not define `get_debate_statistics`, so the operation cannot succeed as written; it lies outside the two request flows the model covers.
- DebateOrchestrator.ContextFor: `conversation_history` is always empty, as in `_get_conversation_context`; the conversation is not read.
- Messages.Message.Preview: models `__str__` of a message only. `__repr__` of messages, conversations, ids and the adapter is not modelled, and neither is `Conversation.__str__`. These are debug renderings that nothing in the core reads.
- HTTP routing, FastAPI dependency injection, settings and middleware are outside the core. So is the mapping of exceptions to HTTP status codes.
- DebateOrchestrator.GenerateBotResponse: `hasattr(conversation, 'bot_personality_type')` is always true for a conversation, so the model drops that test.
- The `ErrorResponse` and `HealthResponse` schemas (chat_schemas.py:146-183) are not modelled: they only declare fields and have no validators.
- DomainExceptions.NewDomainException: `DebateGenerationException`, `ConversationAlreadyExistsException` and `AdapterException` are modelled as exception values with their messages and codes, but nothing in the core raises them.
- DebateOrchestrator.Strategy: a persona missing from `_personalities` cannot happen, because the dictionary has all three, so no `KeyError` branch is modelled.

## Findings

| source | as written | input that shows it | evidently intended | confidence | as-written member | corrected member |
|---|---|---|---|---|---|---|
| src/application/use_cases/start_conversation.py:136-143 | `_validate_request` calls `self._debate_orchestrator.get_available_personalities()`, which `DebateOrchestrator` (src/domain/services/debate_orchestrator.py:17-103) does not define. The `AttributeError` is caught at start_conversation.py:111-115 and re-raised as a `UseCaseException`. | message "Vaccines are safe" with preferred persona Populist: `execute` fails with `UseCaseException("Failed to start conversation: 'DebateOrchestrator' object has no attribute 'get_available_personalities'", "StartConversation")` and nothing is saved | every `PersonalityType` is available, so a valid message with any preferred persona starts the conversation | not executed | `StartConversation.ValidateAsWritten` / `StartConversation.PreferredPersonaFailsAsWritten` / `StartConversation.ExecuteAsWritten` | `StartConversation.Validate` / `StartConversation.PersonaNeverRejected` / `StartConversation.Execute` |
| src/application/use_cases/continue_debate.py:153-160 | the same call to the missing `get_available_personalities`. Its `AttributeError` is caught at continue_debate.py:117-121 and re-raised as a `UseCaseException` of "ContinueDebate". | a stored conversation's id, message "Vaccines are safe" and preferred persona Populist: `execute` fails with the "ContinueDebate" use-case error naming the missing method, and the conversation is not touched | every `PersonalityType` is available, so the preference is accepted (and the stored persona still answers) | not executed | `ContinueDebate.ValidateAsWritten` / `ContinueDebate.PreferredPersonaFailsAsWritten` / `ContinueDebate.ExecuteAsWritten` | `ContinueDebate.Validate` / `ContinueDebate.PersonaNeverRejected` / `ContinueDebate.Execute` |
