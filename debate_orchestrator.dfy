/**
 * The debate orchestrator: resolves which persona answers (a valid stored tag
 * first, then a valid preferred tag, else first-match topic selection with a
 * random fallback), records the persona on a conversation that has none, and
 * hands that persona a context built from the text it was given.
 */
module DebateOrchestrator {
  import opened Wrappers
  import opened Text
  import opened Messages
  import opened Conversations
  import opened DebateStrategy
  import Conspiracy = ConspiracyTheoristStrategy
  import Scientist = SkepticalScientistStrategy
  import PopulistPersona = PopulistStrategy

  const GeneralDiscussion := "general discussion"
  const TopicLength := 100

  const HealthTopicWords := ["vaccine", "vaccination", "pharma", "medicine", "health", "immunity"]
  const ClimateTopicWords := ["climate", "warming", "carbon", "environment", "green", "fossil"]
  const PopulistTopicWords := ["economic", "capitalism", "market", "business", "job", "worker", "education", "immigration", "elite"]

  /** The selection groups in test order; group `g` selects `Personalities[g]`. */
  const TopicGroups: seq<seq<string>> := [HealthTopicWords, ClimateTopicWords, PopulistTopicWords]

  /**
   * `_select_personality_by_topic(text)`: the persona of the first group with a
   * word in `text`; `fallback` (the caller's `random.choice`) when none has one.
   */
  function SelectByTopic(text: string, fallback: PersonalityType): (p: PersonalityType)
    ensures FirstGroup(TopicGroups, text).Some? ==> p == Personalities[FirstGroup(TopicGroups, text).value]
    ensures FirstGroup(TopicGroups, text).None? ==> p == fallback
  {
    AnyInHits(HealthTopicWords, text);
    AnyInHits(ClimateTopicWords, text);
    AnyInHits(PopulistTopicWords, text);
    if AnyIn(HealthTopicWords, text) then ConspiracyTheorist
    else if AnyIn(ClimateTopicWords, text) then FirstGroupAt(TopicGroups, 0, 1, text); SkepticalScientist
    else if AnyIn(PopulistTopicWords, text) then FirstGroupAt(TopicGroups, 0, 2, text); Populist
    else FirstGroupSkips(TopicGroups, 0, 3, text); fallback
  }

  /** `str(user_message) if user_message else "general discussion"`: a message stands for its preview. */
  function WorkingText(userMessage: Option<Message>): string {
    match userMessage
    case Some(m) => m.Preview()
    case None => GeneralDiscussion
  }

  /** Python truthiness of an optional string: present and non-empty. */
  predicate Truthy(s: Option<string>) {
    s.Some? && s.value != ""
  }

  /**
   * The persona `generate_bot_response` uses: a non-empty stored tag decides
   * alone (topic selection when it is not a valid tag); otherwise a non-empty
   * preferred tag (topic selection when it is not valid); otherwise topic selection.
   */
  function ResolvePersonality(stored: Option<string>, preferred: Option<string>, text: string, fallback: PersonalityType): PersonalityType {
    if Truthy(stored) then
      match ParsePersonality(stored.value)
      case Some(p) => p
      case None => SelectByTopic(text, fallback)
    else if Truthy(preferred) then
      match ParsePersonality(preferred.value)
      case Some(p) => p
      case None => SelectByTopic(text, fallback)
    else SelectByTopic(text, fallback)
  }

  /** The tag a conversation holds after the call: kept when non-empty, else the resolved persona's. */
  function KeptTag(stored: Option<string>, p: PersonalityType): Option<string> {
    if Truthy(stored) then stored else Some(p.Tag())
  }

  /** `_get_opposing_stance`: a fixed stance tag per persona. */
  function OpposingStance(p: PersonalityType): (s: string)
    ensures s == "skeptical_of_mainstream_narrative" <==> p == ConspiracyTheorist
    ensures s == "methodologically_critical" <==> p == SkepticalScientist
    ensures s == "pro_common_people_anti_elite" <==> p == Populist
  {
    match p
    case ConspiracyTheorist => "skeptical_of_mainstream_narrative"
    case SkepticalScientist => "methodologically_critical"
    case Populist => "pro_common_people_anti_elite"
  }

  /**
   * The context handed to the persona: `_extract_topic` keeps the first 100
   * characters, `_get_conversation_context` is always empty.
   */
  function ContextFor(text: string, p: PersonalityType): (ctx: DebateContext)
    ensures ctx.userMessage == text && ctx.botStance == OpposingStance(p) && ctx.conversationHistory == []
    ensures |ctx.topic| == (if |text| <= TopicLength then |text| else TopicLength) && ctx.topic == text[..|ctx.topic|]
  {
    DebateContext(Take(text, TopicLength), text, OpposingStance(p), [])
  }

  /** `self._personalities[p].generate_response(ctx)`. */
  function Strategy(p: PersonalityType, ctx: DebateContext, pick: nat): (r: Reply)
    requires pick < 3
    ensures r.persona == p
  {
    match p
    case ConspiracyTheorist => Conspiracy.Respond(ctx, pick)
    case SkepticalScientist => Scientist.Respond(ctx, pick)
    case Populist => PopulistPersona.Respond(ctx, pick)
  }

  /** `get_initial_stance(topic)`: the stance of the persona the caller's random choice names; it mentions the topic. */
  function InitialStance(chosen: PersonalityType, topic: string): (s: string)
    ensures Contains(s, topic)
  {
    match chosen
    case ConspiracyTheorist => Conspiracy.InitialStance(topic)
    case SkepticalScientist => Scientist.InitialStance(topic)
    case Populist => PopulistPersona.InitialStance(topic)
  }

  /** The reply `generate_bot_response` returns for a stored tag, a message and a preferred tag. */
  function BotReply(stored: Option<string>, userMessage: Option<Message>, preferred: Option<string>, fallback: PersonalityType, pick: nat): Reply
    requires pick < 3
  {
    var text := WorkingText(userMessage);
    var p := ResolvePersonality(stored, preferred, Lower(text), fallback);
    Strategy(p, ContextFor(text, p), pick)
  }

  /**
   * `generate_bot_response(conversation, user_message, preferred_personality)`.
   * `fallback` is the persona `random.choice` would pick and `pick` the
   * template a persona's `random.choice` would pick. The persona is written to
   * the conversation only when its tag is empty.
   */
  method GenerateBotResponse(conversation: Conversation?, userMessage: Option<Message>, preferred: Option<string>,
                             fallback: PersonalityType, pick: nat) returns (r: Reply)
    requires pick < 3
    modifies conversation
    ensures conversation == null ==> r == BotReply(None, userMessage, preferred, fallback, pick)
    ensures conversation != null ==> r == BotReply(old(conversation.botPersonalityType), userMessage, preferred, fallback, pick)
    ensures conversation != null ==> conversation.botPersonalityType == KeptTag(old(conversation.botPersonalityType), r.persona)
    ensures conversation != null ==> conversation.messages == old(conversation.messages)
    ensures conversation != null ==> conversation.topic == old(conversation.topic) && conversation.botPosition == old(conversation.botPosition)
    ensures conversation != null && old(conversation.Valid()) ==> conversation.Valid()
  {
    var text := WorkingText(userMessage);
    var low := Lower(text);
    var stored: Option<string> := None;
    if conversation != null {
      stored := conversation.botPersonalityType;
    }
    var p: PersonalityType;
    if Truthy(stored) {
      var parsed := ParsePersonality(stored.value);
      if parsed.Some? {
        p := parsed.value;
      } else {
        p := SelectByTopic(low, fallback);
      }
    } else if Truthy(preferred) {
      var parsed := ParsePersonality(preferred.value);
      if parsed.Some? {
        p := parsed.value;
      } else {
        p := SelectByTopic(low, fallback);
      }
    } else {
      p := SelectByTopic(low, fallback);
    }
    if conversation != null && !Truthy(conversation.botPersonalityType) {
      conversation.SetBotPersonalityType(p.Tag());
    }
    r := Strategy(p, ContextFor(text, p), pick);
  }

  // ---------------------------------------------------------------------------
  // Properties

  /** A valid stored tag decides the persona, whatever is preferred or said, and is kept. */
  lemma StoredPersonaWins(p: PersonalityType, userMessage: Option<Message>, preferred: Option<string>, fallback: PersonalityType, pick: nat)
    requires pick < 3
    ensures BotReply(Some(p.Tag()), userMessage, preferred, fallback, pick).persona == p
    ensures KeptTag(Some(p.Tag()), p) == Some(p.Tag())
  {
    TagRoundTrip(p, p.Tag());
  }

  /**
   * Once a conversation has been answered, every later answer comes from the
   * same persona and the tag never changes again, whatever is preferred or said.
   */
  lemma {:induction false} PersonaStaysFixed(
    stored: Option<string>, m1: Option<Message>, pref1: Option<string>, fb1: PersonalityType, pick1: nat,
    m2: Option<Message>, pref2: Option<string>, fb2: PersonalityType, pick2: nat)
    requires pick1 < 3 && pick2 < 3
    requires !Truthy(stored)
    ensures var r1 := BotReply(stored, m1, pref1, fb1, pick1);
      var tag := KeptTag(stored, r1.persona);
      BotReply(tag, m2, pref2, fb2, pick2).persona == r1.persona && KeptTag(tag, r1.persona) == tag
  {
    var r1 := BotReply(stored, m1, pref1, fb1, pick1);
    StoredPersonaWins(r1.persona, m2, pref2, fb2, pick2);
  }

  /** A non-empty stored tag that names no persona is not overwritten, and the preferred tag is ignored for it. */
  lemma InvalidStoredTagFallsToTopic(stored: Option<string>, preferred: Option<string>, text: string, fallback: PersonalityType)
    requires Truthy(stored) && ParsePersonality(stored.value).None?
    ensures ResolvePersonality(stored, preferred, text, fallback) == SelectByTopic(text, fallback)
    ensures forall p :: KeptTag(stored, p) == stored
  {
  }

  /** Without a stored tag, a valid preferred tag decides; an invalid one falls to topic selection without failing. */
  lemma PreferredUsedWithoutStoredTag(stored: Option<string>, preferred: string, text: string, fallback: PersonalityType)
    requires !Truthy(stored) && preferred != ""
    ensures ParsePersonality(preferred).Some? ==> ResolvePersonality(stored, Some(preferred), text, fallback) == ParsePersonality(preferred).value
    ensures ParsePersonality(preferred).None? ==> ResolvePersonality(stored, Some(preferred), text, fallback) == SelectByTopic(text, fallback)
  {
  }

  /** A message's context is its preview, whole: the preview is shorter than the 100-character topic cut. */
  lemma MessageContextIsPreview(m: Message, p: PersonalityType)
    ensures ContextFor(WorkingText(Some(m)), p).topic == m.Preview()
    ensures ContextFor(WorkingText(Some(m)), p).userMessage == m.Preview()
  {
    PreviewBounds(m);
  }

  /** Every reply makes a valid message content, so the bot message built from it always succeeds and keeps it verbatim. */
  lemma ReplyIsValidContent(stored: Option<string>, userMessage: Option<Message>, preferred: Option<string>, fallback: PersonalityType, pick: nat)
    requires pick < 3
    ensures ValidContent(ReplyText(BotReply(stored, userMessage, preferred, fallback, pick)))
  {
    var text := WorkingText(userMessage);
    var p := ResolvePersonality(stored, preferred, Lower(text), fallback);
    var ctx := ContextFor(text, p);
    var r := Strategy(p, ctx, pick);
    match p {
      case ConspiracyTheorist =>
        assert r == Conspiracy.Respond(ctx, pick);
        assert r.Paragraph? ==> r.group < |Conspiracy.Groups|;
      case SkepticalScientist =>
        assert r == Scientist.Respond(ctx, pick);
        assert r.Paragraph? ==> r.group < |Scientist.Groups|;
      case Populist =>
        assert r == PopulistPersona.Respond(ctx, pick);
        assert r.Paragraph? ==> r.group < |PopulistPersona.Groups|;
    }
    ReplyTextIsValidContent(r);
  }

  // ---------------------------------------------------------------------------
  // Topic selection sees only the start of a message

  /** The characters of the role tag and of the trailing dots of a preview. */
  const MarkerAlphabet: set<char> := {'[', ']', ':', ' ', '.', 'u', 's', 'e', 'r', 'b', 'o', 't'}

  /** A keyword that cannot run into the role tag or the dots of a preview, nor sit inside them. */
  predicate PlainTopicWord(w: string) {
    ' ' !in w && '.' !in w && exists k :: 0 <= k < |w| && w[k] !in MarkerAlphabet
  }

  /** Around the first 50 characters, the preview's tag and dots neither add nor remove a plain keyword. */
  lemma PreviewKeepsWord(m: Message, w: string)
    requires PlainTopicWord(w)
    ensures Contains(Lower(m.Preview()), w) <==> Contains(Lower(Take(m.content, PreviewLength)), w)
  {
    var tag := "[" + Upper(m.role.Value()) + "]: ";
    var body := Take(m.content, PreviewLength);
    assert m.Preview() == tag + body + "...";
    LowerAppend(tag + body, "...");
    LowerAppend(tag, body);
    var lt, ld := Lower(tag), Lower("...");
    assert ld == "...";
    forall i | 0 <= i < |lt|
      ensures lt[i] in MarkerAlphabet
    {
      assert lt[i] == LowerChar(tag[i]);
    }
    var k :| 0 <= k < |w| && w[k] !in MarkerAlphabet;
    NotContainsForeign(lt, w, k, MarkerAlphabet);
    NotContainsForeign(ld, w, k, MarkerAlphabet);
    assert lt[|lt| - 1] == ' ' && ld[0] == '.';
    ContainsBetween(lt, Lower(body), ld, w);
  }

  lemma HitsOfPreview(m: Message, words: seq<string>)
    requires forall i :: 0 <= i < |words| ==> PlainTopicWord(words[i])
    ensures Hits(words, Lower(m.Preview())) <==> Hits(words, Lower(Take(m.content, PreviewLength)))
  {
    forall i | 0 <= i < |words|
      ensures Contains(Lower(m.Preview()), words[i]) <==> Contains(Lower(Take(m.content, PreviewLength)), words[i])
    {
      PreviewKeepsWord(m, words[i]);
    }
  }

  /**
   * Topic selection on a message sees exactly its first 50 characters: the
   * role tag and the dots of `str(message)` change nothing, and nothing after
   * character 50 is looked at.
   */
  lemma SelectionSeesFirstFiftyCharacters(m: Message, fallback: PersonalityType)
    ensures SelectByTopic(Lower(WorkingText(Some(m))), fallback) == SelectByTopic(Lower(Take(m.content, PreviewLength)), fallback)
  {
    PlainHealthTopicWords();
    PlainClimateTopicWords();
    PlainPopulistTopicWords();
    HitsOfPreview(m, HealthTopicWords);
    HitsOfPreview(m, ClimateTopicWords);
    HitsOfPreview(m, PopulistTopicWords);
    FirstGroupAgrees(TopicGroups, 0, Lower(m.Preview()), Lower(Take(m.content, PreviewLength)));
  }

  /**
   * So a message whose first 50 characters hold no keyword gets the random
   * persona, whatever keywords follow: with 50 characters drawn from the tag's
   * letters and spaces, "vaccine" at position 51 is never seen.
   */
  lemma LateKeywordsAreIgnored(m: Message, fallback: PersonalityType)
    requires |m.content| >= PreviewLength
    requires forall i :: 0 <= i < PreviewLength ==> m.content[i] in MarkerAlphabet
    ensures SelectByTopic(Lower(WorkingText(Some(m))), fallback) == fallback
  {
    SelectionSeesFirstFiftyCharacters(m, fallback);
    var body := Lower(Take(m.content, PreviewLength));
    forall i | 0 <= i < |body|
      ensures body[i] in MarkerAlphabet
    {
      assert body[i] == LowerChar(m.content[i]);
    }
    PlainHealthTopicWords();
    PlainClimateTopicWords();
    PlainPopulistTopicWords();
    forall g, i | 0 <= g < |TopicGroups| && 0 <= i < |TopicGroups[g]|
      ensures !Contains(body, TopicGroups[g][i])
    {
      var w := TopicGroups[g][i];
      assert PlainTopicWord(w);
      var k :| 0 <= k < |w| && w[k] !in MarkerAlphabet;
      NotContainsForeign(body, w, k, MarkerAlphabet);
    }
  }

  lemma PlainHealthTopicWords()
    ensures forall i :: 0 <= i < |HealthTopicWords| ==> PlainTopicWord(HealthTopicWords[i])
  {
    forall i | 0 <= i < |HealthTopicWords|
      ensures PlainTopicWord(HealthTopicWords[i])
    {
      if i == 0 {
        assert HealthTopicWords[0][0] !in MarkerAlphabet;
      } else if i == 1 {
        assert HealthTopicWords[1][0] !in MarkerAlphabet;
      } else if i == 2 {
        assert HealthTopicWords[2][0] !in MarkerAlphabet;
      } else if i == 3 {
        assert HealthTopicWords[3][0] !in MarkerAlphabet;
      } else if i == 4 {
        assert HealthTopicWords[4][0] !in MarkerAlphabet;
      } else {
        assert HealthTopicWords[5][0] !in MarkerAlphabet;
      }
    }
  }

  lemma PlainClimateTopicWords()
    ensures forall i :: 0 <= i < |ClimateTopicWords| ==> PlainTopicWord(ClimateTopicWords[i])
  {
    forall i | 0 <= i < |ClimateTopicWords|
      ensures PlainTopicWord(ClimateTopicWords[i])
    {
      if i == 0 {
        assert ClimateTopicWords[0][0] !in MarkerAlphabet;
      } else if i == 1 {
        assert ClimateTopicWords[1][0] !in MarkerAlphabet;
      } else if i == 2 {
        assert ClimateTopicWords[2][0] !in MarkerAlphabet;
      } else if i == 3 {
        assert ClimateTopicWords[3][1] !in MarkerAlphabet;
      } else if i == 4 {
        assert ClimateTopicWords[4][0] !in MarkerAlphabet;
      } else {
        assert ClimateTopicWords[5][0] !in MarkerAlphabet;
      }
    }
  }

  lemma PlainPopulistTopicWords()
    ensures forall i :: 0 <= i < |PopulistTopicWords| ==> PlainTopicWord(PopulistTopicWords[i])
  {
    forall i | 0 <= i < |PopulistTopicWords|
      ensures PlainTopicWord(PopulistTopicWords[i])
    {
      if i == 0 {
        assert PopulistTopicWords[0][1] !in MarkerAlphabet;
      } else if i == 1 {
        assert PopulistTopicWords[1][0] !in MarkerAlphabet;
      } else if i == 2 {
        assert PopulistTopicWords[2][0] !in MarkerAlphabet;
      } else if i == 3 {
        assert PopulistTopicWords[3][3] !in MarkerAlphabet;
      } else if i == 4 {
        assert PopulistTopicWords[4][0] !in MarkerAlphabet;
      } else if i == 5 {
        assert PopulistTopicWords[5][0] !in MarkerAlphabet;
      } else if i == 6 {
        assert PopulistTopicWords[6][1] !in MarkerAlphabet;
      } else if i == 7 {
        assert PopulistTopicWords[7][0] !in MarkerAlphabet;
      } else {
        assert PopulistTopicWords[8][1] !in MarkerAlphabet;
      }
    }
  }
}
