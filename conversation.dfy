/**
 * The conversation aggregate: an ordered message history capped at the most
 * recent `2 * maxHistory` messages, and a topic and contrarian position fixed
 * by the first user message.
 */
module Conversations {
  import opened Wrappers
  import opened Text
  import opened Errors
  import opened Messages
  import opened ConversationIds

  const DefaultMaxHistory := 5
  const MaxHistoryError := "max_history must be at least 1"
  const DefaultTopic := "general debate topic"
  const DefaultPosition := "devil's advocate contrarian"

  // ---------------------------------------------------------------------------
  // Topic and position tables

  /** The topic keywords, in the order they are tried, each with the topic it names. */
  const TopicTable: seq<(string, string)> := [
    ("vaccine", "vaccines and public health"),
    ("climate", "climate change"),
    ("earth", "earth shape and geography"),
    ("government", "government and politics"),
    ("health", "health and medicine"),
    ("technology", "technology and society"),
    ("education", "education system"),
    ("economy", "economic policies"),
    ("science", "scientific methodology")
  ]

  /** The contrarian position the bot takes on each known topic. */
  const PositionTable: seq<(string, string)> := [
    ("vaccines and public health", "anti-vaccination and natural immunity advocate"),
    ("climate change", "climate change skeptic"),
    ("earth shape and geography", "flat earth proponent"),
    ("government and politics", "anti-establishment libertarian"),
    ("health and medicine", "alternative medicine advocate"),
    ("technology and society", "technology skeptic"),
    ("education system", "homeschooling and alternative education advocate"),
    ("economic policies", "free market absolutist"),
    ("scientific methodology", "traditional wisdom and intuition advocate")
  ]

  /** The index of the first table entry whose keyword occurs in `text`. */
  function FirstMatch(table: seq<(string, string)>, text: string): (r: Option<nat>)
    ensures r.Some? ==> r.value < |table| && Contains(text, table[r.value].0)
    ensures r.Some? ==> forall j :: 0 <= j < r.value ==> !Contains(text, table[j].0)
    ensures r.None? ==> forall j :: 0 <= j < |table| ==> !Contains(text, table[j].0)
  {
    if |table| == 0 then None
    else if Contains(text, table[0].0) then Some(0)
    else
      var rest := FirstMatch(table[1..], text);
      assert forall j :: 1 <= j < |table| ==> table[j] == table[1..][j - 1];
      match rest
      case None => None
      case Some(i) => Some(i + 1)
  }

  /** The topic of the first entry whose keyword occurs in `text`, trying the entries in order. */
  function TopicIn(table: seq<(string, string)>, text: string): string {
    if |table| == 0 then DefaultTopic
    else if Contains(text, table[0].0) then table[0].1
    else TopicIn(table[1..], text)
  }

  /** The topic of a first message; `IdentifyTopicChoosesFirst` states what it picks. */
  function IdentifyTopic(content: string): string {
    TopicIn(TopicTable, Lower(content))
  }

  /** The scan over the table picks the entry `FirstMatch` names. */
  lemma {:induction false} TopicInIsFirstMatch(table: seq<(string, string)>, text: string)
    ensures TopicIn(table, text) == match FirstMatch(table, text) case None => DefaultTopic case Some(i) => table[i].1
  {
    if |table| > 0 && !Contains(text, table[0].0) {
      TopicInIsFirstMatch(table[1..], text);
    }
  }

  /**
   * The topic is the topic of the first keyword, in table order, that occurs
   * in the lower-cased content; the default topic exactly when none does.
   */
  lemma IdentifyTopicChoosesFirst(content: string)
    ensures IdentifyTopic(content) == DefaultTopic <==> forall j :: 0 <= j < |TopicTable| ==> !Contains(Lower(content), TopicTable[j].0)
    ensures IdentifyTopic(content) != DefaultTopic ==> exists i :: TopicChosen(content, i) && IdentifyTopic(content) == TopicTable[i].1
  {
    TopicInIsFirstMatch(TopicTable, Lower(content));
    match FirstMatch(TopicTable, Lower(content))
    case None =>
    case Some(i) =>
      assert TopicChosen(content, i);
  }

  /** Entry `i` is the first entry of the topic table whose keyword occurs in the lower-cased content. */
  predicate TopicChosen(content: string, i: int) {
    && 0 <= i < |TopicTable|
    && Contains(Lower(content), TopicTable[i].0)
    && forall j :: 0 <= j < i ==> !Contains(Lower(content), TopicTable[j].0)
  }

  /** The value stored under `key` in an association list, or `default` (Python's `dict.get`). */
  function Lookup(table: seq<(string, string)>, key: string, default: string): string {
    if |table| == 0 then default
    else if table[0].0 == key then table[0].1
    else Lookup(table[1..], key, default)
  }

  /** The contrarian position for a topic: the table's entry, or the default one. */
  function ContrarianPosition(topic: string): string {
    Lookup(PositionTable, topic, DefaultPosition)
  }

  // ---------------------------------------------------------------------------
  // History

  /** The last `k` elements, or all of them when there are at most `k`. */
  function Cap<T>(s: seq<T>, k: nat): (r: seq<T>)
    ensures |r| == if |s| <= k then |s| else k
    ensures r == s[|s| - |r|..]
  {
    if |s| <= k then s else s[|s| - k..]
  }

  /** The index of the last message with the given role. */
  function LastIndexWith(s: seq<Message>, role: MessageRole): (r: Option<nat>)
    ensures r.Some? ==> r.value < |s| && s[r.value].role == role
    ensures r.Some? ==> forall j :: r.value < j < |s| ==> s[j].role != role
    ensures r.None? ==> forall j :: 0 <= j < |s| ==> s[j].role != role
  {
    if |s| == 0 then None
    else if s[|s| - 1].role == role then Some(|s| - 1)
    else LastIndexWith(s[..|s| - 1], role)
  }

  /** Position `i` holds the last message with the given role. */
  predicate IsLastWith(s: seq<Message>, role: MessageRole, i: int) {
    0 <= i < |s| && s[i].role == role && forall j :: i < j < |s| ==> s[j].role != role
  }

  /** How many messages have the given role. */
  function CountRole(s: seq<Message>, role: MessageRole): nat {
    if |s| == 0 then 0 else CountRole(s[..|s| - 1], role) + (if s[|s| - 1].role == role then 1 else 0)
  }

  /** Every message is a user or a bot message, so the two counts add up to the length. */
  lemma {:induction false} CountRolesCover(s: seq<Message>)
    ensures CountRole(s, User) + CountRole(s, Bot) == |s|
  {
    if |s| > 0 {
      CountRolesCover(s[..|s| - 1]);
    }
  }

  function DictsOf(s: seq<Message>): (r: seq<map<string, string>>)
    ensures |r| == |s| && forall i :: 0 <= i < |s| ==> r[i] == s[i].ToDict()
  {
    seq(|s|, i requires 0 <= i < |s| => s[i].ToDict())
  }

  class Conversation {
    const id: ConversationId
    const createdAt: int
    const maxHistory: int
    var messages: seq<Message>
    var topic: Option<string>
    var botPosition: Option<string>
    var botPersonalityType: Option<string>

    /**
     * The aggregate's invariant: a positive history size, at most
     * `2 * maxHistory` valid messages, and a position set exactly when the
     * topic is.
     */
    predicate Valid()
      reads this
    {
      && maxHistory >= 1
      && |messages| <= 2 * maxHistory
      && (forall i :: 0 <= i < |messages| ==> messages[i].Valid())
      && (topic.None? <==> botPosition.None?)
    }

    /** The position is always the contrarian position of the topic, once there is one. */
    predicate PositionFitsTopic()
      reads this
    {
      topic.Some? ==> botPosition == Some(ContrarianPosition(topic.value))
    }

    /** A new conversation; `New` is the checked entry point. */
    constructor (id: ConversationId, createdAt: int, maxHistory: int)
      requires maxHistory >= 1
      ensures Valid()
      ensures this.id == id && this.createdAt == createdAt && this.maxHistory == maxHistory
      ensures messages == [] && topic == None && botPosition == None && botPersonalityType == None
    {
      this.id := id;
      this.createdAt := createdAt;
      this.maxHistory := maxHistory;
      messages := [];
      topic := None;
      botPosition := None;
      botPersonalityType := None;
    }

    /** How many messages are kept. */
    function Capacity(): nat
      reads this
    {
      if maxHistory >= 1 then 2 * maxHistory else 0
    }

    predicate IsNew()
      reads this
    {
      |messages| == 0
    }

    function MessageCount(): (n: nat)
      reads this
      ensures n == |messages|
    {
      |messages|
    }

    /** Complete user/bot pairs: the smaller of the two role counts, so at most half the messages. */
    function ExchangeCount(): (n: nat)
      reads this
      ensures n == CountRole(messages, User) || n == CountRole(messages, Bot)
      ensures n <= CountRole(messages, User) && n <= CountRole(messages, Bot)
      ensures 2 * n <= |messages|
    {
      CountRolesCover(messages);
      var users, bots := CountRole(messages, User), CountRole(messages, Bot);
      if users <= bots then users else bots
    }

    /** The last message sent by the user, if there is one. */
    function LastUserMessage(): (r: Option<Message>)
      reads this
      ensures r.None? <==> forall j :: 0 <= j < |messages| ==> !messages[j].IsFromUser()
      ensures r.Some? ==> exists i :: IsLastWith(messages, User, i) && messages[i] == r.value
    {
      match LastIndexWith(messages, User)
      case None => None
      case Some(i) => Some(messages[i])
    }

    /** The last message sent by the bot, if there is one. */
    function LastBotMessage(): (r: Option<Message>)
      reads this
      ensures r.None? <==> forall j :: 0 <= j < |messages| ==> !messages[j].IsFromBot()
      ensures r.Some? ==> exists i :: IsLastWith(messages, Bot, i) && messages[i] == r.value
    {
      match LastIndexWith(messages, Bot)
      case None => None
      case Some(i) => Some(messages[i])
    }

    /**
     * `get_recent_messages(limit)`: the last `limit` messages when `limit` is
     * positive, every message otherwise; the limit defaults to `2 * maxHistory`.
     */
    function RecentMessages(limit: Option<int>): (r: seq<Message>)
      reads this
      ensures var k := limit.GetOr(2 * maxHistory);
        if k > 0 then |r| == (if |messages| <= k then |messages| else k) && r == messages[|messages| - |r|..]
        else r == messages
      ensures Valid() && limit.None? ==> r == messages
    {
      var k := limit.GetOr(2 * maxHistory);
      if k > 0 then Cap(messages, k) else messages
    }

    /** The kept messages in wire form, oldest first. */
    function MessagesForApi(): (r: seq<map<string, string>>)
      reads this
      ensures var recent := RecentMessages(Some(2 * maxHistory));
        |r| == |recent| && forall i :: 0 <= i < |r| ==> r[i] == recent[i].ToDict()
      ensures Valid() ==> |r| == |messages| && forall i :: 0 <= i < |r| ==> r[i] == messages[i].ToDict()
    {
      DictsOf(RecentMessages(Some(2 * maxHistory)))
    }

    /**
     * `add_user_message`: builds the message first (so bad content changes
     * nothing); on an empty conversation fixes topic and position from the raw
     * content; appends and trims the history to its most recent messages.
     */
    method AddUserMessage(content: string, timestamp: int) returns (r: Result<Message, Error>)
      requires Valid()
      modifies this`messages, this`topic, this`botPosition
      ensures Valid()
      ensures r == NewMessage(User, content, timestamp, None)
      ensures r.Failure? ==> messages == old(messages) && topic == old(topic) && botPosition == old(botPosition)
      ensures r.Success? ==> messages == Cap(old(messages) + [r.value], 2 * maxHistory)
      ensures r.Success? ==> |messages| > 0 && messages[|messages| - 1] == r.value
      ensures r.Success? && |old(messages)| == 0 ==>
        topic == Some(IdentifyTopic(content)) && botPosition == Some(ContrarianPosition(IdentifyTopic(content)))
      ensures r.Failure? || |old(messages)| > 0 ==> topic == old(topic) && botPosition == old(botPosition)
      ensures old(PositionFitsTopic()) ==> PositionFitsTopic()
      ensures botPersonalityType == old(botPersonalityType)
    {
      r := NewMessage(User, content, timestamp, None);
      if r.Failure? {
        return;
      }
      var m := r.value;
      if |messages| == 0 {
        FixTopic(content);
      }
      Append(m);
    }

    /** `_extract_topic_from_first_message`: the topic from the content, then its position. */
    method FixTopic(content: string)
      requires Valid()
      modifies this`topic, this`botPosition
      ensures Valid()
      ensures topic == Some(IdentifyTopic(content)) && botPosition == Some(ContrarianPosition(IdentifyTopic(content)))
      ensures PositionFitsTopic()
      ensures messages == old(messages) && botPersonalityType == old(botPersonalityType)
    {
      var t := IdentifyTopic(content);
      topic := Some(t);
      botPosition := Some(ContrarianPosition(t));
    }

    /** `add_bot_message`: appends and trims; topic and position are never touched. */
    method AddBotMessage(content: string, timestamp: int) returns (r: Result<Message, Error>)
      requires Valid()
      modifies this`messages
      ensures Valid()
      ensures r == NewMessage(Bot, content, timestamp, None)
      ensures r.Failure? ==> messages == old(messages)
      ensures r.Success? ==> messages == Cap(old(messages) + [r.value], 2 * maxHistory)
      ensures r.Success? ==> |messages| > 0 && messages[|messages| - 1] == r.value
      ensures topic == old(topic) && botPosition == old(botPosition) && botPersonalityType == old(botPersonalityType)
    {
      r := NewMessage(Bot, content, timestamp, None);
      if r.Failure? {
        return;
      }
      Append(r.value);
    }

    /** Appends a message, then trims the history. */
    method Append(m: Message)
      requires Valid() && m.Valid()
      modifies this`messages
      ensures Valid()
      ensures messages == Cap(old(messages) + [m], 2 * maxHistory)
      ensures |messages| > 0 && messages[|messages| - 1] == m
      ensures topic == old(topic) && botPosition == old(botPosition) && botPersonalityType == old(botPersonalityType)
    {
      CapKeepsValid(messages, m, 2 * maxHistory);
      messages := messages + [m];
      TrimHistory();
    }

    /** `_maintain_history_limit`: drops the oldest messages beyond `2 * maxHistory`. */
    method TrimHistory()
      requires maxHistory >= 1
      modifies this`messages
      ensures messages == Cap(old(messages), 2 * maxHistory)
    {
      if |messages| <= maxHistory * 2 {
        return;
      }
      var excess := |messages| - maxHistory * 2;
      if excess > 0 {
        messages := messages[excess..];
      }
    }

    /** Sets the persona tag the orchestrator keeps for the conversation. */
    method SetBotPersonalityType(tag: string)
      modifies this`botPersonalityType
      ensures botPersonalityType == Some(tag)
    {
      botPersonalityType := Some(tag);
    }
  }

  /** `Conversation(id, created_at, max_history=…)`: fails with a `ValueError` when `max_history < 1`. */
  method New(id: ConversationId, createdAt: int, maxHistory: int) returns (r: Result<Conversation, Error>)
    ensures r.Success? <==> maxHistory >= 1
    ensures r.Failure? ==> r.error == ValueError(MaxHistoryError)
    ensures r.Success? ==> fresh(r.value) && r.value.Valid() && r.value.IsNew()
    ensures r.Success? ==> r.value.id == id && r.value.createdAt == createdAt && r.value.maxHistory == maxHistory
    ensures r.Success? ==> r.value.topic.None? && r.value.botPosition.None? && r.value.botPersonalityType.None?
  {
    if maxHistory < 1 {
      return Failure(ValueError(MaxHistoryError));
    }
    var c := new Conversation(id, createdAt, maxHistory);
    return Success(c);
  }

  // ---------------------------------------------------------------------------
  // Properties

  /**
   * Trimming after every append keeps exactly the most recent messages: if the
   * history so far is the cap of everything appended, one more append and trim
   * gives the cap of everything appended including the new message.
   */
  lemma {:induction false} CapAppend<T>(s: seq<T>, t: seq<T>, k: nat)
    ensures Cap(Cap(s, k) + t, k) == Cap(s + t, k)
  {
    var c := Cap(s, k);
    var lhs, rhs := Cap(c + t, k), Cap(s + t, k);
    assert |lhs| == |rhs|;
    forall i | 0 <= i < |lhs|
      ensures lhs[i] == rhs[i]
    {
      var n := |lhs|;
      assert lhs[i] == (c + t)[|c + t| - n + i];
      assert rhs[i] == (s + t)[|s + t| - n + i];
      if |c + t| - n + i < |c| {
        assert (c + t)[|c + t| - n + i] == c[|c + t| - n + i] == s[|s| - |c| + |c + t| - n + i];
      }
    }
  }

  /** Appending a valid message to valid messages and capping gives valid messages, the new one last. */
  lemma CapKeepsValid(s: seq<Message>, m: Message, k: nat)
    requires k >= 1 && m.Valid() && forall i :: 0 <= i < |s| ==> s[i].Valid()
    ensures var c := Cap(s + [m], k);
      |c| <= k && |c| > 0 && c[|c| - 1] == m && forall i :: 0 <= i < |c| ==> c[i].Valid()
  {
    var c := Cap(s + [m], k);
    forall i | 0 <= i < |c|
      ensures c[i].Valid()
    {
      assert c[i] == (s + [m])[|s| + 1 - |c| + i];
    }
  }

  /** A capped history never exceeds the cap and is never longer than what was appended. */
  lemma CapBounds<T>(s: seq<T>, k: nat)
    ensures |Cap(s, k)| <= k && |Cap(s, k)| <= |s|
    ensures |s| <= k ==> Cap(s, k) == s
  {
  }

  /** Every keyword of the topic table is non-empty and free of whitespace. */
  lemma TopicKeywordsArePlain()
    ensures forall j :: 0 <= j < |TopicTable| ==> |TopicTable[j].0| > 0 && NoSpace(TopicTable[j].0)
  {
  }

  lemma {:induction false} FirstMatchIgnoresPadding(table: seq<(string, string)>, content: string)
    requires forall j :: 0 <= j < |table| ==> |table[j].0| > 0 && NoSpace(table[j].0)
    ensures FirstMatch(table, Lower(content)) == FirstMatch(table, Lower(Strip(content)))
  {
    if |table| > 0 {
      ContainsLowerStripped(content, table[0].0);
      FirstMatchIgnoresPadding(table[1..], content);
    }
  }

  /**
   * The topic is taken from the raw content, not the stored (stripped) one;
   * that gives the same topic, since no keyword contains whitespace.
   */
  lemma TopicIgnoresPadding(content: string)
    ensures IdentifyTopic(content) == IdentifyTopic(Strip(content))
  {
    TopicKeywordsArePlain();
    FirstMatchIgnoresPadding(TopicTable, content);
    TopicInIsFirstMatch(TopicTable, Lower(content));
    TopicInIsFirstMatch(TopicTable, Lower(Strip(content)));
  }

  /** Looking a key up finds the first entry with that key, or the default when no entry has it. */
  lemma {:induction false} LookupFinds(table: seq<(string, string)>, key: string, default: string)
    ensures (forall j :: 0 <= j < |table| ==> table[j].0 != key) ==> Lookup(table, key, default) == default
    ensures forall i :: 0 <= i < |table| && table[i].0 == key && (forall j :: 0 <= j < i ==> table[j].0 != key) ==>
      Lookup(table, key, default) == table[i].1
  {
    if |table| > 0 {
      LookupFinds(table[1..], key, default);
      assert forall j :: 1 <= j < |table| ==> table[j] == table[1..][j - 1];
    }
  }

  /**
   * The two tables line up: the `i`-th topic keyword names the `i`-th topic of
   * the position table, and no known position is the default one.
   */
  lemma TablesLineUp()
    ensures |TopicTable| == |PositionTable|
    ensures forall i :: 0 <= i < |TopicTable| ==> TopicTable[i].1 == PositionTable[i].0
    ensures forall i :: 0 <= i < |PositionTable| ==> PositionTable[i].1 != DefaultPosition
    ensures forall i :: 0 <= i < |PositionTable| ==> PositionTable[i].0 != DefaultTopic
  {
  }

  /** Every topic the table can name gets its own position; only the default topic gets the default position. */
  lemma PositionDefaultIffTopicDefault(content: string)
    ensures ContrarianPosition(IdentifyTopic(content)) == DefaultPosition <==> IdentifyTopic(content) == DefaultTopic
  {
    var t := IdentifyTopic(content);
    IdentifyTopicChoosesFirst(content);
    TablesLineUp();
    LookupFinds(PositionTable, t, DefaultPosition);
    if t != DefaultTopic {
      var i :| TopicChosen(content, i) && t == TopicTable[i].1;
      var k := FirstKeyIndex(PositionTable, t, i);
      assert ContrarianPosition(t) == PositionTable[k].1;
    }
  }

  /** The first index whose key is `key`, below a given index that has it. */
  function FirstKeyIndex(table: seq<(string, string)>, key: string, bound: nat): (k: nat)
    requires bound < |table| && table[bound].0 == key
    ensures k <= bound && table[k].0 == key && forall j :: 0 <= j < k ==> table[j].0 != key
  {
    if bound == 0 || (forall j :: 0 <= j < bound ==> table[j].0 != key) then bound
    else
      var j :| 0 <= j < bound && table[j].0 == key;
      FirstKeyIndex(table, key, j)
  }

  /** An example of `IdentifyTopicChoosesFirst` on one message: a message mentioning vaccines gets the vaccine topic. */
  lemma VaccineTopicExample()
    ensures IdentifyTopic("I think vaccines are safe and effective") == "vaccines and public health"
  {
    var s := "I think vaccines are safe and effective";
    var low := Lower(s);
    var w := low[8..15];
    forall k | 0 <= k < 7
      ensures w[k] == "vaccine"[k]
    {
      assert w[k] == LowerChar(s[8 + k]);
    }
    assert w == "vaccine";
    assert OccursAt(low, "vaccine", 8);
    ContainsIffOccurs(low, "vaccine");
  }
}
