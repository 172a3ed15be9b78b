/** A single message of a debate: who said it, what was said and when. */
module Messages {
  import opened Wrappers
  import opened Text
  import opened Errors

  const MaxContentLength := 2000
  const EmptyContentError := "Message content cannot be empty"
  const LongContentError := "Message content too long (max 2000 characters)"
  /** How much of the content the short rendering `str(message)` shows. */
  const PreviewLength := 50

  datatype MessageRole = User | Bot {
    /** The role's wire value. */
    function Value(): string {
      match this
      case User => "user"
      case Bot => "bot"
    }
  }

  /** `MessageRole(value)`: the role whose wire value is `value`, if any. */
  function RoleFromValue(value: string): (r: Option<MessageRole>)
    ensures r.Some? ==> r.value.Value() == value
    ensures forall role: MessageRole :: role.Value() == value ==> r == Some(role)
  {
    if value == "user" then Some(User) else if value == "bot" then Some(Bot) else None
  }

  /** The role's wire value and the role determine each other. */
  lemma RoleValueRoundTrip(role: MessageRole)
    ensures RoleFromValue(role.Value()) == Some(role)
  {
  }

  /**
   * A message; the timestamp is the caller's clock reading, and `id` is
   * optional. Build one with `NewMessage`, which cleans and checks the content.
   */
  datatype Message = Message(role: MessageRole, content: string, timestamp: int, id: Option<string>)
  {
    /** What every constructed message satisfies. */
    predicate Valid() {
      ValidContent(content)
    }

    predicate IsFromUser() {
      role == User
    }

    predicate IsFromBot() {
      role == Bot
    }

    /** `len(content.split())`: the number of maximal runs of non-whitespace characters. */
    function WordCount(): (n: nat)
      ensures n == WordStarts(content, true)
    {
      SplitCountsWordStarts(content);
      |Split(content)|
    }

    /** Whether some keyword occurs in the content, ignoring ASCII letter case on both sides. */
    function ContainsKeywords(keywords: seq<string>): (b: bool)
      ensures b <==> exists i :: 0 <= i < |keywords| && Contains(Lower(content), Lower(keywords[i]))
    {
      AnyInLowered(keywords, Lower(content))
    }

    /** `to_dict()`: the two fields the wire format carries. */
    function ToDict(): (d: map<string, string>)
      ensures d.Keys == {"role", "message"}
      ensures RoleFromValue(d["role"]) == Some(role) && d["message"] == content
    {
      map["role" := role.Value(), "message" := content]
    }

    /** `str(message)`: the role in capitals, then at most the first 50 characters of the content. */
    function Preview(): string {
      "[" + Upper(role.Value()) + "]: " + Take(content, PreviewLength) + "..."
    }
  }

  /**
   * A message content as stored: non-empty, neither starting nor ending with
   * whitespace (so stripping leaves it as it is), and at most 2000 characters.
   */
  predicate ValidContent(content: string) {
    && content != [] && !IsSpace(content[0]) && !IsSpace(content[|content| - 1])
    && |content| <= MaxContentLength
  }

  /** A valid content is its own stripped form, and is not blank. */
  lemma ValidContentIsStripped(content: string)
    requires ValidContent(content)
    ensures Strip(content) == content && !IsBlank(content)
  {
    StripUnpadded(content);
  }

  /** Whether some lowered keyword occurs in `text`, scanning the keywords in order. */
  function AnyInLowered(keywords: seq<string>, text: string): (b: bool)
    ensures b <==> exists i :: 0 <= i < |keywords| && Contains(text, Lower(keywords[i]))
  {
    if |keywords| == 0 then false
    else if Contains(text, Lower(keywords[0])) then true
    else
      var rest := AnyInLowered(keywords[1..], text);
      assert forall i :: 1 <= i < |keywords| ==> keywords[i] == keywords[1..][i - 1];
      rest
  }

  /**
   * `Message(role, content, timestamp, id)`: fails with a `ValueError` when the
   * content is blank or longer than 2000 once stripped; otherwise the message
   * holds the stripped content.
   */
  function NewMessage(role: MessageRole, content: string, timestamp: int, id: Option<string>): (r: Result<Message, Error>)
    ensures r.Success? <==> !IsBlank(content) && |Strip(content)| <= MaxContentLength
    ensures r.Success? ==> r.value.Valid() && r.value == Message(role, Strip(content), timestamp, id)
    ensures r.Failure? && IsBlank(content) ==> r.error == ValueError(EmptyContentError)
    ensures r.Failure? && !IsBlank(content) ==> r.error == ValueError(LongContentError)
  {
    if content == [] || IsBlank(content) then
      Failure(ValueError(EmptyContentError))
    else if |Strip(content)| > MaxContentLength then
      Failure(ValueError(LongContentError))
    else
      StripIsSlice(content);
      Success(Message(role, Strip(content), timestamp, id))
  }

  /** Building a message from a stored message's content gives back that message: cleaning is idempotent. */
  lemma NewMessageIdempotent(m: Message)
    requires m.Valid()
    ensures NewMessage(m.role, m.content, m.timestamp, m.id) == Success(m)
  {
    ValidContentIsStripped(m.content);
  }

  /** A content is accepted exactly when its stripped form is accepted, and both give the same message. */
  lemma NewMessageIgnoresPadding(role: MessageRole, content: string, timestamp: int, id: Option<string>)
    ensures NewMessage(role, content, timestamp, id) == NewMessage(role, Strip(content), timestamp, id)
  {
    StripIdempotent(content);
  }

  /** Every message is from exactly one side. */
  lemma ExactlyOneSide(m: Message)
    ensures m.IsFromUser() != m.IsFromBot()
  {
  }

  /** Keyword matching ignores the letter case of the keywords. */
  lemma {:induction false} KeywordCaseIgnored(m: Message, keywords: seq<string>)
    ensures m.ContainsKeywords(keywords) == m.ContainsKeywords(UpperAll(keywords))
  {
    forall i | 0 <= i < |keywords|
      ensures Lower(UpperAll(keywords)[i]) == Lower(keywords[i])
    {
      LowerOfUpper(keywords[i]);
    }
  }

  function UpperAll(words: seq<string>): (r: seq<string>)
    ensures |r| == |words| && forall i :: 0 <= i < |words| ==> r[i] == Upper(words[i])
  {
    seq(|words|, i requires 0 <= i < |words| => Upper(words[i]))
  }

  /** Lower-casing forgets any earlier upper-casing. */
  lemma LowerOfUpper(s: string)
    ensures Lower(Upper(s)) == Lower(s)
  {
  }

  /** The short rendering is at most 61 characters and shows the whole content when it is short. */
  lemma PreviewBounds(m: Message)
    ensures |m.Preview()| <= 8 + PreviewLength + 3
    ensures |m.content| <= PreviewLength ==>
      var tag := "[" + Upper(m.role.Value()) + "]: ";
      m.Preview() == tag + m.content + "..."
  {
  }
}
