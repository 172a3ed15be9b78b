/**
 * The vocabulary every debate persona shares: the three personality types and
 * their tags, the context a persona answers, the shape of a reply, and the
 * first-match keyword selection all the rule tables use.
 */
module DebateStrategy {
  import opened Wrappers
  import opened Text
  import opened Messages

  const ConspiracyTag := "conspiracy_theorist"
  const ScientistTag := "skeptical_scientist"
  const PopulistTag := "populist"

  /** `PersonalityType`: exactly three members, each with its string tag. */
  datatype PersonalityType = ConspiracyTheorist | SkepticalScientist | Populist {
    function Tag(): string {
      match this
      case ConspiracyTheorist => ConspiracyTag
      case SkepticalScientist => ScientistTag
      case Populist => PopulistTag
    }
  }

  /** `list(PersonalityType)`: the members in declaration order. */
  const Personalities: seq<PersonalityType> := [ConspiracyTheorist, SkepticalScientist, Populist]

  /** `PersonalityType(tag)`: the member with that tag, or `None` where Python raises `ValueError`. */
  function ParsePersonality(tag: string): (r: Option<PersonalityType>)
    ensures r.Some? <==> tag == ConspiracyTag || tag == ScientistTag || tag == PopulistTag
    ensures r.Some? ==> r.value.Tag() == tag
  {
    if tag == ConspiracyTag then Some(ConspiracyTheorist)
    else if tag == ScientistTag then Some(SkepticalScientist)
    else if tag == PopulistTag then Some(Populist)
    else None
  }

  /** `DebateContext`: a plain record. */
  datatype DebateContext = DebateContext(topic: string, userMessage: string, botStance: string, conversationHistory: seq<string>)

  /**
   * A persona's answer, as the branch that produced it: a fixed paragraph
   * (the keyword group it answers, in the persona's test order, and the
   * sub-branch inside that group), or one of the three fallback templates
   * with the topic filled in.
   */
  datatype Reply =
    | Paragraph(persona: PersonalityType, group: nat, variant: nat)
    | Template(persona: PersonalityType, index: nat, topic: string)

  /**
   * The text that stands for a reply in the conversation. It names the branch
   * and carries the topic of a template, as the real templates do; it starts
   * and ends with a non-space character, as every real paragraph does.
   */
  function ReplyText(r: Reply): (s: string)
    ensures |s| > 0 && s[0] == '<' && s[|s| - 1] == '>'
    ensures r.Template? ==> Contains(s, r.topic)
  {
    match r
    case Paragraph(p, g, v) => "<" + p.Tag() + " paragraph " + NatToString(g) + "." + NatToString(v) + ">"
    case Template(p, i, t) =>
      var head := "<" + p.Tag() + " template " + NatToString(i) + ": ";
      ContainsInMiddle(head, t, ">");
      head + t + ">"
  }

  // ---------------------------------------------------------------------------
  // First-match keyword selection

  /** `any(word in text for word in words)`: some listed word is a substring of `text`. */
  predicate Hits(words: seq<string>, text: string) {
    exists i :: 0 <= i < |words| && Contains(text, words[i])
  }

  /** The scan `AnyIn` decides `Hits`. */
  lemma AnyInHits(words: seq<string>, text: string)
    ensures AnyIn(words, text) <==> Hits(words, text)
  {
    AnyInIffSome(words, text);
  }

  /**
   * The first group, from index `from` on, that has a word in `text`: the
   * reference meaning of an `if any(...) elif any(...)` chain.
   */
  function FirstGroupFrom(groups: seq<seq<string>>, from: nat, text: string): (r: Option<nat>)
    ensures r.None? <==> forall g :: from <= g < |groups| ==> !Hits(groups[g], text)
    ensures r.Some? ==> from <= r.value < |groups| && Hits(groups[r.value], text)
    ensures r.Some? ==> forall g :: from <= g < r.value ==> !Hits(groups[g], text)
    decreases |groups| - from
  {
    if from >= |groups| then None
    else if Hits(groups[from], text) then Some(from)
    else FirstGroupFrom(groups, from + 1, text)
  }

  function FirstGroup(groups: seq<seq<string>>, text: string): Option<nat> {
    FirstGroupFrom(groups, 0, text)
  }

  /** Groups with no word in the text are passed over. */
  lemma {:induction false} FirstGroupSkips(groups: seq<seq<string>>, from: nat, until: nat, text: string)
    requires from <= until <= |groups|
    requires forall g :: from <= g < until ==> !Hits(groups[g], text)
    ensures FirstGroupFrom(groups, from, text) == FirstGroupFrom(groups, until, text)
    decreases until - from
  {
    if from < until {
      FirstGroupSkips(groups, from + 1, until, text);
    }
  }

  /** The first group with a word in the text, after groups without one, is the one chosen. */
  lemma FirstGroupAt(groups: seq<seq<string>>, from: nat, k: nat, text: string)
    requires from <= k < |groups|
    requires forall g :: from <= g < k ==> !Hits(groups[g], text)
    requires Hits(groups[k], text)
    ensures FirstGroupFrom(groups, from, text) == Some(k)
  {
    FirstGroupSkips(groups, from, k, text);
  }

  /** Two texts on which every group from `from` on hits alike select the same group. */
  lemma {:induction false} FirstGroupAgrees(groups: seq<seq<string>>, from: nat, t1: string, t2: string)
    requires forall g :: from <= g < |groups| ==> (Hits(groups[g], t1) <==> Hits(groups[g], t2))
    ensures FirstGroupFrom(groups, from, t1) == FirstGroupFrom(groups, from, t2)
    decreases |groups| - from
  {
    if from < |groups| {
      FirstGroupAgrees(groups, from + 1, t1, t2);
    }
  }

  /** Every reply text is a valid message content, so a bot message built from it keeps it verbatim. */
  lemma ReplyTextIsValidContent(r: Reply)
    requires r.Paragraph? ==> r.group < 10 && r.variant < 10
    requires r.Template? ==> r.index < 10 && |r.topic| <= 100
    ensures ValidContent(ReplyText(r))
  {
    var s := ReplyText(r);
    assert |r.persona.Tag()| <= 19;
    match r
    case Paragraph(p, g, v) =>
      assert |NatToString(g)| == 1 && |NatToString(v)| == 1;
    case Template(p, i, t) =>
      assert |NatToString(i)| == 1;
  }

  /** Tags and members are in one-to-one correspondence, in both directions. */
  lemma TagRoundTrip(p: PersonalityType, tag: string)
    ensures ParsePersonality(p.Tag()) == Some(p)
    ensures ParsePersonality(tag).Some? ==> ParsePersonality(tag).value.Tag() == tag
  {
  }

  /** The listing holds every member exactly once, under three distinct tags. */
  lemma PersonalitiesListed(p: PersonalityType)
    ensures |Personalities| == 3 && p in Personalities
    ensures forall i, j :: 0 <= i < j < |Personalities| ==> Personalities[i].Tag() != Personalities[j].Tag()
  {
  }
}
