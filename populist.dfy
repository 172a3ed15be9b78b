/**
 * The populist persona: economy, education, immigration and health are
 * matched in that order, each with one paragraph, then a secondary topic
 * dispatch, and one of three templates when nothing matches.
 */
module PopulistStrategy {
  import opened Wrappers
  import opened Text
  import opened DebateStrategy

  const EconomyWords := ["economic", "capitalism", "market", "business"]
  const EducationWords := ["education", "university", "college", "school"]
  const ImmigrationWords := ["immigration", "immigrant", "border"]
  const HealthWords := ["health", "medical", "doctor"]
  const TechnologyWords := ["technology", "ai", "artificial intelligence", "automation", "robot"]
  const SportsWords := ["sports", "athlete", "celebrity", "movie", "entertainment", "hollywood"]
  const FoodWords := ["food", "organic", "farming", "agriculture", "nutrition"]
  const TransportWords := ["cars", "driving", "transportation", "public transport", "traffic"]
  const EnvironmentWords := ["environment", "energy", "pollution", "green", "renewable", "solar", "wind"]
  const SocialMediaWords := ["social media", "internet", "facebook", "twitter", "instagram", "tiktok"]

  /** The keyword groups in the order the persona tests them; a paragraph's `group` indexes this. */
  const Groups: seq<seq<string>> :=
    [EconomyWords, EducationWords, ImmigrationWords, HealthWords,
     TechnologyWords, SportsWords, FoodWords, TransportWords, EnvironmentWords, SocialMediaWords]

  /**
   * `generate_response(context)`: the reply is the one paragraph of the first
   * keyword group that occurs in the lowercased message; with no keyword at
   * all it is template `pick` on the context's topic.
   */
  function Respond(ctx: DebateContext, pick: nat): (r: Reply)
    requires pick < 3
    ensures r.persona == Populist
    ensures r.Template? <==> FirstGroup(Groups, Lower(ctx.userMessage)).None?
    ensures r.Paragraph? ==> FirstGroup(Groups, Lower(ctx.userMessage)) == Some(r.group) && r.variant == 0
    ensures r.Template? ==> r.index == pick && r.topic == ctx.topic
  {
    var msg := Lower(ctx.userMessage);
    AnyInHits(EconomyWords, msg);
    AnyInHits(EducationWords, msg);
    AnyInHits(ImmigrationWords, msg);
    AnyInHits(HealthWords, msg);
    if AnyIn(EconomyWords, msg) then Paragraph(Populist, 0, 0)
    else if AnyIn(EducationWords, msg) then FirstGroupAt(Groups, 0, 1, msg); Paragraph(Populist, 1, 0)
    else if AnyIn(ImmigrationWords, msg) then FirstGroupAt(Groups, 0, 2, msg); Paragraph(Populist, 2, 0)
    else if AnyIn(HealthWords, msg) then FirstGroupAt(Groups, 0, 3, msg); Paragraph(Populist, 3, 0)
    else
      FirstGroupSkips(Groups, 0, 4, msg);
      AnyTopic(msg, ctx.topic, pick)
  }

  /**
   * `_generate_populist_response_for_any_topic`: the first of the secondary
   * groups (technology, sports, food, transportation, environment, social
   * media) that occurs, else template `pick` on `topic`.
   */
  function AnyTopic(msg: string, topic: string, pick: nat): (r: Reply)
    requires pick < 3
    ensures r.persona == Populist
    ensures r.Template? <==> FirstGroupFrom(Groups, 4, msg).None?
    ensures r.Paragraph? ==> FirstGroupFrom(Groups, 4, msg) == Some(r.group) && r.variant == 0
    ensures r.Template? ==> r.index == pick && r.topic == topic
  {
    AnyInHits(TechnologyWords, msg);
    AnyInHits(SportsWords, msg);
    AnyInHits(FoodWords, msg);
    AnyInHits(TransportWords, msg);
    AnyInHits(EnvironmentWords, msg);
    AnyInHits(SocialMediaWords, msg);
    if AnyIn(TechnologyWords, msg) then Paragraph(Populist, 4, 0)
    else if AnyIn(SportsWords, msg) then FirstGroupAt(Groups, 4, 5, msg); Paragraph(Populist, 5, 0)
    else if AnyIn(FoodWords, msg) then FirstGroupAt(Groups, 4, 6, msg); Paragraph(Populist, 6, 0)
    else if AnyIn(TransportWords, msg) then FirstGroupAt(Groups, 4, 7, msg); Paragraph(Populist, 7, 0)
    else if AnyIn(EnvironmentWords, msg) then FirstGroupAt(Groups, 4, 8, msg); Paragraph(Populist, 8, 0)
    else if AnyIn(SocialMediaWords, msg) then FirstGroupAt(Groups, 4, 9, msg); Paragraph(Populist, 9, 0)
    else FirstGroupSkips(Groups, 4, 10, msg); Template(Populist, pick, topic)
  }

  /** `get_initial_stance(topic)`: a fixed sentence around the topic. */
  function InitialStance(topic: string): (s: string)
    ensures Contains(s, topic)
    ensures StartsWith(s, "The establishment has been deceiving us about ")
  {
    var head := "The establishment has been deceiving us about ";
    var tail := " for too long. It's time for real people to speak up and demand the truth.";
    ContainsInMiddle(head, topic, tail);
    assert (head + topic + tail)[..|head|] == head;
    head + topic + tail
  }

  // ---------------------------------------------------------------------------
  // Properties

  /**
   * Technology is matched before social media: a message that matches neither
   * primary group and has words of both gets the technology paragraph.
   */
  lemma TechnologyBeforeSocialMedia(ctx: DebateContext, pick: nat)
    requires pick < 3
    requires forall g :: 0 <= g < 4 ==> !Hits(Groups[g], Lower(ctx.userMessage))
    requires Hits(TechnologyWords, Lower(ctx.userMessage)) && Hits(SocialMediaWords, Lower(ctx.userMessage))
    ensures Respond(ctx, pick) == Paragraph(Populist, 4, 0)
  {
    assert Groups[4] == TechnologyWords;
    FirstGroupAt(Groups, 0, 4, Lower(ctx.userMessage));
  }

  /** Each primary group has exactly one paragraph: no sub-branches. */
  lemma PrimaryGroupsHaveOneParagraph(ctx: DebateContext, pick: nat)
    requires pick < 3
    ensures Respond(ctx, pick).Paragraph? ==> Respond(ctx, pick).variant == 0
  {
  }

  /** The reply depends on the context only through its user message and its topic. */
  lemma ReadsMessageAndTopicOnly(c1: DebateContext, c2: DebateContext, pick: nat)
    requires pick < 3
    requires c1.userMessage == c2.userMessage && c1.topic == c2.topic
    ensures Respond(c1, pick) == Respond(c2, pick)
  {
  }
}
