/**
 * The conspiracy-theorist persona: lowercased substring tests in a fixed
 * order, vaccines first, then climate, then a secondary topic dispatch, and
 * one of three templates when nothing matches.
 */
module ConspiracyTheoristStrategy {
  import opened Wrappers
  import opened Text
  import opened DebateStrategy

  const VaccineWords := ["vaccine", "vaccination", "immune"]
  const VaccineSafeWords := ["safe", "effective", "important"]
  const VaccineAuthorityWords := ["who", "experts", "recommend"]
  const ClimateWords := ["climate", "warming", "carbon"]
  const ClimateCauseWords := ["human", "activities", "caused"]
  const TechnologyWords := ["technology", "ai", "artificial", "internet", "social media", "facebook", "google"]
  const FoodWords := ["food", "organic", "diet", "nutrition", "farming", "agriculture"]
  const EducationWords := ["education", "university", "school", "academic", "research", "study"]
  const SportsWords := ["sports", "athlete", "movie", "entertainment", "celebrity", "hollywood"]
  const MoneyWords := ["money", "economy", "bank", "finance", "investment", "crypto", "bitcoin"]
  const ScienceWords := ["science", "scientific", "research", "experiment", "evidence"]

  /** The keyword groups in the order the persona tests them; a paragraph's `group` indexes this. */
  const Groups: seq<seq<string>> :=
    [VaccineWords, ClimateWords, TechnologyWords, FoodWords, EducationWords, SportsWords, MoneyWords, ScienceWords]

  /** Which paragraph of a group answers: the sub-branch tests inside the vaccine and climate groups. */
  function Variant(group: nat, msg: string): nat {
    if group == 0 then
      if Hits(VaccineSafeWords, msg) then 0 else if Hits(VaccineAuthorityWords, msg) then 1 else 2
    else if group == 1 then
      if Hits(ClimateCauseWords, msg) then 0 else 1
    else 0
  }

  /**
   * `generate_response(context)`: the reply answers the first keyword group
   * that occurs in the lowercased message, with the sub-branch that group's
   * tests pick; with no keyword at all it is template `pick` on the context's topic.
   */
  function Respond(ctx: DebateContext, pick: nat): (r: Reply)
    requires pick < 3
    ensures r.persona == ConspiracyTheorist
    ensures r.Template? <==> FirstGroup(Groups, Lower(ctx.userMessage)).None?
    ensures r.Paragraph? ==> FirstGroup(Groups, Lower(ctx.userMessage)) == Some(r.group)
    ensures r.Paragraph? ==> r.variant == Variant(r.group, Lower(ctx.userMessage))
    ensures r.Template? ==> r.index == pick && r.topic == ctx.topic
  {
    var msg := Lower(ctx.userMessage);
    AnyInHits(VaccineWords, msg);
    AnyInHits(ClimateWords, msg);
    AnyInHits(VaccineSafeWords, msg);
    AnyInHits(VaccineAuthorityWords, msg);
    AnyInHits(ClimateCauseWords, msg);
    if AnyIn(VaccineWords, msg) then
      if AnyIn(VaccineSafeWords, msg) then Paragraph(ConspiracyTheorist, 0, 0)
      else if AnyIn(VaccineAuthorityWords, msg) then Paragraph(ConspiracyTheorist, 0, 1)
      else Paragraph(ConspiracyTheorist, 0, 2)
    else if AnyIn(ClimateWords, msg) then
      if AnyIn(ClimateCauseWords, msg) then Paragraph(ConspiracyTheorist, 1, 0)
      else Paragraph(ConspiracyTheorist, 1, 1)
    else
      assert FirstGroupFrom(Groups, 0, msg) == FirstGroupFrom(Groups, 1, msg) == FirstGroupFrom(Groups, 2, msg);
      AnyTopic(msg, ctx.topic, pick)
  }

  /**
   * `_generate_conspiracy_response_for_any_topic`: the first of the secondary
   * groups (technology, food, education, sports, money, science) that occurs,
   * else template `pick` on `topic`.
   */
  function AnyTopic(msg: string, topic: string, pick: nat): (r: Reply)
    requires pick < 3
    ensures r.persona == ConspiracyTheorist
    ensures r.Template? <==> FirstGroupFrom(Groups, 2, msg).None?
    ensures r.Paragraph? ==> FirstGroupFrom(Groups, 2, msg) == Some(r.group) && r.variant == 0
    ensures r.Template? ==> r.index == pick && r.topic == topic
  {
    AnyInHits(TechnologyWords, msg);
    AnyInHits(FoodWords, msg);
    AnyInHits(EducationWords, msg);
    AnyInHits(SportsWords, msg);
    AnyInHits(MoneyWords, msg);
    AnyInHits(ScienceWords, msg);
    if AnyIn(TechnologyWords, msg) then Paragraph(ConspiracyTheorist, 2, 0)
    else if AnyIn(FoodWords, msg) then FirstGroupAt(Groups, 2, 3, msg); Paragraph(ConspiracyTheorist, 3, 0)
    else if AnyIn(EducationWords, msg) then FirstGroupAt(Groups, 2, 4, msg); Paragraph(ConspiracyTheorist, 4, 0)
    else if AnyIn(SportsWords, msg) then FirstGroupAt(Groups, 2, 5, msg); Paragraph(ConspiracyTheorist, 5, 0)
    else if AnyIn(MoneyWords, msg) then FirstGroupAt(Groups, 2, 6, msg); Paragraph(ConspiracyTheorist, 6, 0)
    else if AnyIn(ScienceWords, msg) then FirstGroupAt(Groups, 2, 7, msg); Paragraph(ConspiracyTheorist, 7, 0)
    else FirstGroupSkips(Groups, 2, 8, msg); Template(ConspiracyTheorist, pick, topic)
  }

  /** `get_initial_stance(topic)`: a fixed sentence around the topic. */
  function InitialStance(topic: string): (s: string)
    ensures Contains(s, topic)
    ensures StartsWith(s, "The official story about ")
  {
    var head := "The official story about ";
    var tail := " is just the tip of the iceberg. There's much more going on behind the scenes that they don't want you to know.";
    ContainsInMiddle(head, topic, tail);
    assert (head + topic + tail)[..|head|] == head;
    head + topic + tail
  }

  // ---------------------------------------------------------------------------
  // Properties

  /** A message with a vaccine word takes the vaccine branch, whatever else it mentions (climate included). */
  lemma VaccineBeforeClimate(ctx: DebateContext, pick: nat)
    requires pick < 3
    requires Hits(VaccineWords, Lower(ctx.userMessage))
    ensures Respond(ctx, pick).Paragraph? && Respond(ctx, pick).group == 0
  {
    assert Groups[0] == VaccineWords;
  }

  /**
   * "research" is an education word, and education is matched before science,
   * so a message containing "research" never gets the science paragraph.
   */
  lemma ResearchNeverReachesScience(ctx: DebateContext, pick: nat)
    requires pick < 3
    requires Contains(Lower(ctx.userMessage), "research")
    ensures Respond(ctx, pick) != Paragraph(ConspiracyTheorist, 7, 0)
  {
    var msg := Lower(ctx.userMessage);
    assert Groups[4] == EducationWords && EducationWords[4] == "research";
    assert Hits(Groups[4], msg);
    assert ScienceWords[2] == "research";
  }

  /** The reply depends on the context only through its user message and its topic. */
  lemma ReadsMessageAndTopicOnly(c1: DebateContext, c2: DebateContext, pick: nat)
    requires pick < 3
    requires c1.userMessage == c2.userMessage && c1.topic == c2.topic
    ensures Respond(c1, pick) == Respond(c2, pick)
  {
  }
}
