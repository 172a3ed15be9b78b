/**
 * The skeptical-scientist persona: climate is matched first, then vaccines,
 * then a secondary topic dispatch, and one of three templates when nothing matches.
 */
module SkepticalScientistStrategy {
  import opened Wrappers
  import opened Text
  import opened DebateStrategy

  const ClimateWords := ["climate", "warming", "carbon"]
  const ClimateCauseWords := ["human", "activities", "caused"]
  const ConsensusWords := ["97%", "consensus", "scientists"]
  const VaccineWords := ["vaccine", "vaccination"]
  const VaccineSafeWords := ["safe", "effective"]
  const PsychologyWords := ["psychology", "mental health", "depression", "anxiety", "therapy", "meditation", "mindfulness"]
  const NutritionWords := ["nutrition", "diet", "organic", "supplement", "vitamin", "superfood", "healthy eating"]
  const TechnologyWords := ["technology", "ai", "artificial intelligence", "automation", "algorithm"]
  const ExerciseWords := ["exercise", "fitness", "workout", "running", "gym", "strength training"]
  const EconomicsWords := ["economics", "policy", "government", "regulation", "tax", "welfare", "minimum wage"]
  const EducationWords := ["education", "learning", "teaching", "school", "university", "student"]

  /** The keyword groups in the order the persona tests them; a paragraph's `group` indexes this. */
  const Groups: seq<seq<string>> :=
    [ClimateWords, VaccineWords, PsychologyWords, NutritionWords, TechnologyWords, ExerciseWords, EconomicsWords, EducationWords]

  /** Which paragraph of a group answers: the sub-branch tests inside the climate and vaccine groups. */
  function Variant(group: nat, msg: string): nat {
    if group == 0 then
      if Hits(ClimateCauseWords, msg) then 0 else if Hits(ConsensusWords, msg) then 1 else 2
    else if group == 1 then
      if Hits(VaccineSafeWords, msg) then 0 else 1
    else 0
  }

  /**
   * `generate_response(context)`: the reply answers the first keyword group
   * that occurs in the lowercased message, with the sub-branch that group's
   * tests pick; with no keyword at all it is template `pick` on the context's topic.
   */
  function Respond(ctx: DebateContext, pick: nat): (r: Reply)
    requires pick < 3
    ensures r.persona == SkepticalScientist
    ensures r.Template? <==> FirstGroup(Groups, Lower(ctx.userMessage)).None?
    ensures r.Paragraph? ==> FirstGroup(Groups, Lower(ctx.userMessage)) == Some(r.group)
    ensures r.Paragraph? ==> r.variant == Variant(r.group, Lower(ctx.userMessage))
    ensures r.Template? ==> r.index == pick && r.topic == ctx.topic
  {
    var msg := Lower(ctx.userMessage);
    AnyInHits(ClimateWords, msg);
    AnyInHits(VaccineWords, msg);
    AnyInHits(ClimateCauseWords, msg);
    AnyInHits(ConsensusWords, msg);
    AnyInHits(VaccineSafeWords, msg);
    if AnyIn(ClimateWords, msg) then
      if AnyIn(ClimateCauseWords, msg) then Paragraph(SkepticalScientist, 0, 0)
      else if AnyIn(ConsensusWords, msg) then Paragraph(SkepticalScientist, 0, 1)
      else Paragraph(SkepticalScientist, 0, 2)
    else if AnyIn(VaccineWords, msg) then
      FirstGroupAt(Groups, 0, 1, msg);
      if AnyIn(VaccineSafeWords, msg) then Paragraph(SkepticalScientist, 1, 0)
      else Paragraph(SkepticalScientist, 1, 1)
    else
      FirstGroupSkips(Groups, 0, 2, msg);
      AnyTopic(msg, ctx.topic, pick)
  }

  /**
   * `_generate_scientific_skepticism_for_any_topic`: the first of the secondary
   * groups (psychology, nutrition, technology, exercise, economics, education)
   * that occurs, else template `pick` on `topic`.
   */
  function AnyTopic(msg: string, topic: string, pick: nat): (r: Reply)
    requires pick < 3
    ensures r.persona == SkepticalScientist
    ensures r.Template? <==> FirstGroupFrom(Groups, 2, msg).None?
    ensures r.Paragraph? ==> FirstGroupFrom(Groups, 2, msg) == Some(r.group) && r.variant == 0
    ensures r.Template? ==> r.index == pick && r.topic == topic
  {
    AnyInHits(PsychologyWords, msg);
    AnyInHits(NutritionWords, msg);
    AnyInHits(TechnologyWords, msg);
    AnyInHits(ExerciseWords, msg);
    AnyInHits(EconomicsWords, msg);
    AnyInHits(EducationWords, msg);
    if AnyIn(PsychologyWords, msg) then Paragraph(SkepticalScientist, 2, 0)
    else if AnyIn(NutritionWords, msg) then FirstGroupAt(Groups, 2, 3, msg); Paragraph(SkepticalScientist, 3, 0)
    else if AnyIn(TechnologyWords, msg) then FirstGroupAt(Groups, 2, 4, msg); Paragraph(SkepticalScientist, 4, 0)
    else if AnyIn(ExerciseWords, msg) then FirstGroupAt(Groups, 2, 5, msg); Paragraph(SkepticalScientist, 5, 0)
    else if AnyIn(EconomicsWords, msg) then FirstGroupAt(Groups, 2, 6, msg); Paragraph(SkepticalScientist, 6, 0)
    else if AnyIn(EducationWords, msg) then FirstGroupAt(Groups, 2, 7, msg); Paragraph(SkepticalScientist, 7, 0)
    else FirstGroupSkips(Groups, 2, 8, msg); Template(SkepticalScientist, pick, topic)
  }

  /** `get_initial_stance(topic)`: a fixed sentence around the topic. */
  function InitialStance(topic: string): (s: string)
    ensures Contains(s, topic)
    ensures StartsWith(s, "The scientific consensus on ")
  {
    var head := "The scientific consensus on ";
    var tail := " deserves more scrutiny. When we examine the data objectively, alternative explanations become plausible.";
    ContainsInMiddle(head, topic, tail);
    assert (head + topic + tail)[..|head|] == head;
    head + topic + tail
  }

  // ---------------------------------------------------------------------------
  // Properties

  /** A message with a climate word takes the climate branch, whatever else it mentions (vaccines included). */
  lemma ClimateBeforeVaccine(ctx: DebateContext, pick: nat)
    requires pick < 3
    requires Hits(ClimateWords, Lower(ctx.userMessage))
    ensures Respond(ctx, pick).Paragraph? && Respond(ctx, pick).group == 0
  {
    assert Groups[0] == ClimateWords;
  }

  /**
   * Keywords are substrings, not words: any message that contains the two
   * letters "ai" anywhere ("explain", "said", "training") and none of the
   * earlier groups' words gets the technology paragraph.
   */
  lemma BareAiMatchesInsideWords(ctx: DebateContext, pick: nat)
    requires pick < 3
    requires Contains(Lower(ctx.userMessage), "ai")
    requires forall g :: 0 <= g < 4 ==> !Hits(Groups[g], Lower(ctx.userMessage))
    ensures Respond(ctx, pick) == Paragraph(SkepticalScientist, 4, 0)
  {
    var msg := Lower(ctx.userMessage);
    assert Groups[4] == TechnologyWords && TechnologyWords[1] == "ai";
    assert Hits(Groups[4], msg);
    FirstGroupAt(Groups, 0, 4, msg);
  }

  /** The reply depends on the context only through its user message and its topic. */
  lemma ReadsMessageAndTopicOnly(c1: DebateContext, c2: DebateContext, pick: nat)
    requires pick < 3
    requires c1.userMessage == c2.userMessage && c1.topic == c2.topic
    ensures Respond(c1, pick) == Respond(c2, pick)
  {
  }
}
