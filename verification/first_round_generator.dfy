/** The first-round generator's deterministic part: the competency list and
    phase list tailored to the parsed job description and CV, and assembly
    that keeps a specification even when validation finds issues. The parse
    itself is an oracle call and arrives as a parameter. */
module FirstRoundGenerator {
  import opened Wrappers
  import opened Text
  import opened Rubric
  import opened Schema
  import opened SpecLoader

  /** The parse judged the candidate's seniority a weak match ("moderate" when it said nothing). */
  predicate WeakSeniority(parsed: ParsedJdCv) {
    parsed.seniorityMatch.GetOr("moderate") == "weak"
  }

  /** Every template entry names a tier the enum accepts. */
  predicate AllTiersParse(comps: seq<TemplateCompetency>) {
    forall c :: c in comps ==> ParseTier(TierText(c)).Some?
  }

  /** One selection per template entry, in order, without the rubric filter. */
  function SelectAll(comps: seq<TemplateCompetency>): (r: Result<seq<SelectedCompetency>, LoadError>)
    ensures r.Success? <==> AllTiersParse(comps)
    ensures r.Success? ==> |r.value| == |comps| && forall k :: 0 <= k < |comps| ==> SelectedAs(r.value[k], comps[k], [], [])
  {
    if |comps| == 0 then Success([])
    else
      var c := comps[0];
      assert comps == [c] + comps[1..];
      match ParseTier(TierText(c))
      case None => Failure(BadTier(c.id, TierText(c)))
      case Some(t) =>
        match SelectAll(comps[1..])
        case Failure(e) => Failure(e)
        case Success(rest) =>
          assert SelectedAs(Select(c.id, t), c, [], []);
          Success([Select(c.id, t)] + rest)
  }

  /** Raises experience_depth to critical, leaving every other selection alone. */
  function Elevate(cs: seq<SelectedCompetency>): (r: seq<SelectedCompetency>)
    ensures |r| == |cs|
    ensures forall k :: 0 <= k < |cs| ==> r[k].(tier := cs[k].tier) == cs[k]
    ensures forall k :: 0 <= k < |cs| ==> r[k].competencyId == "experience_depth" ==> r[k].tier == Critical
    ensures forall k :: 0 <= k < |cs| ==> r[k] != cs[k] ==>
              cs[k].competencyId == "experience_depth" && cs[k].tier != Critical
  {
    seq(|cs|, k requires 0 <= k < |cs| =>
      if cs[k].competencyId == "experience_depth" then cs[k].(tier := Critical) else cs[k])
  }

  /** `_build_competencies`: every template entry, in order, with its tier
      (important by default); experience_depth is critical when seniority is
      a weak match. A tier the enum rejects raises. */
  function BuildCompetencies(comps: seq<TemplateCompetency>, parsed: ParsedJdCv): (r: Result<seq<SelectedCompetency>, LoadError>)
    ensures r.Success? <==> AllTiersParse(comps)
    ensures r.Success? ==> |r.value| == |comps|
    ensures r.Success? ==> forall k :: 0 <= k < |comps| ==>
              && r.value[k].competencyId == comps[k].id
              && r.value[k].additionalRedFlags == [] && r.value[k].additionalGreenFlags == []
              && Some(r.value[k].tier) ==
                   (if WeakSeniority(parsed) && comps[k].id == "experience_depth" then Some(Critical)
                    else ParseTier(TierText(comps[k])))
  {
    match SelectAll(comps)
    case Failure(e) => Failure(e)
    case Success(cs) => Success(if WeakSeniority(parsed) then Elevate(cs) else cs)
  }

  /** Whatever the seniority verdict, the tier of an entry other than
      experience_depth is the template's; experience_depth differs from the
      template only when the match is weak and the template did not already
      mark it critical. */
  lemma SeniorityChangesOnlyExperienceDepth(comps: seq<TemplateCompetency>, parsed: ParsedJdCv, k: nat)
    requires AllTiersParse(comps) && k < |comps|
    ensures var r := BuildCompetencies(comps, parsed).value;
            k < |r| &&
            (Some(r[k].tier) != ParseTier(TierText(comps[k])) <==>
               WeakSeniority(parsed) && comps[k].id == "experience_depth" && TierText(comps[k]) != "critical")
  {
    assert comps[k] in comps;
    assert TierValue(Critical) == "critical";
  }

  /** The objective written into an extended gap phase. */
  function GapObjective(n: nat): string {
    "Probe " + NatToString(n) + " identified gaps in experience"
  }

  /** The phase is extended: there are at least three gaps and it is the gap-exploration phase. */
  predicate Extends(p: PhaseConfig, gaps: seq<string>) {
    p.id == "gap_exploration" && |gaps| >= 3
  }

  /** `_build_phases`. */
  function BuildPhases(phases: seq<PhaseConfig>, parsed: ParsedJdCv): (r: seq<PhaseConfig>)
    ensures |r| == |phases|
    ensures forall k :: 0 <= k < |phases| ==> r[k].id == phases[k].id && r[k].focusCompetencies == phases[k].focusCompetencies
  {
    var gaps := parsed.gapsToProbe.GetOr([]);
    seq(|phases|, k requires 0 <= k < |phases| =>
      if Extends(phases[k], gaps)
      then phases[k].(suggestedMaxExchanges := Some(5), objective := GapObjective(|gaps|))
      else phases[k])
  }

  /** Only the gap-exploration phase changes, only with three or more gaps,
      and then only its exchange cap (five) and objective (naming the gap
      count); every other phase is the template's. */
  lemma OnlyGapPhaseChanges(phases: seq<PhaseConfig>, parsed: ParsedJdCv, k: nat)
    requires k < |phases|
    ensures var r := BuildPhases(phases, parsed); var gaps := parsed.gapsToProbe.GetOr([]);
            && (!Extends(phases[k], gaps) ==> r[k] == phases[k])
            && (Extends(phases[k], gaps) ==>
                  && r[k].suggestedMaxExchanges == Some(5)
                  && r[k].objective == GapObjective(|gaps|)
                  && r[k].(suggestedMaxExchanges := phases[k].suggestedMaxExchanges, objective := phases[k].objective) == phases[k])
  {
  }

  /** Tailoring the phases twice is the same as once. */
  lemma BuildPhasesIdempotent(phases: seq<PhaseConfig>, parsed: ParsedJdCv)
    ensures BuildPhases(BuildPhases(phases, parsed), parsed) == BuildPhases(phases, parsed)
  {
  }

  /** Tailoring the phases never changes what validation says about their focus lists. */
  lemma {:induction false} BuildPhasesKeepsFocusIssues(phases: seq<PhaseConfig>, parsed: ParsedJdCv, ids: set<string>)
    ensures FocusIssues(BuildPhases(phases, parsed), ids) == FocusIssues(phases, ids)
    decreases |phases|
  {
    if |phases| > 0 {
      assert BuildPhases(phases, parsed)[1..] == BuildPhases(phases[1..], parsed);
      BuildPhasesKeepsFocusIssues(phases[1..], parsed, ids);
    }
  }

  /** `generate_first_round_spec`, with the template, the parse and the
      random id suffix passed in. Validation issues are returned beside the
      specification as warnings; they never make it fail. */
  function GenerateFirstRoundSpec(jobDescription: string, candidateCv: string, roleTitle: string,
                                  companyContext: Option<string>, templateName: string, template: Template,
                                  parsed: ParsedJdCv, freshHex: string,
                                  rubric: seq<UniversalCompetency>): (r: Result<(InterviewSpec, seq<Issue>), LoadError>)
    ensures r.Success? <==> AllTiersParse(template.competencies)
    ensures r.Success? ==>
              var (spec, warnings) := r.value;
              && (warnings == [] <==> SpecIsValid(spec, rubric))
              && spec.interviewType == FirstRound
              && spec.specId == "first_round_" + freshHex
              && spec.title == "First Round - " + roleTitle
              && spec.contextPacket == ContextPacket(CvScreen, Some(CvScreenFrom(jobDescription, candidateCv, roleTitle, companyContext, parsed)), None, None)
              && |spec.competencies| == |template.competencies|
              && |spec.phases| == |template.phases|
              && spec.templateId == Some(templateName)
    ensures r.Success? ==>
              var spec := r.value.0;
              && spec.competencies == BuildCompetencies(template.competencies, parsed).value
              && spec.phases == BuildPhases(template.phases, parsed)
              && spec.heuristics == template.heuristics
              && spec.constraints == template.constraints
  {
    var packet := ContextPacket(CvScreen, Some(CvScreenFrom(jobDescription, candidateCv, roleTitle, companyContext, parsed)), None, None);
    match BuildCompetencies(template.competencies, parsed)
    case Failure(e) => Failure(e)
    case Success(cs) =>
      var spec := InterviewSpec("first_round_" + freshHex, FirstRound, "First Round - " + roleTitle, "1.0",
                                packet, cs, template.heuristics, BuildPhases(template.phases, parsed),
                                template.constraints, Some(templateName));
      ValidateSpecEmptyIff(spec, rubric);
      Success((spec, ValidateSpec(spec, rubric)))
  }

  /** Unlike the loader, the generator keeps a specification that has no
      critical competency: it comes back with exactly that warning. */
  lemma GeneratorWarnsWhereLoaderRaises(jobDescription: string, candidateCv: string, roleTitle: string,
                                        companyContext: Option<string>, templateName: string, template: Template,
                                        parsed: ParsedJdCv, freshHex: string, rubric: seq<UniversalCompetency>)
    requires AllTiersParse(template.competencies) && !WeakSeniority(parsed)
    requires forall c :: c in template.competencies ==> TierText(c) != "critical"
    ensures var r := GenerateFirstRoundSpec(jobDescription, candidateCv, roleTitle, companyContext,
                                            templateName, template, parsed, freshHex, rubric);
            r.Success? && NoCriticalCompetency in r.value.1
    ensures CreateFirstRoundSpec(jobDescription, candidateCv, roleTitle, companyContext, None, freshHex,
                                 templateName, template, Some(parsed), rubric).Failure?
  {
    var r := GenerateFirstRoundSpec(jobDescription, candidateCv, roleTitle, companyContext,
                                    templateName, template, parsed, freshHex, rubric);
    var spec := r.value.0;
    forall c | c in spec.competencies ensures c.tier != Critical {
      var k :| 0 <= k < |spec.competencies| && spec.competencies[k] == c;
      assert template.competencies[k] in template.competencies;
      assert TierValue(Critical) == "critical";
    }
    NoCriticalReportedOnce(spec, rubric);
    var loaded := CreateFirstRoundSpec(jobDescription, candidateCv, roleTitle, companyContext, None, freshHex,
                                       templateName, template, Some(parsed), rubric);
    if loaded.Success? {
      FirstRoundSpecNeedsCriticalEntry(jobDescription, candidateCv, roleTitle, companyContext, None, freshHex,
                                       templateName, template, Some(parsed), rubric);
    }
  }
}
