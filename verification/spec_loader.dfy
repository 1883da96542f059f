/** Assembly of interview specifications from a template and the session's
    content (a case, a job description and CV, a coding problem): the
    template's competencies are selected against the rubric, the context
    packet is built, and a specification that fails validation raises.
    Templates arrive already decoded; reading them from disk is not part of
    this model. Also the per-tier competency summary shown to reviewers. */
module SpecLoader {
  import opened Wrappers
  import opened Seqs
  import opened Rubric
  import opened Schema
  import CaseLoader

  /** One entry of a template's competency list. `tier` is None when the
      entry has no tier key. */
  datatype TemplateCompetency = TemplateCompetency(id: string, tier: Option<string>, inheritCaseFlags: bool)

  /** A decoded template. */
  datatype Template = Template(
    competencies: seq<TemplateCompetency>,
    heuristics: InterviewerHeuristics,
    phases: seq<PhaseConfig>,
    constraints: SessionConstraints)

  /** What the job-description and CV parse produced. A key it left out is None. */
  datatype ParsedJdCv = ParsedJdCv(
    jdRequirements: Option<seq<string>>,
    cvClaims: Option<seq<string>>,
    gapsToProbe: Option<seq<string>>,
    claimsToValidate: Option<seq<string>>,
    seniorityMatch: Option<string>)

  /** A coding problem as the technical loader reads it. */
  datatype ProblemData = ProblemData(
    id: Option<string>,
    title: Option<string>,
    problemStatement: Option<string>,
    starterCode: Option<string>,
    testCases: Option<seq<Record>>,
    expectedComplexity: Option<string>,
    hints: Option<seq<Record>>,
    solutionApproach: Option<string>,
    commonPitfalls: Option<seq<string>>,
    edgeCases: Option<seq<string>>)

  /** The exceptions assembly raises: a tier value the enum rejects, a
      required content key that is missing, or validation issues. */
  datatype LoadError =
    | BadTier(competencyId: string, value: string)
    | MissingKey(key: string)
    | InvalidSpec(issues: seq<Issue>)

  /** The string value of each tier. */
  function TierValue(t: Tier): string {
    match t
    case Critical => "critical"
    case Important => "important"
    case Bonus => "bonus"
  }

  /** `CompetencyTier(value)`: the tier with that value, or None where the enum raises. */
  function ParseTier(value: string): (r: Option<Tier>)
    ensures r.Some? ==> TierValue(r.value) == value
    ensures forall t :: TierValue(t) == value ==> r == Some(t)
  {
    if value == "critical" then Some(Critical)
    else if value == "important" then Some(Important)
    else if value == "bonus" then Some(Bonus)
    else None
  }

  /** The tier value an entry asks for, "important" when it names none. */
  function TierText(c: TemplateCompetency): string {
    c.tier.GetOr("important")
  }

  /** The template entries whose id the rubric knows, in template order. */
  function KnownEntries(comps: seq<TemplateCompetency>, rubric: seq<UniversalCompetency>): (r: seq<TemplateCompetency>)
    ensures forall c :: c in r <==> c in comps && InRubric(rubric, c.id)
    ensures IsSubsequence(r, comps)
  {
    if |comps| == 0 then []
    else
      var rest := KnownEntries(comps[1..], rubric);
      assert comps == [comps[0]] + comps[1..];
      if InRubric(rubric, comps[0].id) then [comps[0]] + rest else rest
  }

  /** The selection made from one template entry. */
  predicate SelectedAs(sel: SelectedCompetency, c: TemplateCompetency, red: seq<string>, green: seq<string>) {
    && sel.competencyId == c.id
    && Some(sel.tier) == ParseTier(TierText(c))
    && sel.additionalRedFlags == (if c.inheritCaseFlags then red else [])
    && sel.additionalGreenFlags == (if c.inheritCaseFlags then green else [])
    && sel.caseSpecificIndicators == map[]
  }

  /** Every known template entry became one selection, in template order. */
  predicate SelectedFrom(cs: seq<SelectedCompetency>, comps: seq<TemplateCompetency>, rubric: seq<UniversalCompetency>,
                         red: seq<string>, green: seq<string>) {
    var known := KnownEntries(comps, rubric);
    |cs| == |known| && forall k :: 0 <= k < |cs| ==> SelectedAs(cs[k], known[k], red, green)
  }

  /** Every known template entry names a tier the enum accepts. */
  predicate TiersParse(comps: seq<TemplateCompetency>, rubric: seq<UniversalCompetency>) {
    forall c :: c in comps && InRubric(rubric, c.id) ==> ParseTier(TierText(c)).Some?
  }

  /** The competency-selection loop shared by the three loaders: entries the
      rubric does not know are skipped before their tier is read; the case
      flags go only to entries that inherit them (the first-round and
      technical loaders pass none). */
  function SelectCompetencies(comps: seq<TemplateCompetency>, rubric: seq<UniversalCompetency>,
                              red: seq<string>, green: seq<string>): (r: Result<seq<SelectedCompetency>, LoadError>)
    ensures r.Success? <==> TiersParse(comps, rubric)
    ensures r.Success? ==> SelectedFrom(r.value, comps, rubric, red, green)
    ensures r.Failure? ==>
              exists c :: c in comps && InRubric(rubric, c.id) && ParseTier(TierText(c)).None?
                          && r.error == BadTier(c.id, TierText(c))
  {
    if |comps| == 0 then Success([])
    else
      var c := comps[0];
      assert comps == [c] + comps[1..];
      if !InRubric(rubric, c.id) then SelectCompetencies(comps[1..], rubric, red, green)
      else match ParseTier(TierText(c))
        case None => Failure(BadTier(c.id, TierText(c)))
        case Some(t) =>
          match SelectCompetencies(comps[1..], rubric, red, green)
          case Failure(e) => Failure(e)
          case Success(rest) =>
            var sel := SelectedCompetency(c.id, t, if c.inheritCaseFlags then red else [],
                                          if c.inheritCaseFlags then green else [], map[]);
            assert SelectedAs(sel, c, red, green);
            Success([sel] + rest)
  }

  /** The specification when `validate_spec` reports nothing; otherwise the
      raised issues. */
  function Validated(spec: InterviewSpec, rubric: seq<UniversalCompetency>): (r: Result<InterviewSpec, LoadError>)
    ensures r.Success? <==> SpecIsValid(spec, rubric)
    ensures r.Success? ==> r.value == spec
    ensures r.Failure? ==> r.error.InvalidSpec? && |r.error.issues| > 0
  {
    ValidateSpecEmptyIff(spec, rubric);
    var issues := ValidateSpec(spec, rubric);
    if issues == [] then Success(spec) else Failure(InvalidSpec(issues))
  }

  /** The given specification id, or the generated one when none (or an empty one) is given. */
  function SpecIdOr(given: Option<string>, generated: string): (id: string)
    ensures given.Some? && given.value != "" ==> id == given.value
    ensures given.None? || given.value == "" ==> id == generated
  {
    if given.Some? && given.value != "" then given.value else generated
  }

  /** The template's heuristics, phases and constraints are taken as they
      are, and the specification records which template it came from. */
  predicate FromTemplate(spec: InterviewSpec, templateName: string, template: Template) {
    && spec.heuristics == template.heuristics
    && spec.phases == template.phases
    && spec.constraints == template.constraints
    && spec.templateId == Some(templateName)
    && spec.version == "1.0"
  }

  function CaseStudyFrom(c: CaseLoader.CaseFile): CaseStudyContext
    requires c.opening.Some?
  {
    CaseStudyContext(c.opening.value, c.facts.GetOr(map[]), c.rootCause.GetOr(""),
                     c.strongRecommendations.GetOr([]), c.calibration.GetOr(map[]))
  }

  /** `create_case_interview_spec`, with the template passed in and
      `freshHex` standing for the random id suffix. */
  function CreateCaseInterviewSpec(c: CaseLoader.CaseFile, specId: Option<string>, freshHex: string,
                                   templateName: string, template: Template,
                                   rubric: seq<UniversalCompetency>): (r: Result<InterviewSpec, LoadError>)
    ensures c.opening.None? ==> r == Failure(MissingKey("opening"))
    ensures c.opening.Some? && !TiersParse(template.competencies, rubric) ==> r.Failure? && r.error.BadTier?
    ensures r.Success? ==>
              && SpecIsValid(r.value, rubric)
              && r.value.interviewType == Case
              && r.value.specId == SpecIdOr(specId, "case_" + c.id.GetOr(freshHex))
              && r.value.title == c.title.GetOr("Case Interview")
              && r.value.contextPacket == ContextPacket(CaseStudy, None, Some(CaseStudyFrom(c)), None)
              && SelectedFrom(r.value.competencies, template.competencies, rubric,
                              c.redFlags.GetOr([]), c.greenFlags.GetOr([]))
              && FromTemplate(r.value, templateName, template)
  {
    if c.opening.None? then Failure(MissingKey("opening"))
    else
      var packet := ContextPacket(CaseStudy, None, Some(CaseStudyFrom(c)), None);
      match SelectCompetencies(template.competencies, rubric, c.redFlags.GetOr([]), c.greenFlags.GetOr([]))
      case Failure(e) => Failure(e)
      case Success(cs) =>
        Validated(InterviewSpec(SpecIdOr(specId, "case_" + c.id.GetOr(freshHex)), Case,
                                c.title.GetOr("Case Interview"), "1.0", packet, cs,
                                template.heuristics, template.phases, template.constraints, Some(templateName)),
                  rubric)
  }

  /** The CV-screen context, with the parsed lists defaulting to empty. */
  function CvScreenFrom(jobDescription: string, candidateCv: string, roleTitle: string,
                        companyContext: Option<string>, parsed: ParsedJdCv): CvScreenContext {
    CvScreenContext(jobDescription, candidateCv, roleTitle, companyContext,
                    parsed.jdRequirements.GetOr([]), parsed.cvClaims.GetOr([]),
                    parsed.gapsToProbe.GetOr([]), parsed.claimsToValidate.GetOr([]))
  }

  /** A parse that produced nothing. */
  function NothingParsed(): ParsedJdCv {
    ParsedJdCv(None, None, None, None, None)
  }

  /** `create_first_round_spec`, with the template passed in. No case
      flags exist here, so no selection carries any. */
  function CreateFirstRoundSpec(jobDescription: string, candidateCv: string, roleTitle: string,
                                companyContext: Option<string>, specId: Option<string>, freshHex: string,
                                templateName: string, template: Template, parsed: Option<ParsedJdCv>,
                                rubric: seq<UniversalCompetency>): (r: Result<InterviewSpec, LoadError>)
    ensures !TiersParse(template.competencies, rubric) ==> r.Failure? && r.error.BadTier?
    ensures r.Success? ==>
              && SpecIsValid(r.value, rubric)
              && r.value.interviewType == FirstRound
              && r.value.specId == SpecIdOr(specId, "first_round_" + freshHex)
              && r.value.title == "First Round - " + roleTitle
              && r.value.contextPacket.packetType == CvScreen
              && r.value.contextPacket.cvScreen ==
                   Some(CvScreenFrom(jobDescription, candidateCv, roleTitle, companyContext, parsed.GetOr(NothingParsed())))
              && SelectedFrom(r.value.competencies, template.competencies, rubric, [], [])
              && FromTemplate(r.value, templateName, template)
  {
    var cv := CvScreenFrom(jobDescription, candidateCv, roleTitle, companyContext, parsed.GetOr(NothingParsed()));
    var packet := ContextPacket(CvScreen, Some(cv), None, None);
    match SelectCompetencies(template.competencies, rubric, [], [])
    case Failure(e) => Failure(e)
    case Success(cs) =>
      Validated(InterviewSpec(SpecIdOr(specId, "first_round_" + freshHex), FirstRound,
                              "First Round - " + roleTitle, "1.0", packet, cs,
                              template.heuristics, template.phases, template.constraints, Some(templateName)),
                rubric)
  }

  function TechnicalProblemFrom(p: ProblemData): TechnicalProblemContext
    requires p.problemStatement.Some?
  {
    TechnicalProblemContext(p.problemStatement.value, p.starterCode, p.testCases.GetOr([]),
                            p.expectedComplexity, p.hints.GetOr([]), p.solutionApproach.GetOr(""),
                            p.commonPitfalls.GetOr([]), p.edgeCases.GetOr([]))
  }

  /** `create_technical_interview_spec`, with the template passed in. */
  function CreateTechnicalInterviewSpec(p: ProblemData, specId: Option<string>, freshHex: string,
                                        templateName: string, template: Template,
                                        rubric: seq<UniversalCompetency>): (r: Result<InterviewSpec, LoadError>)
    ensures p.problemStatement.None? ==> r == Failure(MissingKey("problem_statement"))
    ensures p.problemStatement.Some? && !TiersParse(template.competencies, rubric) ==> r.Failure? && r.error.BadTier?
    ensures r.Success? ==>
              && SpecIsValid(r.value, rubric)
              && r.value.interviewType == Technical
              && r.value.specId == SpecIdOr(specId, "technical_" + p.id.GetOr(freshHex))
              && r.value.title == p.title.GetOr("Technical Interview")
              && r.value.contextPacket == ContextPacket(TechnicalProblem, None, None, Some(TechnicalProblemFrom(p)))
              && SelectedFrom(r.value.competencies, template.competencies, rubric, [], [])
              && FromTemplate(r.value, templateName, template)
  {
    if p.problemStatement.None? then Failure(MissingKey("problem_statement"))
    else
      var packet := ContextPacket(TechnicalProblem, None, None, Some(TechnicalProblemFrom(p)));
      match SelectCompetencies(template.competencies, rubric, [], [])
      case Failure(e) => Failure(e)
      case Success(cs) =>
        Validated(InterviewSpec(SpecIdOr(specId, "technical_" + p.id.GetOr(freshHex)), Technical,
                                p.title.GetOr("Technical Interview"), "1.0", packet, cs,
                                template.heuristics, template.phases, template.constraints, Some(templateName)),
                  rubric)
  }

  // ---------------------------------------------------------------------------
  // What every loaded specification inherits from its template
  // ---------------------------------------------------------------------------

  /** A critical selection comes from a known entry the template marks "critical". */
  lemma CriticalSelectionHasEntry(cs: seq<SelectedCompetency>, comps: seq<TemplateCompetency>,
                                  rubric: seq<UniversalCompetency>, red: seq<string>, green: seq<string>, k: nat)
    requires SelectedFrom(cs, comps, rubric, red, green)
    requires k < |cs| && cs[k].tier == Critical
    ensures var e := KnownEntries(comps, rubric)[k]; e in comps && InRubric(rubric, e.id) && TierText(e) == "critical"
  {
    var known := KnownEntries(comps, rubric);
    assert SelectedAs(cs[k], known[k], red, green);
    assert known[k] in known;
  }

  /** A known entry marked "critical" yields a critical selection. */
  lemma CriticalEntryHasSelection(cs: seq<SelectedCompetency>, comps: seq<TemplateCompetency>,
                                  rubric: seq<UniversalCompetency>, red: seq<string>, green: seq<string>, k: nat)
    requires SelectedFrom(cs, comps, rubric, red, green)
    requires k < |KnownEntries(comps, rubric)| && TierText(KnownEntries(comps, rubric)[k]) == "critical"
    ensures k < |cs| && cs[k].tier == Critical
  {
    var known := KnownEntries(comps, rubric);
    assert SelectedAs(cs[k], known[k], red, green);
  }

  /** A selection made from the template is critical exactly when the
      template marks a known entry "critical". */
  lemma CriticalSelectionIff(cs: seq<SelectedCompetency>, comps: seq<TemplateCompetency>,
                             rubric: seq<UniversalCompetency>, red: seq<string>, green: seq<string>)
    requires SelectedFrom(cs, comps, rubric, red, green)
    ensures (exists s :: s in cs && s.tier == Critical) ==>
            (exists e :: e in comps && InRubric(rubric, e.id) && TierText(e) == "critical")
    ensures (exists e :: e in comps && InRubric(rubric, e.id) && TierText(e) == "critical") ==>
            (exists s :: s in cs && s.tier == Critical)
  {
    SelectionToEntry(cs, comps, rubric, red, green);
    EntryToSelection(cs, comps, rubric, red, green);
  }

  lemma SelectionToEntry(cs: seq<SelectedCompetency>, comps: seq<TemplateCompetency>,
                         rubric: seq<UniversalCompetency>, red: seq<string>, green: seq<string>)
    requires SelectedFrom(cs, comps, rubric, red, green)
    ensures (exists s :: s in cs && s.tier == Critical) ==>
            (exists e :: e in comps && InRubric(rubric, e.id) && TierText(e) == "critical")
  {
    if s :| s in cs && s.tier == Critical {
      var k :| 0 <= k < |cs| && cs[k] == s;
      CriticalSelectionHasEntry(cs, comps, rubric, red, green, k);
    }
  }

  lemma EntryToSelection(cs: seq<SelectedCompetency>, comps: seq<TemplateCompetency>,
                         rubric: seq<UniversalCompetency>, red: seq<string>, green: seq<string>)
    requires SelectedFrom(cs, comps, rubric, red, green)
    ensures (exists e :: e in comps && InRubric(rubric, e.id) && TierText(e) == "critical") ==>
            (exists s :: s in cs && s.tier == Critical)
  {
    var known := KnownEntries(comps, rubric);
    if e :| e in comps && InRubric(rubric, e.id) && TierText(e) == "critical" {
      assert e in known;
      var k :| 0 <= k < |known| && known[k] == e;
      CriticalEntryHasSelection(cs, comps, rubric, red, green, k);
      assert cs[k] in cs;
    }
  }

  /** A case specification loads only from a template that marks some
      known competency critical, and its selections all come from the rubric. */
  lemma CaseSpecNeedsCriticalEntry(c: CaseLoader.CaseFile, specId: Option<string>, freshHex: string,
                                   templateName: string, template: Template, rubric: seq<UniversalCompetency>)
    ensures CreateCaseInterviewSpec(c, specId, freshHex, templateName, template, rubric).Success? ==>
              exists e :: e in template.competencies && InRubric(rubric, e.id) && TierText(e) == "critical"
  {
    var r := CreateCaseInterviewSpec(c, specId, freshHex, templateName, template, rubric);
    if r.Success? {
      CriticalSelectionIff(r.value.competencies, template.competencies, rubric, c.redFlags.GetOr([]), c.greenFlags.GetOr([]));
    }
  }

  /** The same holds of the first-round loader. */
  lemma FirstRoundSpecNeedsCriticalEntry(jobDescription: string, candidateCv: string, roleTitle: string,
                                         companyContext: Option<string>, specId: Option<string>, freshHex: string,
                                         templateName: string, template: Template, parsed: Option<ParsedJdCv>,
                                         rubric: seq<UniversalCompetency>)
    ensures CreateFirstRoundSpec(jobDescription, candidateCv, roleTitle, companyContext, specId, freshHex,
                                 templateName, template, parsed, rubric).Success? ==>
              exists e :: e in template.competencies && InRubric(rubric, e.id) && TierText(e) == "critical"
  {
    var r := CreateFirstRoundSpec(jobDescription, candidateCv, roleTitle, companyContext, specId, freshHex,
                                  templateName, template, parsed, rubric);
    if r.Success? {
      CriticalSelectionIff(r.value.competencies, template.competencies, rubric, [], []);
    }
  }

  /** And of the technical loader. */
  lemma TechnicalSpecNeedsCriticalEntry(p: ProblemData, specId: Option<string>, freshHex: string,
                                        templateName: string, template: Template, rubric: seq<UniversalCompetency>)
    ensures CreateTechnicalInterviewSpec(p, specId, freshHex, templateName, template, rubric).Success? ==>
              exists e :: e in template.competencies && InRubric(rubric, e.id) && TierText(e) == "critical"
  {
    var r := CreateTechnicalInterviewSpec(p, specId, freshHex, templateName, template, rubric);
    if r.Success? {
      CriticalSelectionIff(r.value.competencies, template.competencies, rubric, [], []);
    }
  }

  /** Only entries that inherit the case flags carry them, and those carry
      the case's flags exactly. */
  lemma CaseFlagsOnlyWhereInherited(c: CaseLoader.CaseFile, specId: Option<string>, freshHex: string,
                                    templateName: string, template: Template, rubric: seq<UniversalCompetency>, k: nat)
    requires k < |KnownEntries(template.competencies, rubric)|
    ensures var r := CreateCaseInterviewSpec(c, specId, freshHex, templateName, template, rubric);
            r.Success? ==>
            var spec := r.value;
            var e := KnownEntries(template.competencies, rubric)[k];
            && k < |spec.competencies|
            && spec.competencies[k].competencyId == e.id
            && (e.inheritCaseFlags ==> spec.competencies[k].additionalRedFlags == c.redFlags.GetOr([])
                                       && spec.competencies[k].additionalGreenFlags == c.greenFlags.GetOr([]))
            && (!e.inheritCaseFlags ==> spec.competencies[k].additionalRedFlags == []
                                        && spec.competencies[k].additionalGreenFlags == [])
  {
  }

  /** The case specification and the legacy state built from the same case
      file hold the same case content. */
  lemma CaseSpecAgreesWithLegacyState(c: CaseLoader.CaseFile, specId: Option<string>, freshHex: string,
                                      templateName: string, template: Template, rubric: seq<UniversalCompetency>,
                                      caseId: string, candidateId: Option<string>, sessionId: string, startedAt: string)
    requires c.title.Some? && c.opening.Some? && c.facts.Some?
    ensures var r := CreateCaseInterviewSpec(c, specId, freshHex, templateName, template, rubric);
            r.Success? ==>
            var study := r.value.contextPacket.caseStudy;
            var d := CaseLoader.GetCaseData(CaseLoader.InitializeInterviewState(c, caseId, candidateId, sessionId, startedAt).value);
            && study.Some?
            && study.value.casePrompt == d.opening && study.value.facts == d.facts
            && study.value.rootCause == d.rootCause && study.value.strongRecommendations == d.strongRecommendations
            && study.value.calibrationExamples == d.calibration
  {
    CaseLoader.CaseContentRoundTrip(c, caseId, candidateId, sessionId, startedAt);
  }

  // ---------------------------------------------------------------------------
  // The competency summary
  // ---------------------------------------------------------------------------

  datatype SummaryEntry = SummaryEntry(id: string, name: string, description: string,
                                       redFlags: seq<string>, greenFlags: seq<string>)

  /** The selections grouped by tier, each group in specification order. */
  datatype Summary = Summary(critical: seq<SummaryEntry>, important: seq<SummaryEntry>, bonus: seq<SummaryEntry>)

  /** The selections of one tier, in order. */
  function OfTier(cs: seq<SelectedCompetency>, t: Tier): (r: seq<SelectedCompetency>)
    ensures forall c :: c in r <==> c in cs && c.tier == t
    ensures IsSubsequence(r, cs)
  {
    if |cs| == 0 then []
    else
      var rest := OfTier(cs[1..], t);
      assert cs == [cs[0]] + cs[1..];
      if cs[0].tier == t then [cs[0]] + rest else rest
  }

  /** The three tiers share out the selections between them. */
  lemma {:induction false} TiersCoverAll(cs: seq<SelectedCompetency>)
    ensures |OfTier(cs, Critical)| + |OfTier(cs, Important)| + |OfTier(cs, Bonus)| == |cs|
  {
    if |cs| > 0 {
      TiersCoverAll(cs[1..]);
    }
  }

  /** One selection as the summary shows it: the library entry's name and
      description, and its flags with the session's additions. */
  function EntryFor(sel: SelectedCompetency, rubric: seq<UniversalCompetency>): SummaryEntry
    requires InRubric(rubric, sel.competencyId)
  {
    var full := GetFullCompetency(sel, rubric).value;
    SummaryEntry(sel.competencyId, full.name, full.description, full.redFlags, full.greenFlags)
  }

  /** `es` shows the selections `cs`, one entry each, in order. */
  predicate Shows(es: seq<SummaryEntry>, cs: seq<SelectedCompetency>, rubric: seq<UniversalCompetency>) {
    && (forall c :: c in cs ==> InRubric(rubric, c.competencyId))
    && |es| == |cs|
    && forall k :: 0 <= k < |cs| ==> es[k] == EntryFor(cs[k], rubric)
  }

  /** Showing one more selection in front adds its entry in front. */
  lemma ShowsCons(e: SummaryEntry, es: seq<SummaryEntry>, sel: SelectedCompetency, cs: seq<SelectedCompetency>,
                  rubric: seq<UniversalCompetency>)
    requires Shows(es, cs, rubric) && InRubric(rubric, sel.competencyId) && e == EntryFor(sel, rubric)
    ensures Shows([e] + es, [sel] + cs, rubric)
  {
    forall k | 0 <= k < |cs| + 1 ensures ([e] + es)[k] == EntryFor(([sel] + cs)[k], rubric) {
      if k > 0 {
        assert ([e] + es)[k] == es[k - 1] && ([sel] + cs)[k] == cs[k - 1];
      }
    }
  }

  function SummaryOf(cs: seq<SelectedCompetency>, rubric: seq<UniversalCompetency>): (r: Result<Summary, string>)
    ensures r.Failure? <==> exists c :: c in cs && !InRubric(rubric, c.competencyId)
    ensures r.Success? ==> && Shows(r.value.critical, OfTier(cs, Critical), rubric)
                           && Shows(r.value.important, OfTier(cs, Important), rubric)
                           && Shows(r.value.bonus, OfTier(cs, Bonus), rubric)
  {
    if |cs| == 0 then Success(Summary([], [], []))
    else
      var sel := cs[0];
      assert cs == [sel] + cs[1..];
      match GetFullCompetency(sel, rubric)
      case Failure(e) => Failure(e)
      case Success(_) =>
        match SummaryOf(cs[1..], rubric)
        case Failure(e) => Failure(e)
        case Success(rest) =>
          var e := EntryFor(sel, rubric);
          match sel.tier
          case Critical =>
            ShowsCons(e, rest.critical, sel, OfTier(cs[1..], Critical), rubric);
            Success(rest.(critical := [e] + rest.critical))
          case Important =>
            ShowsCons(e, rest.important, sel, OfTier(cs[1..], Important), rubric);
            Success(rest.(important := [e] + rest.important))
          case Bonus =>
            ShowsCons(e, rest.bonus, sel, OfTier(cs[1..], Bonus), rubric);
            Success(rest.(bonus := [e] + rest.bonus))
  }

  /** `get_competencies_summary`: raises on a selection the rubric does not
      know; otherwise every selection appears once, under its tier, in
      specification order, with its merged flags. */
  function GetCompetenciesSummary(spec: InterviewSpec, rubric: seq<UniversalCompetency>): (r: Result<Summary, string>)
    ensures r.Failure? <==> exists c :: c in spec.competencies && !InRubric(rubric, c.competencyId)
    ensures r.Success? ==> && Shows(r.value.critical, OfTier(spec.competencies, Critical), rubric)
                           && Shows(r.value.important, OfTier(spec.competencies, Important), rubric)
                           && Shows(r.value.bonus, OfTier(spec.competencies, Bonus), rubric)
    ensures r.Success? ==> |r.value.critical| + |r.value.important| + |r.value.bonus| == |spec.competencies|
  {
    TiersCoverAll(spec.competencies);
    SummaryOf(spec.competencies, rubric)
  }

  /** A loaded specification always summarises, and its critical group is never empty. */
  lemma ValidSpecSummarises(spec: InterviewSpec, rubric: seq<UniversalCompetency>)
    requires SpecIsValid(spec, rubric)
    ensures GetCompetenciesSummary(spec, rubric).Success?
    ensures |GetCompetenciesSummary(spec, rubric).value.critical| > 0
  {
    var c :| c in spec.competencies && c.tier == Critical;
    assert c in OfTier(spec.competencies, Critical);
  }
}
