/** The interview specification: the per-session configuration assembled
    once at session creation (context packet, selected competencies with
    tiers, heuristics, phases, constraints), with its validation rules. */
module Schema {
  import opened Wrappers
  import opened Seqs
  import opened Rubric

  datatype PacketType = CvScreen | CaseStudy | TechnicalProblem

  /** A free-form JSON object (a test case, a hint): opaque to the core. */
  type Record = map<string, string>

  datatype CvScreenContext = CvScreenContext(
    jobDescription: string,
    candidateCv: string,
    roleTitle: string,
    companyContext: Option<string>,
    jdRequirements: seq<string>,
    cvClaims: seq<string>,
    gapsToProbe: seq<string>,
    claimsToValidate: seq<string>)

  datatype CaseStudyContext = CaseStudyContext(
    casePrompt: string,
    facts: map<string, string>,
    rootCause: string,
    strongRecommendations: seq<string>,
    calibrationExamples: map<string, seq<string>>)

  datatype TechnicalProblemContext = TechnicalProblemContext(
    problemStatement: string,
    starterCode: Option<string>,
    testCases: seq<Record>,
    expectedComplexity: Option<string>,
    availableHints: seq<Record>,
    solutionApproach: string,
    commonPitfalls: seq<string>,
    edgeCases: seq<string>)

  /** Tagged by `packetType`; only the matching variant is meant to be populated. */
  datatype ContextPacket = ContextPacket(
    packetType: PacketType,
    cvScreen: Option<CvScreenContext>,
    caseStudy: Option<CaseStudyContext>,
    technicalProblem: Option<TechnicalProblemContext>)

  datatype Context =
    | CvContext(cv: CvScreenContext)
    | CaseContext(caseStudy: CaseStudyContext)
    | TechnicalContext(problem: TechnicalProblemContext)

  function ContextKind(c: Context): PacketType {
    match c
    case CvContext(_) => CvScreen
    case CaseContext(_) => CaseStudy
    case TechnicalContext(_) => TechnicalProblem
  }

  /** The variant `packetType` names is present. */
  predicate VariantPopulated(p: ContextPacket) {
    match p.packetType
    case CvScreen => p.cvScreen.Some?
    case CaseStudy => p.caseStudy.Some?
    case TechnicalProblem => p.technicalProblem.Some?
  }

  /** `ContextPacket.get_context`: the variant selected by `packetType` (None when that slot is empty). */
  function GetContext(p: ContextPacket): (r: Option<Context>)
    ensures r.Some? <==> VariantPopulated(p)
    ensures r.Some? ==> ContextKind(r.value) == p.packetType
    ensures r.Some? ==> match r.value
                        case CvContext(c) => p.cvScreen == Some(c)
                        case CaseContext(c) => p.caseStudy == Some(c)
                        case TechnicalContext(c) => p.technicalProblem == Some(c)
  {
    match p.packetType
    case CvScreen => if p.cvScreen.Some? then Some(CvContext(p.cvScreen.value)) else None
    case CaseStudy => if p.caseStudy.Some? then Some(CaseContext(p.caseStudy.value)) else None
    case TechnicalProblem => if p.technicalProblem.Some? then Some(TechnicalContext(p.technicalProblem.value)) else None
  }

  datatype SelectedCompetency = SelectedCompetency(
    competencyId: string,
    tier: Tier,
    additionalRedFlags: seq<string>,
    additionalGreenFlags: seq<string>,
    caseSpecificIndicators: map<int, seq<string>>)

  /** A selection with no session-specific additions (the pydantic defaults). */
  function Select(id: string, tier: Tier): SelectedCompetency {
    SelectedCompetency(id, tier, [], [], map[])
  }

  datatype InterviewerHeuristics = InterviewerHeuristics(
    tone: string,
    personaDescription: string,
    primaryMode: string,
    silenceTolerance: string,
    hintPhilosophy: string,
    rescuePolicy: string,
    pushbackStyle: string,
    followUpDepth: string,
    dataRevelation: string,
    openingStyle: string,
    closingStyle: string)

  datatype PhaseConfig = PhaseConfig(
    id: string,
    name: string,
    objective: string,
    suggestedMinExchanges: int,
    suggestedMaxExchanges: Option<int>,
    transitionSignals: seq<string>,
    focusCompetencies: seq<string>,
    heuristicOverrides: map<string, string>)

  datatype SessionConstraints = SessionConstraints(
    maxDurationMinutes: int,
    maxExchanges: int,
    minExchangesForCompletion: int,
    allowEarlyTermination: bool)

  /** `SessionConstraints()` with every field left at its declared default. */
  function DefaultConstraints(): (c: SessionConstraints)
    ensures c.maxDurationMinutes == 30 && c.maxExchanges == 15
    ensures c.minExchangesForCompletion == 5 && c.allowEarlyTermination
  {
    SessionConstraints(30, 15, 5, true)
  }

  datatype InterviewSpec = InterviewSpec(
    specId: string,
    interviewType: InterviewType,
    title: string,
    version: string,
    contextPacket: ContextPacket,
    competencies: seq<SelectedCompetency>,
    heuristics: InterviewerHeuristics,
    phases: seq<PhaseConfig>,
    constraints: SessionConstraints,
    templateId: Option<string>)

  /** `SelectedCompetency.get_full_competency`: the library entry with the
      session's extra flags appended and its extra indicators appended to
      the levels the entry already has; an unknown id raises. */
  function GetFullCompetency(sel: SelectedCompetency, rubric: seq<UniversalCompetency>): (r: Result<UniversalCompetency, string>)
    ensures r.Failure? <==> !InRubric(rubric, sel.competencyId)
    ensures r.Success? ==> MergedFrom(r.value, GetCompetency(rubric, sel.competencyId).value, sel)
  {
    match GetCompetency(rubric, sel.competencyId)
    case None => Failure("Unknown competency: " + sel.competencyId)
    case Some(base) =>
      var levels := map l | l in base.levels ::
        if l in sel.caseSpecificIndicators
        then base.levels[l].(indicators := base.levels[l].indicators + sel.caseSpecificIndicators[l])
        else base.levels[l];
      Success(base.(redFlags := base.redFlags + sel.additionalRedFlags,
                    greenFlags := base.greenFlags + sel.additionalGreenFlags,
                    levels := levels))
  }

  /** What merging a selection over its library entry means, field by field. */
  predicate MergedFrom(merged: UniversalCompetency, base: UniversalCompetency, sel: SelectedCompetency) {
    && merged.id == base.id && merged.name == base.name && merged.description == base.description
    && merged.applicableTypes == base.applicableTypes
    && merged.redFlags == base.redFlags + sel.additionalRedFlags
    && merged.greenFlags == base.greenFlags + sel.additionalGreenFlags
    && merged.levels.Keys == base.levels.Keys
    && forall l :: l in base.levels ==>
         && merged.levels[l].level == base.levels[l].level
         && merged.levels[l].name == base.levels[l].name
         && merged.levels[l].indicators ==
              base.levels[l].indicators + (if l in sel.caseSpecificIndicators then sel.caseSpecificIndicators[l] else [])
  }

  /** `InterviewSpec.get_critical_competencies`: the critical selections, in spec order. */
  function GetCriticalCompetencies(cs: seq<SelectedCompetency>): (r: seq<SelectedCompetency>)
    ensures forall c :: c in r <==> c in cs && c.tier == Critical
    ensures IsSubsequence(r, cs)
  {
    if |cs| == 0 then []
    else
      var rest := GetCriticalCompetencies(cs[1..]);
      assert cs == [cs[0]] + cs[1..];
      if cs[0].tier == Critical then [cs[0]] + rest else rest
  }

  /** `InterviewSpec.get_competency_by_id`: the first selection with this id, or None. */
  function GetCompetencyById(cs: seq<SelectedCompetency>, id: string): (r: Option<SelectedCompetency>)
    ensures r.None? <==> forall i :: 0 <= i < |cs| ==> cs[i].competencyId != id
    ensures r.Some? ==> exists i :: 0 <= i < |cs| && cs[i] == r.value && r.value.competencyId == id
                                   && forall j :: 0 <= j < i ==> cs[j].competencyId != id
  {
    if |cs| == 0 then None
    else if cs[0].competencyId == id then Some(cs[0])
    else
      var rest := GetCompetencyById(cs[1..], id);
      assert forall i :: 0 < i < |cs| ==> cs[i] == cs[1..][i - 1];
      rest
  }

  // ---------------------------------------------------------------------------
  // Validation
  // ---------------------------------------------------------------------------

  /** One finding of `validate_spec`. The source renders each as a sentence;
      the model keeps the data the sentence carries. */
  datatype Issue =
    | PacketMismatch(interviewType: InterviewType, got: PacketType)
    | ContextMissing(packetType: PacketType)
    | UnknownCompetency(competencyId: string)
    | NoCriticalCompetency
    | UnknownFocusCompetency(phaseId: string, competencyId: string)

  function ExpectedPacket(t: InterviewType): PacketType {
    match t
    case FirstRound => CvScreen
    case Case => CaseStudy
    case Technical => TechnicalProblem
  }

  function CompetencyIds(cs: seq<SelectedCompetency>): (ids: seq<string>)
    ensures |ids| == |cs|
    ensures forall i :: 0 <= i < |cs| ==> ids[i] == cs[i].competencyId
  {
    seq(|cs|, i requires 0 <= i < |cs| => cs[i].competencyId)
  }

  function UnknownCompetencyIssues(cs: seq<SelectedCompetency>, rubric: seq<UniversalCompetency>): (issues: seq<Issue>)
    ensures |issues| <= |cs|
    ensures forall k :: 0 <= k < |issues| ==> issues[k].UnknownCompetency? && !InRubric(rubric, issues[k].competencyId)
    ensures |issues| == 0 <==> forall i :: 0 <= i < |cs| ==> InRubric(rubric, cs[i].competencyId)
  {
    if |cs| == 0 then []
    else
      var rest := UnknownCompetencyIssues(cs[1..], rubric);
      assert forall i :: 0 < i < |cs| ==> cs[i] == cs[1..][i - 1];
      if InRubric(rubric, cs[0].competencyId) then rest else [UnknownCompetency(cs[0].competencyId)] + rest
  }

  function FocusIssues(phases: seq<PhaseConfig>, ids: set<string>): (issues: seq<Issue>)
    ensures forall k :: 0 <= k < |issues| ==> issues[k].UnknownFocusCompetency? && issues[k].competencyId !in ids
    ensures |issues| == 0 <==> forall p, f :: p in phases && f in p.focusCompetencies ==> f in ids
  {
    if |phases| == 0 then []
    else
      var rest := FocusIssues(phases[1..], ids);
      assert phases == [phases[0]] + phases[1..];
      PhaseFocusIssues(phases[0].id, phases[0].focusCompetencies, ids) + rest
  }

  function PhaseFocusIssues(phaseId: string, focus: seq<string>, ids: set<string>): (issues: seq<Issue>)
    ensures forall k :: 0 <= k < |issues| ==> issues[k].UnknownFocusCompetency? && issues[k].phaseId == phaseId && issues[k].competencyId !in ids
    ensures |issues| == 0 <==> forall f :: f in focus ==> f in ids
  {
    if |focus| == 0 then []
    else
      var rest := PhaseFocusIssues(phaseId, focus[1..], ids);
      assert focus == [focus[0]] + focus[1..];
      if focus[0] in ids then rest else [UnknownFocusCompetency(phaseId, focus[0])] + rest
  }

  /** `validate_spec`: every rule that fails contributes its issues, rule by rule. */
  function ValidateSpec(spec: InterviewSpec, rubric: seq<UniversalCompetency>): seq<Issue> {
    var packet := spec.contextPacket;
    var mismatch := if packet.packetType != ExpectedPacket(spec.interviewType)
                    then [PacketMismatch(spec.interviewType, packet.packetType)] else [];
    var missing := if !VariantPopulated(packet) then [ContextMissing(packet.packetType)] else [];
    var unknown := UnknownCompetencyIssues(spec.competencies, rubric);
    var critical := if |GetCriticalCompetencies(spec.competencies)| == 0 then [NoCriticalCompetency] else [];
    var focus := FocusIssues(spec.phases, set c | c in spec.competencies :: c.competencyId);
    mismatch + missing + unknown + critical + focus
  }

  /** The conditions a well-formed specification meets, stated independently of the issue list. */
  predicate SpecIsValid(spec: InterviewSpec, rubric: seq<UniversalCompetency>) {
    && spec.contextPacket.packetType == ExpectedPacket(spec.interviewType)
    && VariantPopulated(spec.contextPacket)
    && (forall c :: c in spec.competencies ==> InRubric(rubric, c.competencyId))
    && (exists c :: c in spec.competencies && c.tier == Critical)
    && (forall p, f :: p in spec.phases && f in p.focusCompetencies ==>
          exists c :: c in spec.competencies && c.competencyId == f)
  }

  /** `validate_spec` reports nothing exactly when every rule holds. */
  lemma ValidateSpecEmptyIff(spec: InterviewSpec, rubric: seq<UniversalCompetency>)
    ensures ValidateSpec(spec, rubric) == [] <==> SpecIsValid(spec, rubric)
  {
    var packet := spec.contextPacket;
    var cs := spec.competencies;
    var ids := set c | c in cs :: c.competencyId;
    var crit := GetCriticalCompetencies(cs);
    var unknown := UnknownCompetencyIssues(cs, rubric);
    var focus := FocusIssues(spec.phases, ids);
    var mismatch := if packet.packetType != ExpectedPacket(spec.interviewType)
                    then [PacketMismatch(spec.interviewType, packet.packetType)] else [];
    var missing := if !VariantPopulated(packet) then [ContextMissing(packet.packetType)] else [];
    var critical := if |crit| == 0 then [NoCriticalCompetency] else [];
    assert ValidateSpec(spec, rubric) == mismatch + missing + unknown + critical + focus;
    assert |ValidateSpec(spec, rubric)| == |mismatch| + |missing| + |unknown| + |critical| + |focus|;
    assert |unknown| == 0 <==> (forall c :: c in cs ==> InRubric(rubric, c.competencyId)) by {
      assert (forall c :: c in cs ==> InRubric(rubric, c.competencyId))
         <==> (forall i :: 0 <= i < |cs| ==> InRubric(rubric, cs[i].competencyId));
    }
    assert |critical| == 0 <==> exists c :: c in cs && c.tier == Critical by {
      if |crit| > 0 { assert crit[0] in crit; }
    }
    assert |focus| == 0 <==> (forall p, f :: p in spec.phases && f in p.focusCompetencies ==>
                                exists c :: c in cs && c.competencyId == f) by {
      forall f ensures f in ids <==> exists c :: c in cs && c.competencyId == f {
        if f in ids { var c :| c in cs && c.competencyId == f; }
      }
    }
  }

  /** Appending a selection adds exactly one unknown-competency issue when its
      id is missing from the rubric and none otherwise, after the earlier ones. */
  lemma {:induction false} UnknownIssuesAppend(cs: seq<SelectedCompetency>, c: SelectedCompetency, rubric: seq<UniversalCompetency>)
    ensures UnknownCompetencyIssues(cs + [c], rubric) ==
            UnknownCompetencyIssues(cs, rubric) + (if InRubric(rubric, c.competencyId) then [] else [UnknownCompetency(c.competencyId)])
    decreases |cs|
  {
    if |cs| == 0 {
      assert (cs + [c])[1..] == [];
    } else {
      assert (cs + [c])[1..] == cs[1..] + [c];
      UnknownIssuesAppend(cs[1..], c, rubric);
    }
  }

  /** A specification without a critical competency gets exactly one issue saying so. */
  lemma NoCriticalReportedOnce(spec: InterviewSpec, rubric: seq<UniversalCompetency>)
    ensures multiset(ValidateSpec(spec, rubric))[NoCriticalCompetency] ==
            if exists c :: c in spec.competencies && c.tier == Critical then 0 else 1
  {
    var cs := spec.competencies;
    var crit := GetCriticalCompetencies(cs);
    var unknown := UnknownCompetencyIssues(cs, rubric);
    var focus := FocusIssues(spec.phases, set c | c in cs :: c.competencyId);
    assert NoCriticalCompetency !in unknown;
    assert NoCriticalCompetency !in focus;
    assert |crit| == 0 <==> !exists c :: c in cs && c.tier == Critical by {
      if |crit| > 0 { assert crit[0] in crit; }
    }
  }

  /** Only the declared variant is inspected: whatever the other slots hold does not change the verdict. */
  lemma ValidateIgnoresOtherVariants(spec: InterviewSpec, other: ContextPacket, rubric: seq<UniversalCompetency>)
    requires other.packetType == spec.contextPacket.packetType
    requires GetContext(other) == GetContext(spec.contextPacket)
    ensures ValidateSpec(spec.(contextPacket := other), rubric) == ValidateSpec(spec, rubric)
  {
  }
}
