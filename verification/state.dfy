/** The session state that flows through every stage of a turn, and the
    small total functions over it: empty competency scores, the level-name
    table, and the current-phase lookup. */
module State {
  import opened Wrappers
  import opened Seqs
  import opened Text
  import opened Rubric
  import opened Schema

  datatype Role = Interviewer | Candidate | System

  /** One transcript entry. Timestamps are wall-clock values and are not modelled. */
  datatype Message = Message(role: Role, content: string)

  datatype Confidence = Low | Medium | High

  datatype CompetencyScore = CompetencyScore(
    competencyId: string,
    currentLevel: int,
    evidence: seq<string>,
    confidence: Confidence,
    levelHistory: seq<Record>,
    redFlagsObserved: seq<string>,
    greenFlagsObserved: seq<string>)

  datatype Urgency = Normal | WrapUpSoon | MustEnd

  /** The manager's advice to the interviewer. */
  datatype ManagerDirective = ManagerDirective(
    shouldContinue: bool,
    focusArea: Option<string>,
    urgency: Urgency,
    undercoveredCompetencies: seq<string>,
    satisfiedCompetencies: seq<string>,
    suggestedPhase: Option<string>,
    phaseSuggestionReason: Option<string>)

  /** The interview state. `competencyScores` is the score dictionary in
      insertion order (one entry per id); `shouldContinue` is None until the
      manager has written it. */
  datatype InterviewState = InterviewState(
    sessionId: string,
    candidateId: Option<string>,
    startedAt: string,
    interviewSpec: Option<InterviewSpec>,
    caseId: string,
    caseTitle: string,
    opening: string,
    facts: map<string, string>,
    rootCause: string,
    strongRecommendations: seq<string>,
    calibration: map<string, seq<string>>,
    caseRedFlags: seq<string>,
    caseGreenFlags: seq<string>,
    currentPhase: string,
    messages: seq<Message>,
    competencyScores: seq<CompetencyScore>,
    currentLevel: int,
    levelName: string,
    levelTrend: string,
    levelHistory: seq<Record>,
    redFlagsObserved: seq<string>,
    greenFlagsObserved: seq<string>,
    evaluatorAction: string,
    evaluatorGuidance: string,
    dataToShare: Option<string>,
    managerDirective: Option<ManagerDirective>,
    questionScores: seq<Record>,
    isComplete: bool,
    shouldContinue: Option<bool>,
    finalScore: Option<int>,
    finalSummary: Option<string>,
    totalTokens: int)

  /** `create_empty_competency_score`. */
  function CreateEmptyCompetencyScore(id: string): (s: CompetencyScore)
    ensures IsEmptyScore(s, id)
  {
    CompetencyScore(id, 0, [], Low, [], [], [])
  }

  /** Unassessed: level 0, low confidence, no evidence, history or flags. */
  predicate IsEmptyScore(s: CompetencyScore, id: string) {
    && s.competencyId == id && s.currentLevel == 0 && s.confidence == Low
    && s.evidence == [] && s.levelHistory == [] && s.redFlagsObserved == [] && s.greenFlagsObserved == []
  }

  function ScoreIds(scores: seq<CompetencyScore>): (ids: seq<string>)
    ensures |ids| == |scores|
    ensures forall i :: 0 <= i < |scores| ==> ids[i] == scores[i].competencyId
  {
    seq(|scores|, i requires 0 <= i < |scores| => scores[i].competencyId)
  }

  /** `competency_scores.get(id)`. */
  function FindScore(scores: seq<CompetencyScore>, id: string): (r: Option<CompetencyScore>)
    ensures r.None? <==> id !in ScoreIds(scores)
    ensures r.Some? ==> r.value in scores && r.value.competencyId == id
  {
    if |scores| == 0 then None
    else if scores[0].competencyId == id then Some(scores[0])
    else
      var rest := FindScore(scores[1..], id);
      assert ScoreIds(scores) == [scores[0].competencyId] + ScoreIds(scores[1..]);
      rest
  }

  /** `scores[id] = create_empty_competency_score(id)`: a new key goes last;
      an existing key keeps its place (its value is the same empty score). */
  function PutEmpty(scores: seq<CompetencyScore>, id: string): seq<CompetencyScore> {
    if id in ScoreIds(scores) then
      seq(|scores|, i requires 0 <= i < |scores| =>
        if scores[i].competencyId == id then CreateEmptyCompetencyScore(id) else scores[i])
    else scores + [CreateEmptyCompetencyScore(id)]
  }

  function InitializeFrom(scores: seq<CompetencyScore>, cs: seq<SelectedCompetency>): (r: seq<CompetencyScore>)
    requires Distinct(ScoreIds(scores))
    requires forall i :: 0 <= i < |scores| ==> IsEmptyScore(scores[i], scores[i].competencyId)
    ensures Distinct(ScoreIds(r))
    ensures forall i :: 0 <= i < |r| ==> IsEmptyScore(r[i], r[i].competencyId)
    ensures forall id :: id in ScoreIds(r) <==> id in ScoreIds(scores) || id in CompetencyIds(cs)
    decreases |cs|
  {
    if |cs| == 0 then scores
    else
      var next := PutEmpty(scores, cs[0].competencyId);
      assert ScoreIds(next) == ScoreIds(scores) || ScoreIds(next) == ScoreIds(scores) + [cs[0].competencyId];
      assert forall id :: id in CompetencyIds(cs) <==> id == cs[0].competencyId || id in CompetencyIds(cs[1..]) by {
        assert CompetencyIds(cs) == [cs[0].competencyId] + CompetencyIds(cs[1..]);
      }
      InitializeFrom(next, cs[1..])
  }

  /** `initialize_competency_scores`: exactly the specification's competency
      ids as keys, each holding an unassessed score. */
  function InitializeCompetencyScores(spec: InterviewSpec): (r: seq<CompetencyScore>)
    ensures Distinct(ScoreIds(r))
    ensures forall id :: id in ScoreIds(r) <==> id in CompetencyIds(spec.competencies)
    ensures forall i :: 0 <= i < |r| ==> IsEmptyScore(r[i], r[i].competencyId)
  {
    InitializeFrom([], spec.competencies)
  }

  /** `get_level_name`. */
  function LevelName(level: int): (r: string)
    ensures r == "UNKNOWN" <==> !(0 <= level <= 5)
  {
    if level == 0 then "NOT_ASSESSED"
    else if level == 1 then "FAIL"
    else if level == 2 then "WEAK"
    else if level == 3 then "GOOD_NOT_ENOUGH"
    else if level == 4 then "CLEAR_PASS"
    else if level == 5 then "OUTSTANDING"
    else "UNKNOWN"
  }

  /** The table is injective on 0..5, keeps "not assessed" apart from
      "fail", and sends every other integer to one fallback name. */
  lemma LevelNameTable(a: int, b: int)
    ensures 0 <= a <= 5 && 0 <= b <= 5 && a != b ==> LevelName(a) != LevelName(b)
    ensures LevelName(a) == "UNKNOWN" <==> !(0 <= a <= 5)
    ensures LevelName(0) == "NOT_ASSESSED" && LevelName(1) == "FAIL"
  {
  }

  /** `has_spec`. */
  predicate HasSpec(s: InterviewState) {
    s.interviewSpec.Some?
  }

  /** The first phase whose id equals `phaseId` ignoring case. */
  function FindPhase(phases: seq<PhaseConfig>, phaseId: string): (r: Option<nat>)
    ensures r.Some? ==> r.value < |phases| && EqualIgnoringCase(phases[r.value].id, phaseId)
                        && forall j :: 0 <= j < r.value ==> !EqualIgnoringCase(phases[j].id, phaseId)
    ensures r.None? ==> forall j :: 0 <= j < |phases| ==> !EqualIgnoringCase(phases[j].id, phaseId)
  {
    if |phases| == 0 then None
    else if EqualIgnoringCase(phases[0].id, phaseId) then Some(0)
    else match FindPhase(phases[1..], phaseId)
         case None => None
         case Some(k) => Some(k + 1)
  }

  /** `get_current_phase_config`: None without a specification; otherwise
      the first phase whose id matches the current phase ignoring case. */
  function CurrentPhaseConfig(s: InterviewState): (r: Option<PhaseConfig>)
    ensures !HasSpec(s) ==> r.None?
    ensures HasSpec(s) ==>
      var phases := s.interviewSpec.value.phases;
      && (r.None? <==> forall j :: 0 <= j < |phases| ==> !EqualIgnoringCase(phases[j].id, s.currentPhase))
      && (r.Some? ==> exists i :: 0 <= i < |phases| && phases[i] == r.value
                                  && EqualIgnoringCase(r.value.id, s.currentPhase)
                                  && forall j :: 0 <= j < i ==> !EqualIgnoringCase(phases[j].id, s.currentPhase))
  {
    if !HasSpec(s) then None
    else match FindPhase(s.interviewSpec.value.phases, s.currentPhase)
         case None => None
         case Some(i) => Some(s.interviewSpec.value.phases[i])
  }

  /** Number of candidate turns in a transcript (the manager's exchange count). */
  function CandidateCount(messages: seq<Message>): (n: nat)
    ensures n <= |messages|
  {
    if |messages| == 0 then 0
    else CandidateCount(messages[..|messages| - 1]) + (if messages[|messages| - 1].role == Candidate then 1 else 0)
  }

  /** Appending a message adds one to the count exactly when it is the candidate's. */
  lemma CandidateCountAppend(messages: seq<Message>, m: Message)
    ensures CandidateCount(messages + [m]) == CandidateCount(messages) + (if m.role == Candidate then 1 else 0)
  {
    assert (messages + [m])[..|messages|] == messages;
  }
}
