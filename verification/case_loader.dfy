/** The legacy case path: a case file, already read and decoded, becomes a
    fresh interview state without a specification; and the case content is
    projected back out of a state for the prompts. */
module CaseLoader {
  import opened Wrappers
  import opened Text
  import opened Schema
  import opened State
  import Interviewer

  /** A decoded case file. A key the file leaves out is None. */
  datatype CaseFile = CaseFile(
    id: Option<string>,
    title: Option<string>,
    opening: Option<string>,
    facts: Option<map<string, string>>,
    rootCause: Option<string>,
    strongRecommendations: Option<seq<string>>,
    calibration: Option<map<string, seq<string>>>,
    redFlags: Option<seq<string>>,
    greenFlags: Option<seq<string>>)

  /** The eight case fields the prompts read, in one record. */
  datatype CaseData = CaseData(
    title: string,
    opening: string,
    facts: map<string, string>,
    rootCause: string,
    strongRecommendations: seq<string>,
    calibration: map<string, seq<string>>,
    redFlags: seq<string>,
    greenFlags: seq<string>)

  /** A state nothing has happened to yet: no transcript, nothing assessed,
      no flags, no advice, no tokens, not complete and not scored. */
  predicate IsFresh(s: InterviewState) {
    && s.messages == [] && s.currentPhase == "INTRO"
    && s.currentLevel == 0 && s.levelName == LevelName(s.currentLevel) && s.levelTrend == "STABLE"
    && s.levelHistory == [] && s.redFlagsObserved == [] && s.greenFlagsObserved == []
    && s.evaluatorAction == "" && s.evaluatorGuidance == "" && s.dataToShare.None?
    && s.competencyScores == [] && s.managerDirective.None? && s.questionScores == []
    && !s.isComplete && s.shouldContinue.None? && s.finalScore.None? && s.finalSummary.None?
    && s.totalTokens == 0
  }

  /** `initialize_interview_state`, with the loaded case, the fresh session
      id and the start time passed in. A missing title, opening or facts key
      raises; the error names the first one missing, in the order the
      source reads them. */
  function InitializeInterviewState(c: CaseFile, caseId: string, candidateId: Option<string>,
                                    sessionId: string, startedAt: string): (r: Result<InterviewState, string>)
    ensures r.Failure? <==> c.title.None? || c.opening.None? || c.facts.None?
    ensures r.Failure? ==> r.error == (if c.title.None? then "title" else if c.opening.None? then "opening" else "facts")
    ensures r.Success? ==> IsFresh(r.value) && !HasSpec(r.value)
    ensures r.Success? ==> r.value.sessionId == sessionId && r.value.caseId == caseId
                           && r.value.candidateId == candidateId && r.value.startedAt == startedAt
  {
    if c.title.None? then Failure("title")
    else if c.opening.None? then Failure("opening")
    else if c.facts.None? then Failure("facts")
    else
      Success(InterviewState(
        sessionId, candidateId, startedAt, None, caseId,
        c.title.value, c.opening.value, c.facts.value,
        c.rootCause.GetOr(""), c.strongRecommendations.GetOr([]), c.calibration.GetOr(map[]),
        c.redFlags.GetOr([]), c.greenFlags.GetOr([]),
        "INTRO", [], [], 0, "NOT_ASSESSED", "STABLE", [], [], [],
        "", "", None, None, [], false, None, None, None, 0))
  }

  /** `get_case_data`. */
  function GetCaseData(s: InterviewState): CaseData {
    CaseData(s.caseTitle, s.opening, s.facts, s.rootCause, s.strongRecommendations,
             s.calibration, s.caseRedFlags, s.caseGreenFlags)
  }

  /** Loading a case and reading its content back returns the file's
      content, with the documented defaults for the optional keys. */
  lemma CaseContentRoundTrip(c: CaseFile, caseId: string, candidateId: Option<string>, sessionId: string, startedAt: string)
    requires c.title.Some? && c.opening.Some? && c.facts.Some?
    ensures InitializeInterviewState(c, caseId, candidateId, sessionId, startedAt).Success?
    ensures var d := GetCaseData(InitializeInterviewState(c, caseId, candidateId, sessionId, startedAt).value);
            && d.title == c.title.value && d.opening == c.opening.value && d.facts == c.facts.value
            && d.rootCause == c.rootCause.GetOr("")
            && d.strongRecommendations == c.strongRecommendations.GetOr([])
            && d.calibration == c.calibration.GetOr(map[])
            && d.redFlags == c.redFlags.GetOr([]) && d.greenFlags == c.greenFlags.GetOr([])
  {
  }

  /** A freshly loaded case opens on the legacy path: one interviewer
      message that ends by handing over to the candidate, and the phase
      moves to STRUCTURING; the manager then applies the default limits. */
  lemma FreshCaseOpensOnLegacyPath(c: CaseFile, caseId: string, candidateId: Option<string>,
                                   sessionId: string, startedAt: string, out: Interviewer.InterviewerOutput)
    requires c.title.Some? && c.opening.Some? && c.facts.Some?
    ensures var s := InitializeInterviewState(c, caseId, candidateId, sessionId, startedAt).value;
            var t := Interviewer.InterviewerNode(s, out);
            && |t.messages| == 1 && t.messages[0].role == Interviewer
            && EndsWith(t.messages[0].content, Interviewer.OverToYou)
            && t.currentPhase == "STRUCTURING"
  {
    var s := InitializeInterviewState(c, caseId, candidateId, sessionId, startedAt).value;
    assert Interviewer.InterviewerNode(s, out) == Interviewer.LegacyOpening(s);
  }
}
