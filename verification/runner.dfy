/** The turn runner (`InterviewRunner`): the opening, and per candidate
    turn the fixed pipeline evaluator -> interviewer -> manager, each stage
    merged over the state the previous one left, followed by a synthesized
    closing when the session has just become complete without one. */
module Runner {
  import opened Wrappers
  import opened Text
  import opened Schema
  import opened State
  import opened Evaluator
  import opened Interviewer
  import opened Manager

  /** A running interview: its state and the number of `respond` calls. */
  datatype Session = Session(state: InterviewState, responseCount: nat)

  /** A session after a call, and the text handed back to the caller. */
  datatype Step = Step(session: Session, reply: string)

  /** Everything one `respond` call consumes: the candidate's words, the
      two oracle replies, and the clock reading the manager sees. */
  datatype TurnInputs = TurnInputs(
    candidateText: string,
    evaluation: EvaluatorOutput,
    interviewerReply: InterviewerOutput,
    elapsedMinutes: real)

  /** The position of the most recent interviewer message, if any. */
  function LastInterviewerIndex(ms: seq<Message>): (r: Option<nat>)
    ensures r.None? <==> forall i :: 0 <= i < |ms| ==> ms[i].role != Interviewer
    ensures r.Some? ==> r.value < |ms| && ms[r.value].role == Interviewer
                        && forall j :: r.value < j < |ms| ==> ms[j].role != Interviewer
  {
    if |ms| == 0 then None
    else if ms[|ms| - 1].role == Interviewer then Some(|ms| - 1)
    else
      var init := ms[..|ms| - 1];
      assert forall i :: 0 <= i < |init| ==> init[i] == ms[i];
      LastInterviewerIndex(init)
  }

  /** `_get_last_interviewer_message`: the content of the most recent
      interviewer message, or "" when there is none. */
  function LastInterviewerMessage(ms: seq<Message>): (r: string)
    ensures (forall i :: 0 <= i < |ms| ==> ms[i].role != Interviewer) ==> r == ""
    ensures (exists i :: 0 <= i < |ms| && ms[i].role == Interviewer) ==>
              exists i :: 0 <= i < |ms| && ms[i].role == Interviewer && ms[i].content == r
                          && forall j :: i < j < |ms| ==> ms[j].role != Interviewer
  {
    match LastInterviewerIndex(ms)
    case None => ""
    case Some(i) => ms[i].content
  }

  /** `_last_message_is_closing`: the last message is the interviewer's and
      contains "wrap up" in any case. */
  predicate LastMessageIsClosing(ms: seq<Message>)
    ensures LastMessageIsClosing(ms) ==> Contains(Lower(LastInterviewerMessage(ms)), ClosingMarker)
  {
    |ms| > 0 && ms[|ms| - 1].role == Interviewer && Contains(Lower(ms[|ms| - 1].content), ClosingMarker)
  }

  /** `start`: the interviewer stage on the current state. */
  function Start(r: Session, reply: InterviewerOutput): (step: Step)
    requires !r.state.isComplete && |r.state.messages| == 0 ==> CanOpen(r.state)
    ensures !r.state.isComplete && |r.state.messages| == 0 ==>
              |step.session.state.messages| == 1 && step.reply == step.session.state.messages[0].content
    ensures step.session.responseCount == r.responseCount
  {
    var t := InterviewerNode(r.state, reply);
    Step(Session(t, r.responseCount), LastInterviewerMessage(t.messages))
  }

  /** The state after the candidate's message and the three stages, before
      any synthesized closing. */
  function AfterStages(s: InterviewState, input: TurnInputs): (t: InterviewState)
    requires !s.isComplete
    ensures t.messages == s.messages + [Message(Candidate, input.candidateText), Message(Interviewer, Spoken(input.interviewerReply))]
  {
    var withCandidate := s.(messages := s.messages + [Message(Candidate, input.candidateText)]);
    var assessed := EvaluatorNode(withCandidate, input.evaluation);
    var answered := InterviewerNode(assessed, input.interviewerReply);
    ApplyManager(answered, ManagerNode(answered, input.elapsedMinutes))
  }

  /** Whether `respond` synthesizes a closing after the stages. */
  predicate NeedsClosing(s: InterviewState) {
    s.isComplete && !LastMessageIsClosing(s.messages)
  }

  /** `respond`. The caller (the HTTP layer) never calls it on a complete session. */
  function Respond(r: Session, input: TurnInputs): (step: Step)
    requires !r.state.isComplete
    ensures step.session.responseCount == r.responseCount + 1
    ensures var ms, ms' := r.state.messages, step.session.state.messages;
            |ms| + 2 <= |ms'| <= |ms| + 3
            && ms'[..|ms| + 2] == ms + [Message(Candidate, input.candidateText), Message(Interviewer, Spoken(input.interviewerReply))]
  {
    var staged := AfterStages(r.state, input);
    var t := if NeedsClosing(staged) then GenerateClosing(staged) else staged;
    Step(Session(t, r.responseCount + 1), LastInterviewerMessage(t.messages))
  }

  // ---------------------------------------------------------------------------
  // One call
  // ---------------------------------------------------------------------------

  /** The transcript after `respond`: the old one, the candidate's message,
      the interviewer's reply and possibly one closing, nothing rewritten. */
  lemma RespondTranscript(r: Session, input: TurnInputs)
    requires !r.state.isComplete
    ensures var ms := r.state.messages;
            var ms' := Respond(r, input).session.state.messages;
            && (|ms'| == |ms| + 2 || |ms'| == |ms| + 3)
            && ms'[..|ms|] == ms
            && ms'[|ms|] == Message(Candidate, input.candidateText)
            && ms'[|ms| + 1] == Message(Interviewer, Spoken(input.interviewerReply))
            && (|ms'| == |ms| + 3 <==> NeedsClosing(AfterStages(r.state, input)))
            && (|ms'| == |ms| + 3 ==> ms'[|ms| + 2] == Message(Interviewer, ClosingFor(AfterStages(r.state, input))))
  {
    var staged := AfterStages(r.state, input);
    var ms := r.state.messages;
    assert staged.messages == ms + [Message(Candidate, input.candidateText), Message(Interviewer, Spoken(input.interviewerReply))];
  }

  /** A closing is synthesized exactly when the manager ended the session
      and the interviewer's reply was not itself detected as a closing. */
  lemma ClosingOnlyWhenNeeded(r: Session, input: TurnInputs)
    requires !r.state.isComplete
    ensures NeedsClosing(AfterStages(r.state, input)) <==>
              AfterStages(r.state, input).isComplete
              && !Contains(Lower(Spoken(input.interviewerReply)), ClosingMarker)
  {
  }

  /** The manager counts the candidate message of this very turn, and the
      manager alone can complete the session during the stages. */
  lemma StagesCompleteOnlyViaManager(r: Session, input: TurnInputs)
    requires !r.state.isComplete
    ensures var withCandidate := r.state.(messages := r.state.messages + [Message(Candidate, input.candidateText)]);
            var answered := InterviewerNode(EvaluatorNode(withCandidate, input.evaluation), input.interviewerReply);
            && CandidateCount(answered.messages) == CandidateCount(r.state.messages) + 1
            && !answered.isComplete
            && (AfterStages(r.state, input).isComplete <==> ManagerNode(answered, input.elapsedMinutes).markComplete)
  {
    var ms := r.state.messages;
    CandidateCountAppend(ms, Message(Candidate, input.candidateText));
    CandidateCountAppend(ms + [Message(Candidate, input.candidateText)], Message(Interviewer, Spoken(input.interviewerReply)));
  }

  /** The caller gets back the synthesized closing when there is one, and
      the interviewer's reply otherwise; a synthesized closing records the
      level the evaluator just set as the final score. */
  lemma RespondReturnsLatestInterviewerText(r: Session, input: TurnInputs)
    requires !r.state.isComplete
    ensures var staged := AfterStages(r.state, input);
            var step := Respond(r, input);
            && (NeedsClosing(staged) ==>
                  (step.reply == ClosingFor(staged) && step.session.state.finalScore == Some(staged.currentLevel)))
            && (!NeedsClosing(staged) ==> step.reply == Spoken(input.interviewerReply))
  {
    RespondTranscript(r, input);
  }

  /** The detector reads free text: when the manager ends the session on a
      turn whose ordinary reply happens to say "wrap up", no closing is
      added, so the final score and the phase are left as they were. */
  lemma MarkerInReplySuppressesClosing(r: Session, input: TurnInputs)
    requires !r.state.isComplete
    requires AfterStages(r.state, input).isComplete
    requires Contains(Lower(Spoken(input.interviewerReply)), ClosingMarker)
    ensures var t := Respond(r, input).session.state;
            t.isComplete && t.finalScore == r.state.finalScore && t.currentPhase == r.state.currentPhase
  {
  }

  /** After `respond` a complete session ends with an interviewer message
      that is a detected closing, or with the technical closing (which the
      detector does not recognise). */
  lemma CompleteEndsWithClosing(r: Session, input: TurnInputs)
    requires !r.state.isComplete
    ensures var t := Respond(r, input).session.state;
            t.isComplete ==>
              LastMessageIsClosing(t.messages) || t.messages[|t.messages| - 1] == Message(Interviewer, TechnicalClosing)
  {
    var staged := AfterStages(r.state, input);
    RespondTranscript(r, input);
    if NeedsClosing(staged) {
      ClosingDetectedUnlessTechnical(staged);
    }
  }

  /** Every closing but the technical one is recognised by the detector. */
  lemma ClosingDetectedUnlessTechnical(s: InterviewState)
    ensures ClosingFor(s) == TechnicalClosing || Contains(Lower(ClosingFor(s)), ClosingMarker)
  {
    ClosingsCarryMarker();
  }

  // ---------------------------------------------------------------------------
  // A whole session
  // ---------------------------------------------------------------------------

  /** A sequence of candidate turns as the HTTP layer runs them: once the
      session is complete, further turns are refused and change nothing. */
  function Replay(r: Session, turns: seq<TurnInputs>): (out: Session)
    decreases |turns|
  {
    if |turns| == 0 || r.state.isComplete then r
    else Replay(Respond(r, turns[0]).session, turns[1..])
  }

  /** Along any run the transcript and the response count only grow, and
      once a session is complete the replay stops there and returns it
      unchanged. */
  lemma {:induction false} ReplayMonotone(r: Session, turns: seq<TurnInputs>)
    ensures var out := Replay(r, turns);
            && |r.state.messages| <= |out.state.messages|
            && out.state.messages[..|r.state.messages|] == r.state.messages
            && (r.state.isComplete ==> out.state.isComplete && out == r)
            && r.responseCount <= out.responseCount
    decreases |turns|
  {
    if |turns| > 0 && !r.state.isComplete {
      var next := Respond(r, turns[0]).session;
      RespondTranscript(r, turns[0]);
      ReplayMonotone(next, turns[1..]);
      var out := Replay(next, turns[1..]);
      assert out.state.messages[..|r.state.messages|] == out.state.messages[..|next.state.messages|][..|r.state.messages|];
    }
  }

  /** With a specification allowing two exchanges, a session opened with
      one interviewer message is not complete after the first `respond`
      and is complete after the second, ending with an interviewer
      closing even when the interviewer's reply was not one. */
  lemma TwoExchangeSession(r: Session, first: TurnInputs, second: TurnInputs)
    requires !r.state.isComplete && HasSpec(r.state)
    requires r.state.interviewSpec.value.constraints.maxExchanges == 2
    requires CandidateCount(r.state.messages) == 0
    requires first.elapsedMinutes < r.state.interviewSpec.value.constraints.maxDurationMinutes as real
    ensures var r1 := Respond(r, first).session;
            && !r1.state.isComplete
            && var r2 := Respond(r1, second).session;
               && r2.state.isComplete
               && r2.responseCount == r.responseCount + 2
               && var ms := r2.state.messages;
                  ms[|ms| - 1].role == Interviewer
                  && (!Contains(Lower(Spoken(second.interviewerReply)), ClosingMarker) ==>
                        ms[|ms| - 1].content == ClosingFor(AfterStages(r1.state, second)))
  {
    FirstOfTwoExchanges(r, first);
    SecondOfTwoExchanges(Respond(r, first).session, second);
  }

  /** The first of two allowed exchanges leaves the session open, with one candidate turn counted. */
  lemma FirstOfTwoExchanges(r: Session, first: TurnInputs)
    requires !r.state.isComplete && HasSpec(r.state)
    requires r.state.interviewSpec.value.constraints.maxExchanges == 2
    requires CandidateCount(r.state.messages) == 0
    requires first.elapsedMinutes < r.state.interviewSpec.value.constraints.maxDurationMinutes as real
    ensures var r1 := Respond(r, first).session;
            && !r1.state.isComplete && HasSpec(r1.state)
            && r1.state.interviewSpec == r.state.interviewSpec
            && CandidateCount(r1.state.messages) == 1
            && r1.responseCount == r.responseCount + 1
  {
    StagesCompleteOnlyViaManager(r, first);
    var s1 := AfterStages(r.state, first);
    RespondTranscript(r, first);
    var r1 := Respond(r, first).session;
    assert !NeedsClosing(s1);
    assert r1.state.messages == s1.messages;
    CandidateCountAppend(r.state.messages, Message(Candidate, first.candidateText));
    CandidateCountAppend(r.state.messages + [Message(Candidate, first.candidateText)], Message(Interviewer, Spoken(first.interviewerReply)));
  }

  /** The second of two allowed exchanges reaches the limit and ends with an interviewer closing. */
  lemma SecondOfTwoExchanges(r1: Session, second: TurnInputs)
    requires !r1.state.isComplete && HasSpec(r1.state)
    requires r1.state.interviewSpec.value.constraints.maxExchanges == 2
    requires CandidateCount(r1.state.messages) == 1
    ensures var r2 := Respond(r1, second).session;
            && r2.state.isComplete
            && r2.responseCount == r1.responseCount + 1
            && var ms := r2.state.messages;
               ms[|ms| - 1].role == Interviewer
               && (!Contains(Lower(Spoken(second.interviewerReply)), ClosingMarker) ==>
                     ms[|ms| - 1].content == ClosingFor(AfterStages(r1.state, second)))
  {
    StagesCompleteOnlyViaManager(r1, second);
    RespondTranscript(r1, second);
  }
}
