/** The interviewer (response) stage, as far as it shapes the state: the
    fixed openings and closings, and the single message appended per turn.
    The oracle's reply is a parameter: its raw text, what decoding it as
    JSON gave, and the tokens it used. */
module Interviewer {
  import opened Wrappers
  import opened Text
  import opened Rubric
  import opened Schema
  import opened State

  /** What decoding the reply gave: not JSON (the fallback record holds the
      raw text as "spoken"), an object without "spoken", or its "spoken" value. */
  datatype ReplyDecoding = NotJson | NoSpokenKey | SpokenValue(spoken: string)

  datatype InterviewerOutput = InterviewerOutput(raw: string, decoding: ReplyDecoding, tokensUsed: nat)

  /** `parsed.get("spoken", response.content)` after `parse_interviewer_response`. */
  function Spoken(out: InterviewerOutput): (r: string)
    ensures out.decoding.SpokenValue? ==> r == out.decoding.spoken
    ensures !out.decoding.SpokenValue? ==> r == out.raw
  {
    match out.decoding
    case NotJson => out.raw
    case NoSpokenKey => out.raw
    case SpokenValue(spoken) => spoken
  }

  // ---------------------------------------------------------------------------
  // Closings
  // ---------------------------------------------------------------------------

  /** The phrase the runner's closing detector looks for. */
  const ClosingMarker := "wrap up"

  const CaseClosing := "That's a good place to " + ClosingMarker + ". Thank you for working through this case with me."

  const FirstRoundClosing :=
    "That's been really helpful - thank you for sharing your background with me. "
    + "Do you have any questions for me about the role or the company before we " + ClosingMarker + "?"

  /** The technical closing, in short pieces so that its letters can be inspected. */
  const TechnicalClosingPieces := [
    "That's a good ", "stopping point. ", "Thanks for ", "working through ", "this problem ",
    "with me. ", "Let's briefly ", "discuss what ", "you'd do if ", "you had more ", "time."]

  const TechnicalClosing := Concat(TechnicalClosingPieces)

  /** The closing for the session: by interview type with a specification,
      the case closing without one. */
  function ClosingFor(s: InterviewState): string {
    if !HasSpec(s) then CaseClosing
    else match s.interviewSpec.value.interviewType
      case FirstRound => FirstRoundClosing
      case Technical => TechnicalClosing
      case Case => CaseClosing
  }

  /** `generate_closing_message`: one interviewer message appended, the
      session complete, the final score the current level, the phase COMPLETE. */
  function GenerateClosing(s: InterviewState): (t: InterviewState)
    ensures t.messages == s.messages + [Message(Interviewer, ClosingFor(s))]
    ensures t.isComplete && t.finalScore == Some(s.currentLevel) && t.currentPhase == "COMPLETE"
    ensures t.(messages := s.messages, isComplete := s.isComplete, finalScore := s.finalScore,
               currentPhase := s.currentPhase) == s
  {
    s.(messages := s.messages + [Message(Interviewer, ClosingFor(s))],
       isComplete := true,
       finalScore := Some(s.currentLevel),
       currentPhase := "COMPLETE")
  }

  /** The case and first-round closings contain the marker (in any case). */
  lemma ClosingsCarryMarker()
    ensures Contains(Lower(CaseClosing), ClosingMarker)
    ensures Contains(Lower(FirstRoundClosing), ClosingMarker)
  {
    MarkerInMiddle("That's a good place to ", ". Thank you for working through this case with me.");
    MarkerInMiddle("That's been really helpful - thank you for sharing your background with me. "
                   + "Do you have any questions for me about the role or the company before we ", "?");
  }

  lemma MarkerInMiddle(a: string, b: string)
    ensures Contains(Lower(a + ClosingMarker + b), ClosingMarker)
  {
    LowerAppend(a + ClosingMarker, b);
    LowerAppend(a, ClosingMarker);
    assert Lower(ClosingMarker) == ClosingMarker;
    ContainsInMiddle(Lower(a), ClosingMarker, Lower(b));
  }

  /** The technical closing lacks the marker: no "w" in it is followed by an "r". */
  lemma TechnicalClosingLacksMarker()
    ensures !Contains(Lower(TechnicalClosing), ClosingMarker)
  {
    var ps := TechnicalClosingPieces;
    forall k | 0 <= k < |ps| ensures NoPair(ps[k], 'w', 'r') && |ps[k]| > 0 && LowerChar(ps[k][|ps[k]| - 1]) != 'w' {
      PieceHasNoPair(k);
    }
    NoPairConcat(ps, 'w', 'r');
    NoPairNotContained(TechnicalClosing, ClosingMarker);
  }

  lemma PieceHasNoPair(k: int)
    requires 0 <= k < |TechnicalClosingPieces|
    ensures var p := TechnicalClosingPieces[k];
            NoPair(p, 'w', 'r') && |p| > 0 && LowerChar(p[|p| - 1]) != 'w'
  {
    if k < 4 { EarlyPieceHasNoPair(k); } else if k < 8 { MiddlePieceHasNoPair(k); } else { LatePieceHasNoPair(k); }
  }

  lemma EarlyPieceHasNoPair(k: int)
    requires 0 <= k < 4
    ensures var p := TechnicalClosingPieces[k];
            NoPair(p, 'w', 'r') && |p| > 0 && LowerChar(p[|p| - 1]) != 'w'
  {
    var p := TechnicalClosingPieces[k];
    if k == 0 { assert p == "That's a good "; }
    else if k == 1 { assert p == "stopping point. "; }
    else if k == 2 { assert p == "Thanks for "; }
    else { assert p == "working through "; }
  }

  lemma MiddlePieceHasNoPair(k: int)
    requires 4 <= k < 8
    ensures var p := TechnicalClosingPieces[k];
            NoPair(p, 'w', 'r') && |p| > 0 && LowerChar(p[|p| - 1]) != 'w'
  {
    var p := TechnicalClosingPieces[k];
    if k == 4 { assert p == "this problem "; }
    else if k == 5 { assert p == "with me. "; }
    else if k == 6 { assert p == "Let's briefly "; }
    else { assert p == "discuss what "; }
  }

  lemma LatePieceHasNoPair(k: int)
    requires 8 <= k < |TechnicalClosingPieces|
    ensures var p := TechnicalClosingPieces[k];
            NoPair(p, 'w', 'r') && |p| > 0 && LowerChar(p[|p| - 1]) != 'w'
  {
    var p := TechnicalClosingPieces[k];
    if k == 8 { assert p == "you'd do if "; }
    else if k == 9 { assert p == "you had more "; }
    else { assert p == "time."; }
  }

  // ---------------------------------------------------------------------------
  // Openings
  // ---------------------------------------------------------------------------

  const OverToYou := "Over to you."

  /** `replace("\n\nOver to you.", "").replace("Over to you.", "").strip()`. */
  function CleanPrompt(prompt: string): (r: string)
    ensures |r| > 0 ==> !IsSpace(r[0]) && !IsSpace(r[|r| - 1])
    ensures |r| <= |prompt|
  {
    Strip(RemoveAll(RemoveAll(prompt, "\n\n" + OverToYou), OverToYou))
  }

  const MomentPrefix :=
    "Take a moment to gather your thoughts. Feel free to ask any clarifying questions, "
    + "and when you're ready, share how you'd like to approach this.\n\n"

  const MomentIntro := MomentPrefix + OverToYou

  /** A suffix of a suffix is a suffix. */
  lemma EndsWithTail(a: string, b: string, c: string)
    ensures EndsWith(a + (b + c), c)
  {
    assert a + (b + c) == (a + b) + c;
    EndsWithConcat(a + b, c);
  }

  /** `_build_case_opening`: the cleaned prompt, a blank line, and an intro
      that always ends the opening with "Over to you.". */
  function BuildCaseOpening(casePrompt: string, openingStyle: string): (r: string)
    ensures EndsWith(r, OverToYou)
    ensures |CleanPrompt(casePrompt)| + 2 <= |r| && r[..|CleanPrompt(casePrompt)| + 2] == CleanPrompt(casePrompt) + "\n\n"
    ensures Contains(Lower(openingStyle), "give them a moment") ==> EndsWith(r, MomentIntro)
  {
    var intro := if Contains(Lower(openingStyle), "give them a moment") then MomentIntro else OverToYou;
    var head := CleanPrompt(casePrompt) + "\n\n";
    EndsWithConcat(head, intro);
    EndsWithConcat(MomentPrefix, OverToYou);
    EndsWithTail(head, MomentPrefix, OverToYou);
    PrefixOfConcat(head, intro);
    head + intro
  }

  /** `_build_cv_opening`: a fixed greeting naming the role. */
  function BuildCvOpening(roleTitle: string): (r: string)
    ensures Contains(r, roleTitle)
  {
    var before := "Thanks for joining me today. I've had a chance to review your background, and I'm looking forward to learning more about your experience.\n\n"
      + "We'll spend about 30 minutes today discussing your background and the ";
    var after := " position. I'd love to hear about what you've been working on and what brings you to this opportunity.\n\n"
      + "Let's start with your most recent role. Tell me about what you've been doing there.";
    ContainsInMiddle(before, roleTitle, after);
    before + roleTitle + after
  }

  const TechnicalIntro :=
    "Thanks for joining. Let me share a problem with you.\n\n"
    + "Take a moment to read through it, and feel free to ask any clarifying questions before you start.\n\n---\n\n"

  /** `_build_technical_opening`: a fixed intro followed by the problem verbatim. */
  function BuildTechnicalOpening(problemStatement: string): (r: string)
    ensures EndsWith(r, problemStatement)
    ensures |TechnicalIntro| <= |r| && r[..|TechnicalIntro|] == TechnicalIntro
  {
    EndsWithConcat(TechnicalIntro, problemStatement);
    PrefixOfConcat(TechnicalIntro, problemStatement);
    TechnicalIntro + problemStatement
  }

  /** The opening text for the declared context variant. */
  function SpecOpeningText(spec: InterviewSpec): string
    requires VariantPopulated(spec.contextPacket)
  {
    var p := spec.contextPacket;
    match p.packetType
    case CaseStudy => BuildCaseOpening(p.caseStudy.value.casePrompt, spec.heuristics.openingStyle)
    case CvScreen => BuildCvOpening(p.cvScreen.value.roleTitle)
    case TechnicalProblem => BuildTechnicalOpening(p.technicalProblem.value.problemStatement)
  }

  /** `_generate_spec_opening`: a one-message transcript, and the phase set
      to the first phase's id upper-cased ("OPENING" without phases). */
  function SpecOpening(s: InterviewState): (t: InterviewState)
    requires HasSpec(s) && VariantPopulated(s.interviewSpec.value.contextPacket)
    ensures |t.messages| == 1 && t.messages[0].role == Interviewer
    ensures var phases := s.interviewSpec.value.phases;
            t.currentPhase == (if |phases| > 0 then Upper(phases[0].id) else "OPENING")
    ensures t.(messages := s.messages, currentPhase := s.currentPhase) == s
  {
    var spec := s.interviewSpec.value;
    var first := if |spec.phases| > 0 then spec.phases[0].id else "opening";
    assert Upper("opening") == "OPENING";
    s.(messages := [Message(Interviewer, SpecOpeningText(spec))], currentPhase := Upper(first))
  }

  const LegacyPrefix :=
    "Take a moment to gather your thoughts. Feel free to ask any clarifying questions, "
    + "and when you're ready, share how you'd like to approach this. There's no single right answer - "
    + "I'm interested in your thinking.\n\n"

  const LegacyIntro := LegacyPrefix + OverToYou

  /** `_generate_legacy_opening`: the cleaned case opening with a fixed
      intro, as a one-message transcript, in phase STRUCTURING. */
  function LegacyOpening(s: InterviewState): (t: InterviewState)
    ensures t.messages == [Message(Interviewer, CleanPrompt(s.opening) + "\n\n" + LegacyIntro)]
    ensures EndsWith(t.messages[0].content, OverToYou)
    ensures t.currentPhase == "STRUCTURING"
    ensures t.(messages := s.messages, currentPhase := s.currentPhase) == s
  {
    var text := CleanPrompt(s.opening) + "\n\n" + LegacyIntro;
    EndsWithTail(CleanPrompt(s.opening) + "\n\n", LegacyPrefix, OverToYou);
    s.(messages := [Message(Interviewer, text)], currentPhase := "STRUCTURING")
  }

  // ---------------------------------------------------------------------------
  // The interviewer stage
  // ---------------------------------------------------------------------------

  /** A specification-driven opening needs its declared context variant. */
  predicate CanOpen(s: InterviewState) {
    HasSpec(s) ==> VariantPopulated(s.interviewSpec.value.contextPacket)
  }

  /** `interviewer_node`: the closing on a complete state, the opening on an
      empty transcript, and otherwise the oracle's spoken reply appended. */
  function InterviewerNode(s: InterviewState, out: InterviewerOutput): (t: InterviewState)
    requires !s.isComplete && |s.messages| == 0 ==> CanOpen(s)
    ensures s.isComplete ==> t == GenerateClosing(s)
    ensures !s.isComplete && |s.messages| > 0 ==>
              t.messages == s.messages + [Message(Interviewer, Spoken(out))]
              && t.totalTokens == s.totalTokens + out.tokensUsed
              && t.(messages := s.messages, totalTokens := s.totalTokens) == s
    ensures !s.isComplete && |s.messages| == 0 ==> |t.messages| == 1 && t.messages[0].role == Interviewer
    ensures t.isComplete == s.isComplete
  {
    if s.isComplete then GenerateClosing(s)
    else if |s.messages| == 0 then
      if HasSpec(s) then SpecOpening(s) else LegacyOpening(s)
    else
      s.(messages := s.messages + [Message(Interviewer, Spoken(out))],
         totalTokens := s.totalTokens + out.tokensUsed)
  }

  /** Removing a phrase that does not occur changes nothing, so a prompt
      without "Over to you." is only stripped. */
  lemma {:induction false} RemoveAbsent(s: string, p: string)
    requires |p| > 0 && !Contains(s, p)
    ensures RemoveAll(s, p) == s
    decreases |s|
  {
    if |s| >= |p| {
      assert !MatchAt(s, p, 0);
      assert s[..|p|] != p;
      forall i | 0 <= i <= |s[1..]| ensures !MatchAt(s[1..], p, i) {
        if i + |p| <= |s[1..]| {
          assert s[1..][i..i + |p|] == s[i + 1..i + 1 + |p|];
          assert !MatchAt(s, p, i + 1);
        }
      }
      RemoveAbsent(s[1..], p);
    }
  }
}
