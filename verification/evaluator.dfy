/** The evaluator (assessment) stage, as far as it shapes the state: the
    oracle's assessment arrives as a parameter, already decoded (or not);
    the stage copies the level and level name from it and merges the
    observed red and green flags into the running lists. */
module Evaluator {
  import opened Wrappers
  import opened Seqs
  import opened State

  /** The decoded assessment. A key the oracle left out is None. */
  datatype Evaluation = Evaluation(
    currentLevel: Option<int>,
    levelName: Option<string>,
    levelJustification: Option<string>,
    action: Option<string>,
    interviewerGuidance: Option<string>,
    dataToShare: Option<string>,
    redFlags: Option<seq<string>>,
    greenFlags: Option<seq<string>>)

  /** The oracle's reply: the decoded assessment, or None when the reply
      was not JSON; and the input plus output tokens it used. */
  datatype EvaluatorOutput = EvaluatorOutput(decoded: Option<Evaluation>, tokensUsed: nat)

  /** The record `parse_evaluator_response` returns for a reply that is not JSON. */
  function ParseFallback(): Evaluation {
    Evaluation(Some(0), Some("PARSE_ERROR"), Some("Could not parse evaluation"), Some("DO_NOT_HELP"),
               None, None, Some([]), Some([]))
  }

  function Interpret(out: EvaluatorOutput): Evaluation {
    out.decoded.GetOr(ParseFallback())
  }

  /** Appends `flag` unless it is empty or already present. */
  function AddFlag(flags: seq<string>, flag: string): seq<string> {
    if flag != "" && flag !in flags then flags + [flag] else flags
  }

  /** The flag-merge loop: the prior list is kept as it is, and each
      non-empty incoming flag not yet present is appended, in order. */
  function MergeFlags(prior: seq<string>, incoming: seq<string>): (r: seq<string>)
    ensures |prior| <= |r| && r[..|prior|] == prior
    decreases |incoming|
  {
    if |incoming| == 0 then prior
    else
      var next := AddFlag(prior, incoming[0]);
      var r := MergeFlags(next, incoming[1..]);
      assert r[..|prior|] == next[..|prior|];
      r
  }

  /** Every prior flag and every non-empty incoming flag ends up in the list. */
  lemma {:induction false} MergeRecordsAll(prior: seq<string>, incoming: seq<string>)
    ensures forall f :: f in prior ==> f in MergeFlags(prior, incoming)
    ensures forall f :: f in incoming && f != "" ==> f in MergeFlags(prior, incoming)
    decreases |incoming|
  {
    if |incoming| > 0 {
      var next := AddFlag(prior, incoming[0]);
      MergeRecordsAll(next, incoming[1..]);
      assert forall f :: f in incoming ==> f == incoming[0] || f in incoming[1..];
    }
  }

  predicate OnlyNewAdded(prior: seq<string>, incoming: seq<string>, r: seq<string>)
    requires |prior| <= |r|
  {
    && (forall i :: |prior| <= i < |r| ==> r[i] != "" && r[i] in incoming && r[i] !in prior)
    && (forall i, j :: |prior| <= i < j < |r| ==> r[i] != r[j])
  }

  /** Each appended flag is non-empty, came from the oracle, was not
      already present, and is appended once. */
  lemma {:induction false} MergeAddsOnlyNew(prior: seq<string>, incoming: seq<string>)
    ensures OnlyNewAdded(prior, incoming, MergeFlags(prior, incoming))
    decreases |incoming|
  {
    if |incoming| > 0 {
      var next := AddFlag(prior, incoming[0]);
      var r := MergeFlags(next, incoming[1..]);
      MergeAddsOnlyNew(next, incoming[1..]);
      assert OnlyNewAdded(next, incoming[1..], r);
      assert r[..|next|] == next;
      forall i | |prior| <= i < |r| ensures r[i] != "" && r[i] in incoming && r[i] !in prior {
        if i < |next| {
          assert r[i] == next[i] == incoming[0];
        } else {
          assert r[i] in incoming[1..];
          assert r[i] !in next;
          assert forall f :: f in prior ==> f in next;
        }
      }
      forall i, j | |prior| <= i < j < |r| ensures r[i] != r[j] {
        if i < |next| {
          assert r[i] == next[i] && r[i] in next;
          assert j >= |next|;
        }
      }
    }
  }

  /** A duplicate-free list stays duplicate-free. */
  lemma MergeKeepsDistinct(prior: seq<string>, incoming: seq<string>)
    requires Distinct(prior)
    ensures Distinct(MergeFlags(prior, incoming))
  {
    var r := MergeFlags(prior, incoming);
    MergeAddsOnlyNew(prior, incoming);
    forall i, j | 0 <= i < j < |r| ensures r[i] != r[j] {
      if j >= |prior| && i < |prior| {
        assert r[i] == prior[i];
      }
    }
  }

  /** The appended flags are in the oracle's order. */
  lemma {:induction false} MergeKeepsOrder(prior: seq<string>, incoming: seq<string>)
    ensures var r := MergeFlags(prior, incoming); IsSubsequence(r[|prior|..], incoming)
    decreases |incoming|
  {
    var r := MergeFlags(prior, incoming);
    if |incoming| == 0 {
      assert r[|prior|..] == [];
    } else {
      var next := AddFlag(prior, incoming[0]);
      MergeKeepsOrder(next, incoming[1..]);
      if next == prior {
        SkipHead(r[|prior|..], incoming);
      } else {
        assert r[|prior|..] == [incoming[0]] + r[|next|..];
        assert r[|prior|..][1..] == r[|next|..];
      }
    }
  }

  /** `evaluator_node`'s update of the state. */
  function EvaluatorNode(s: InterviewState, out: EvaluatorOutput): (t: InterviewState)
    ensures out.decoded.Some? && out.decoded.value.currentLevel.Some? ==> t.currentLevel == out.decoded.value.currentLevel.value
    ensures out.decoded.Some? && out.decoded.value.currentLevel.None? ==> t.currentLevel == s.currentLevel
    ensures out.decoded.None? ==> t.currentLevel == 0 && t.levelName == "PARSE_ERROR"
    ensures out.decoded.Some? ==> t.levelName == out.decoded.value.levelName.GetOr(s.levelName)
    ensures out.decoded.None? ==> t.redFlagsObserved == s.redFlagsObserved && t.greenFlagsObserved == s.greenFlagsObserved
    ensures |s.redFlagsObserved| <= |t.redFlagsObserved| && t.redFlagsObserved[..|s.redFlagsObserved|] == s.redFlagsObserved
    ensures |s.greenFlagsObserved| <= |t.greenFlagsObserved| && t.greenFlagsObserved[..|s.greenFlagsObserved|] == s.greenFlagsObserved
    ensures t.totalTokens == s.totalTokens + out.tokensUsed
    ensures t.(currentLevel := s.currentLevel, levelName := s.levelName, redFlagsObserved := s.redFlagsObserved,
               greenFlagsObserved := s.greenFlagsObserved, totalTokens := s.totalTokens) == s
  {
    var e := Interpret(out);
    s.(currentLevel := e.currentLevel.GetOr(s.currentLevel),
       levelName := e.levelName.GetOr(s.levelName),
       redFlagsObserved := MergeFlags(s.redFlagsObserved, e.redFlags.GetOr([])),
       greenFlagsObserved := MergeFlags(s.greenFlagsObserved, e.greenFlags.GetOr([])),
       totalTokens := s.totalTokens + out.tokensUsed)
  }

  /** Duplicate-free flag lists stay duplicate-free, and every non-empty
      flag the oracle reported is recorded. */
  lemma FlagsStayDistinct(s: InterviewState, out: EvaluatorOutput)
    requires Distinct(s.redFlagsObserved) && Distinct(s.greenFlagsObserved)
    ensures Distinct(EvaluatorNode(s, out).redFlagsObserved) && Distinct(EvaluatorNode(s, out).greenFlagsObserved)
    ensures out.decoded.Some? && out.decoded.value.redFlags.Some? ==>
              forall f :: f in out.decoded.value.redFlags.value && f != "" ==> f in EvaluatorNode(s, out).redFlagsObserved
  {
    var e := Interpret(out);
    MergeKeepsDistinct(s.redFlagsObserved, e.redFlags.GetOr([]));
    MergeKeepsDistinct(s.greenFlagsObserved, e.greenFlags.GetOr([]));
    MergeRecordsAll(s.redFlagsObserved, e.redFlags.GetOr([]));
  }

  /** A reply that cannot be decoded resets the level to 0 instead of
      keeping the previous assessment. The state's level name becomes
      "PARSE_ERROR", which is not the table's name for level 0. */
  lemma ParseFailureResetsLevel(s: InterviewState, tokens: nat)
    requires s.currentLevel != 0
    ensures var t := EvaluatorNode(s, EvaluatorOutput(None, tokens));
            t.currentLevel == 0 && t.currentLevel != s.currentLevel && t.levelName == "PARSE_ERROR"
            && t.levelName != LevelName(t.currentLevel)
  {
  }

  /** The stage leaves the transcript, phase and completion flag alone. */
  lemma EvaluatorKeepsTranscript(s: InterviewState, out: EvaluatorOutput)
    ensures EvaluatorNode(s, out).messages == s.messages
    ensures EvaluatorNode(s, out).isComplete == s.isComplete
    ensures EvaluatorNode(s, out).currentPhase == s.currentPhase
  {
  }
}
