/** The manager (constraint-check) stage: hard limits on exchanges and
    time, an urgency level, competency coverage, phase suggestions, and the
    decision to continue or end. The wall clock is a parameter: the caller
    passes the minutes elapsed since the session started. */
module Manager {
  import opened Wrappers
  import opened Seqs
  import opened Text
  import opened Rubric
  import opened Schema
  import opened State
  import Aggregator

  /** What `manager_node` writes back. `markComplete` says whether the
      result carries `is_complete: True`; `directive` is None when the
      result carries no directive (the state keeps its old one). */
  datatype ManagerResult = ManagerResult(
    shouldContinue: bool,
    markComplete: bool,
    directive: Option<ManagerDirective>)

  /** The two outcomes of the routing edge. */
  datatype Route = End | Continue

  /** A suggested move to another phase, with its reason. */
  datatype PhaseSuggestion = PhaseSuggestion(phase: string, reason: string)

  /** Undercovered and satisfied ids, each in specification order. */
  datatype Coverage = Coverage(undercovered: seq<string>, satisfied: seq<string>)

  // ---------------------------------------------------------------------------
  // Constraints and urgency
  // ---------------------------------------------------------------------------

  /** The specification's constraints, or 30 minutes / 15 exchanges /
      5 for completion / early termination allowed without one. */
  function EffectiveConstraints(s: InterviewState): (c: SessionConstraints)
    ensures HasSpec(s) ==> c == s.interviewSpec.value.constraints
    ensures !HasSpec(s) ==> c == DefaultConstraints()
  {
    if HasSpec(s) then s.interviewSpec.value.constraints else DefaultConstraints()
  }

  /** The urgency the remaining minutes and exchanges call for. */
  function UrgencyFor(timeRemaining: real, exchangesRemaining: int): (u: Urgency)
    ensures u == MustEnd <==> timeRemaining <= 3.0 || exchangesRemaining <= 2
    ensures u == Normal <==> timeRemaining > 8.0 && exchangesRemaining > 4
  {
    if timeRemaining <= 3.0 || exchangesRemaining <= 2 then MustEnd
    else if timeRemaining <= 8.0 || exchangesRemaining <= 4 then WrapUpSoon
    else Normal
  }

  function Rank(u: Urgency): nat {
    match u
    case Normal => 0
    case WrapUpSoon => 1
    case MustEnd => 2
  }

  /** Less time or fewer exchanges left never lowers the urgency. */
  lemma UrgencyMonotone(t1: real, e1: int, t2: real, e2: int)
    requires t2 <= t1 && e2 <= e1
    ensures Rank(UrgencyFor(t2, e2)) >= Rank(UrgencyFor(t1, e1))
  {
  }

  /** The middle band: wrap-up-soon exactly when more than 3 minutes and
      2 exchanges are left, but at most 8 minutes or at most 4 exchanges. */
  lemma UrgencyBands(t: real, e: int)
    ensures UrgencyFor(t, e) == WrapUpSoon <==> (t > 3.0 && e > 2) && (t <= 8.0 || e <= 4)
  {
  }

  // ---------------------------------------------------------------------------
  // Competency coverage
  // ---------------------------------------------------------------------------

  /** The recorded level of a competency, 0 when it has no score. */
  function ScoreLevel(scores: seq<CompetencyScore>, id: string): (l: int)
    ensures id !in ScoreIds(scores) ==> l == 0
    ensures id in ScoreIds(scores) ==> exists s :: s in scores && s.competencyId == id && s.currentLevel == l
  {
    match FindScore(scores, id)
    case None => 0
    case Some(s) => s.currentLevel
  }

  /** The recorded confidence of a competency, low when it has no score. */
  function ScoreConfidence(scores: seq<CompetencyScore>, id: string): (c: Confidence)
    ensures id !in ScoreIds(scores) ==> c == Low
    ensures id in ScoreIds(scores) ==> exists s :: s in scores && s.competencyId == id && s.confidence == c
  {
    match FindScore(scores, id)
    case None => Low
    case Some(s) => s.confidence
  }

  lemma LevelNonNegative(scores: seq<CompetencyScore>, id: string)
    requires forall s :: s in scores ==> s.currentLevel >= 0
    ensures ScoreLevel(scores, id) >= 0
  {
  }

  /** Not enough signal yet: unassessed, low confidence, or a critical
      competency below the passing level 3. */
  predicate Undercovered(c: SelectedCompetency, scores: seq<CompetencyScore>) {
    var level := ScoreLevel(scores, c.competencyId);
    level == 0 || ScoreConfidence(scores, c.competencyId) == Low || (c.tier == Critical && level < 3)
  }

  /** Splits `ids` by the matching flags, keeping order: flagged ids are
      undercovered, the others satisfied. */
  function Partition(ids: seq<string>, under: seq<bool>): (r: Coverage)
    requires |under| == |ids|
    ensures |r.undercovered| + |r.satisfied| == |ids|
    ensures forall i :: 0 <= i < |ids| && under[i] ==> ids[i] in r.undercovered
    ensures forall i :: 0 <= i < |ids| && !under[i] ==> ids[i] in r.satisfied
    ensures forall id :: id in r.undercovered ==> exists i :: 0 <= i < |ids| && ids[i] == id && under[i]
    ensures forall id :: id in r.satisfied ==> exists i :: 0 <= i < |ids| && ids[i] == id && !under[i]
  {
    if |ids| == 0 then Coverage([], [])
    else
      var rest := Partition(ids[1..], under[1..]);
      if under[0] then Coverage([ids[0]] + rest.undercovered, rest.satisfied)
      else Coverage(rest.undercovered, [ids[0]] + rest.satisfied)
  }

  /** Both sides of a partition keep the original order. */
  lemma {:induction false} PartitionKeepsOrder(ids: seq<string>, under: seq<bool>)
    requires |under| == |ids|
    ensures IsSubsequence(Partition(ids, under).undercovered, ids)
    ensures IsSubsequence(Partition(ids, under).satisfied, ids)
  {
    if |ids| > 0 {
      var rest := Partition(ids[1..], under[1..]);
      PartitionKeepsOrder(ids[1..], under[1..]);
      SkipHead(rest.undercovered, ids);
      SkipHead(rest.satisfied, ids);
    }
  }

  /** Which selected competencies are undercovered, in specification order. */
  function UndercoveredFlags(cs: seq<SelectedCompetency>, scores: seq<CompetencyScore>): (flags: seq<bool>)
    ensures |flags| == |cs|
    ensures forall i :: 0 <= i < |cs| ==> (flags[i] <==> Undercovered(cs[i], scores))
  {
    seq(|cs|, i requires 0 <= i < |cs| => Undercovered(cs[i], scores))
  }

  /** The coverage loop of `_build_spec_directive`: each selected
      competency goes to exactly one side, in order. */
  function CoverageOf(cs: seq<SelectedCompetency>, scores: seq<CompetencyScore>): (r: Coverage)
    ensures |r.undercovered| + |r.satisfied| == |cs|
    ensures forall i :: 0 <= i < |cs| && Undercovered(cs[i], scores) ==> cs[i].competencyId in r.undercovered
    ensures forall i :: 0 <= i < |cs| && !Undercovered(cs[i], scores) ==> cs[i].competencyId in r.satisfied
    ensures IsSubsequence(r.undercovered, CompetencyIds(cs)) && IsSubsequence(r.satisfied, CompetencyIds(cs))
  {
    PartitionKeepsOrder(CompetencyIds(cs), UndercoveredFlags(cs, scores));
    Partition(CompetencyIds(cs), UndercoveredFlags(cs, scores))
  }

  /** An id is undercovered exactly when some selection with that id is. */
  lemma CoverageMembership(cs: seq<SelectedCompetency>, scores: seq<CompetencyScore>, id: string)
    ensures id in CoverageOf(cs, scores).undercovered <==>
              exists i :: 0 <= i < |cs| && cs[i].competencyId == id && Undercovered(cs[i], scores)
    ensures id in CoverageOf(cs, scores).satisfied <==>
              exists i :: 0 <= i < |cs| && cs[i].competencyId == id && !Undercovered(cs[i], scores)
    ensures |CoverageOf(cs, scores).undercovered| + |CoverageOf(cs, scores).satisfied| == |cs|
  {
    var ids, flags := CompetencyIds(cs), UndercoveredFlags(cs, scores);
    var r := Partition(ids, flags);
    if id in r.undercovered {
      var i :| 0 <= i < |ids| && ids[i] == id && flags[i];
      assert cs[i].competencyId == id && Undercovered(cs[i], scores);
    }
    if id in r.satisfied {
      var i :| 0 <= i < |ids| && ids[i] == id && !flags[i];
      assert cs[i].competencyId == id && !Undercovered(cs[i], scores);
    }
  }

  /** `_get_tier`: the FIRST selection with that id, important if none. */
  function GetTier(cs: seq<SelectedCompetency>, id: string): (t: Tier)
    ensures id !in CompetencyIds(cs) ==> t == Important
    ensures id in CompetencyIds(cs) ==>
      exists i :: 0 <= i < |cs| && cs[i].competencyId == id && cs[i].tier == t
                  && forall j :: 0 <= j < i ==> cs[j].competencyId != id
  {
    if |cs| == 0 then Important
    else
      assert CompetencyIds(cs) == [cs[0].competencyId] + CompetencyIds(cs[1..]);
      if cs[0].competencyId == id then cs[0].tier else GetTier(cs[1..], id)
  }

  /** The manager looks tiers up first-match and the aggregator last-match;
      they agree whenever the specification selects each id once. */
  lemma TierLookupsAgree(cs: seq<SelectedCompetency>, id: string)
    requires Distinct(CompetencyIds(cs))
    ensures GetTier(cs, id) == Aggregator.TierForLevel(cs, id)
  {
    if id in CompetencyIds(cs) {
      var ids := CompetencyIds(cs);
      var t1, t2 := GetTier(cs, id), Aggregator.TierForLevel(cs, id);
      var i :| 0 <= i < |cs| && cs[i].competencyId == id && cs[i].tier == t1
               && forall j :: 0 <= j < i ==> cs[j].competencyId != id;
      var k :| 0 <= k < |cs| && cs[k].competencyId == id && cs[k].tier == t2
               && forall j :: k < j < |cs| ==> cs[j].competencyId != id;
      assert ids[i] == ids[k];
    }
  }

  /** The undercovered ids whose tier is critical, in order. */
  function CriticalOnly(ids: seq<string>, cs: seq<SelectedCompetency>): (r: seq<string>)
    ensures forall id :: id in r <==> id in ids && GetTier(cs, id) == Critical
    ensures IsSubsequence(r, ids)
  {
    if |ids| == 0 then []
    else
      var rest := CriticalOnly(ids[1..], cs);
      SkipHead(rest, ids);
      assert forall id :: id in ids <==> id == ids[0] || id in ids[1..];
      if GetTier(cs, ids[0]) == Critical then [ids[0]] + rest else rest
  }

  /** Focus guidance: up to two critical undercovered ids, else the first
      undercovered id, else nothing. */
  function FocusFor(undercovered: seq<string>, cs: seq<SelectedCompetency>): (f: Option<string>)
    ensures f.None? <==> |undercovered| == 0
    ensures |undercovered| > 0 && (forall id :: id in undercovered ==> GetTier(cs, id) != Critical) ==>
              f == Some("Explore: " + undercovered[0])
    ensures var c := CriticalOnly(undercovered, cs);
            |c| > 0 ==> f == Some("Need more signal on: " + Join(", ", c[..if |c| < 2 then |c| else 2]))
  {
    if |undercovered| == 0 then None
    else
      var critical := CriticalOnly(undercovered, cs);
      if |critical| > 0 then
        assert critical[0] in critical;
        Some("Need more signal on: " + Join(", ", critical[..if |critical| < 2 then |critical| else 2]))
      else Some("Explore: " + undercovered[0])
  }

  const CloseFocus := "All competencies assessed - consider moving to close"

  predicate AllAssessed(cs: seq<SelectedCompetency>, scores: seq<CompetencyScore>) {
    forall c :: c in cs ==> ScoreLevel(scores, c.competencyId) > 0
  }

  predicate AllConfident(cs: seq<SelectedCompetency>, scores: seq<CompetencyScore>) {
    forall c :: c in cs ==> ScoreConfidence(scores, c.competencyId) != Low
  }

  /** The early-close test of `_build_spec_directive`. */
  predicate MayClose(cs: seq<SelectedCompetency>, scores: seq<CompetencyScore>, numExchanges: int,
                     minExchanges: int, allowEarly: bool)
    ensures MayClose(cs, scores, numExchanges, minExchanges, allowEarly) ==>
              allowEarly && numExchanges >= minExchanges
              && forall i :: 0 <= i < |cs| ==> !Undercovered(cs[i], scores)
  {
    allowEarly && numExchanges >= minExchanges
    && AllAssessed(cs, scores) && AllConfident(cs, scores)
    && |CoverageOf(cs, scores).undercovered| == 0
  }

  /** With non-negative levels, the "all assessed" and "all confident"
      tests add nothing to "nothing undercovered": early close depends on
      coverage alone. */
  lemma CloseNeedsOnlyCoverage(cs: seq<SelectedCompetency>, scores: seq<CompetencyScore>,
                               numExchanges: int, minExchanges: int, allowEarly: bool)
    requires forall s :: s in scores ==> s.currentLevel >= 0
    ensures MayClose(cs, scores, numExchanges, minExchanges, allowEarly) <==>
              allowEarly && numExchanges >= minExchanges && |CoverageOf(cs, scores).undercovered| == 0
  {
    if |CoverageOf(cs, scores).undercovered| == 0 {
      forall c | c in cs
        ensures ScoreLevel(scores, c.competencyId) > 0 && ScoreConfidence(scores, c.competencyId) != Low
      {
        CoveredIsAssessed(cs, scores, c);
      }
    }
  }

  lemma CoveredIsAssessed(cs: seq<SelectedCompetency>, scores: seq<CompetencyScore>, c: SelectedCompetency)
    requires forall s :: s in scores ==> s.currentLevel >= 0
    requires c in cs && |CoverageOf(cs, scores).undercovered| == 0
    ensures ScoreLevel(scores, c.competencyId) > 0 && ScoreConfidence(scores, c.competencyId) != Low
  {
    var i :| 0 <= i < |cs| && cs[i] == c;
    CoverageMembership(cs, scores, c.competencyId);
    assert !Undercovered(c, scores);
    LevelNonNegative(scores, c.competencyId);
  }

  /** `_check_phase_transition`: the suggested maximum of the phase is set,
      non-zero and reached. */
  predicate MaxReached(p: PhaseConfig, numExchanges: int) {
    p.suggestedMaxExchanges.Some? && p.suggestedMaxExchanges.value != 0
    && numExchanges >= p.suggestedMaxExchanges.value
  }

  function PhaseReason(p: PhaseConfig): string {
    "Current phase (" + p.name + ") has reached suggested duration"
  }

  /** The phase `i` is the first whose id matches `current` ignoring case. */
  predicate FirstMatch(phases: seq<PhaseConfig>, current: string, i: int) {
    0 <= i < |phases| && EqualIgnoringCase(phases[i].id, current)
    && forall j :: 0 <= j < i ==> !EqualIgnoringCase(phases[j].id, current)
  }

  /** A move to the next phase is suggested exactly when the first phase
      matching the current one has reached its maximum and is not last. */
  function CheckPhaseTransition(phases: seq<PhaseConfig>, current: string, numExchanges: int): (r: Option<PhaseSuggestion>)
    ensures r.Some? <==> exists i :: FirstMatch(phases, current, i) && i + 1 < |phases| && MaxReached(phases[i], numExchanges)
    ensures r.Some? ==> exists i :: FirstMatch(phases, current, i) && i + 1 < |phases|
                                  && r.value == PhaseSuggestion(phases[i + 1].id, PhaseReason(phases[i]))
  {
    if |phases| == 0 then None
    else match FindPhase(phases, current)
      case None => None
      case Some(i) =>
        assert FirstMatch(phases, current, i);
        assert forall k :: FirstMatch(phases, current, k) ==> k == i;
        if MaxReached(phases[i], numExchanges) && i + 1 < |phases| then
          Some(PhaseSuggestion(phases[i + 1].id, PhaseReason(phases[i])))
        else None
  }

  // ---------------------------------------------------------------------------
  // Directives
  // ---------------------------------------------------------------------------

  function MakeDirective(shouldContinue: bool, focus: Option<string>, urgency: Urgency,
                         coverage: Coverage, suggestion: Option<PhaseSuggestion>): (d: ManagerDirective)
    ensures d.shouldContinue == shouldContinue && d.focusArea == focus && d.urgency == urgency
    ensures d.undercoveredCompetencies == coverage.undercovered && d.satisfiedCompetencies == coverage.satisfied
    ensures d.suggestedPhase.Some? <==> suggestion.Some?
    ensures d.phaseSuggestionReason.Some? <==> suggestion.Some?
    ensures suggestion.Some? ==> PhaseSuggestion(d.suggestedPhase.value, d.phaseSuggestionReason.value) == suggestion.value
  {
    ManagerDirective(shouldContinue, focus, urgency, coverage.undercovered, coverage.satisfied,
      if suggestion.Some? then Some(suggestion.value.phase) else None,
      if suggestion.Some? then Some(suggestion.value.reason) else None)
  }

  /** A hard stop: end now with the given reason. */
  function HardStop(reason: string): (d: ManagerDirective)
    ensures !d.shouldContinue && d.urgency == MustEnd && d.focusArea == Some(reason)
    ensures d.undercoveredCompetencies == [] && d.satisfiedCompetencies == [] && d.suggestedPhase.None?
  {
    MakeDirective(false, Some(reason), MustEnd, Coverage([], []), None)
  }

  /** `_build_spec_directive`. */
  function BuildSpecDirective(spec: InterviewSpec, scores: seq<CompetencyScore>, currentPhase: string,
                              numExchanges: int, minExchanges: int, urgency: Urgency, allowEarly: bool): (d: ManagerDirective)
    ensures d.shouldContinue
    ensures Rank(d.urgency) >= Rank(urgency)
    ensures d.urgency != urgency <==> urgency == Normal && MayClose(spec.competencies, scores, numExchanges, minExchanges, allowEarly)
    ensures MayClose(spec.competencies, scores, numExchanges, minExchanges, allowEarly) ==> d.focusArea == Some(CloseFocus)
    ensures !MayClose(spec.competencies, scores, numExchanges, minExchanges, allowEarly) ==>
              (d.focusArea.None? <==> |d.undercoveredCompetencies| == 0)
    ensures urgency == Normal && MayClose(spec.competencies, scores, numExchanges, minExchanges, allowEarly) ==>
              d.urgency == WrapUpSoon
    ensures !MayClose(spec.competencies, scores, numExchanges, minExchanges, allowEarly) ==>
              d.focusArea == FocusFor(CoverageOf(spec.competencies, scores).undercovered, spec.competencies)
    ensures d.undercoveredCompetencies == CoverageOf(spec.competencies, scores).undercovered
    ensures d.satisfiedCompetencies == CoverageOf(spec.competencies, scores).satisfied
    ensures var p := CheckPhaseTransition(spec.phases, currentPhase, numExchanges);
            (p.None? ==> d.suggestedPhase.None? && d.phaseSuggestionReason.None?)
            && (p.Some? ==> d.suggestedPhase == Some(p.value.phase) && d.phaseSuggestionReason == Some(p.value.reason))
  {
    var cs := spec.competencies;
    var coverage := CoverageOf(cs, scores);
    var suggestion := CheckPhaseTransition(spec.phases, currentPhase, numExchanges);
    if MayClose(cs, scores, numExchanges, minExchanges, allowEarly) then
      MakeDirective(true, Some(CloseFocus), if urgency == Normal then WrapUpSoon else urgency, coverage, suggestion)
    else
      MakeDirective(true, FocusFor(coverage.undercovered, cs), urgency, coverage, suggestion)
  }

  /** `_build_legacy_directive` over the fixed STRUCTURING / ANALYSIS /
      SYNTHESIS phases. */
  function BuildLegacyDirective(currentPhase: string, numExchanges: int, minExchanges: int, urgency: Urgency): (d: ManagerDirective)
    ensures !d.shouldContinue <==> currentPhase == "SYNTHESIS" && numExchanges >= minExchanges
    ensures !d.shouldContinue ==> d.urgency == MustEnd && d.focusArea == Some("Synthesis complete")
    ensures d.shouldContinue ==> d.urgency == urgency && d.focusArea.None?
    ensures d.suggestedPhase == Some("ANALYSIS") <==> currentPhase == "STRUCTURING" && numExchanges >= 3
    ensures d.suggestedPhase == Some("SYNTHESIS") <==> currentPhase == "ANALYSIS" && numExchanges >= 8
    ensures d.suggestedPhase.Some? ==> d.suggestedPhase == Some("ANALYSIS") || d.suggestedPhase == Some("SYNTHESIS")
  {
    if currentPhase == "SYNTHESIS" && numExchanges >= minExchanges then
      MakeDirective(false, Some("Synthesis complete"), MustEnd, Coverage([], []), None)
    else
      var suggestion :=
        if currentPhase == "STRUCTURING" && numExchanges >= 3 then
          Some(PhaseSuggestion("ANALYSIS", "Candidate has had time to structure, consider moving to analysis"))
        else if currentPhase == "ANALYSIS" && numExchanges >= 8 then
          Some(PhaseSuggestion("SYNTHESIS", "Analysis phase extended, consider moving to synthesis"))
        else None;
      MakeDirective(true, None, urgency, Coverage([], []), suggestion)
  }

  // ---------------------------------------------------------------------------
  // The manager stage
  // ---------------------------------------------------------------------------

  /** `manager_node`, with the minutes since `started_at` as a parameter. */
  function ManagerNode(s: InterviewState, elapsedMinutes: real): (r: ManagerResult)
    ensures r.shouldContinue ==> !r.markComplete && r.directive.Some? && r.directive.value.shouldContinue
    ensures !s.isComplete ==> (r.shouldContinue <==> !r.markComplete) && r.directive.Some?
  {
    if s.isComplete then ManagerResult(false, false, None)
    else
      var c := EffectiveConstraints(s);
      var num := CandidateCount(s.messages);
      var urgency := UrgencyFor(c.maxDurationMinutes as real - elapsedMinutes, c.maxExchanges - num);
      if num >= c.maxExchanges then ManagerResult(false, true, Some(HardStop("Maximum exchanges reached")))
      else if elapsedMinutes >= c.maxDurationMinutes as real then ManagerResult(false, true, Some(HardStop("Time limit reached")))
      else
        var d :=
          if HasSpec(s) then
            BuildSpecDirective(s.interviewSpec.value, s.competencyScores, s.currentPhase, num,
                               c.minExchangesForCompletion, urgency, c.allowEarlyTermination)
          else BuildLegacyDirective(s.currentPhase, num, c.minExchangesForCompletion, urgency);
        if !d.shouldContinue then ManagerResult(false, true, Some(d))
        else ManagerResult(true, false, Some(d))
  }

  /** Merging the manager's result into the state. */
  function ApplyManager(s: InterviewState, r: ManagerResult): (t: InterviewState)
    ensures t.isComplete <==> s.isComplete || r.markComplete
    ensures t.shouldContinue == Some(r.shouldContinue)
    ensures r.directive.None? ==> t.managerDirective == s.managerDirective
    ensures r.directive.Some? ==> t.managerDirective == r.directive
    ensures t.(isComplete := s.isComplete, shouldContinue := s.shouldContinue, managerDirective := s.managerDirective) == s
  {
    s.(shouldContinue := Some(r.shouldContinue),
       isComplete := if r.markComplete then true else s.isComplete,
       managerDirective := if r.directive.Some? then r.directive else s.managerDirective)
  }

  /** The routing edge `should_continue`. */
  function RouteAfter(s: InterviewState): (r: Route)
    ensures r == End <==> s.isComplete || s.shouldContinue == Some(false)
  {
    if s.isComplete || !s.shouldContinue.GetOr(true) then End else Continue
  }

  /** One manager step from a state that is complete leaves it complete,
      keeps its directive, and routes to the end. */
  lemma CompleteIsTerminal(s: InterviewState, elapsedMinutes: real)
    requires s.isComplete
    ensures var t := ApplyManager(s, ManagerNode(s, elapsedMinutes));
            t.isComplete && t.managerDirective == s.managerDirective && RouteAfter(t) == End
  {
  }

  /** After a manager step the route is End exactly when the session is complete. */
  lemma RouteMatchesCompletion(s: InterviewState, elapsedMinutes: real)
    ensures var t := ApplyManager(s, ManagerNode(s, elapsedMinutes));
            RouteAfter(t) == End <==> t.isComplete
  {
  }

  /** Reaching the exchange limit ends the session, whatever the clock
      says: the exchange check comes first. */
  lemma ExchangeLimitEnds(s: InterviewState, elapsedMinutes: real)
    requires !s.isComplete
    requires CandidateCount(s.messages) >= EffectiveConstraints(s).maxExchanges
    ensures var r := ManagerNode(s, elapsedMinutes);
            r.markComplete && !r.shouldContinue && r.directive == Some(HardStop("Maximum exchanges reached"))
  {
  }

  /** Below the exchange limit, reaching the time limit ends the session. */
  lemma TimeLimitEnds(s: InterviewState, elapsedMinutes: real)
    requires !s.isComplete
    requires CandidateCount(s.messages) < EffectiveConstraints(s).maxExchanges
    requires elapsedMinutes >= EffectiveConstraints(s).maxDurationMinutes as real
    ensures var r := ManagerNode(s, elapsedMinutes);
            r.markComplete && !r.shouldContinue && r.directive == Some(HardStop("Time limit reached"))
  {
  }

  /** A specification-driven session is only ended by a hard limit: the
      coverage directive never stops it, it only changes the advice. */
  lemma SpecSessionEndsOnlyAtLimits(s: InterviewState, elapsedMinutes: real)
    requires !s.isComplete && HasSpec(s)
    ensures var r := ManagerNode(s, elapsedMinutes);
            var c := EffectiveConstraints(s);
            r.markComplete <==> CandidateCount(s.messages) >= c.maxExchanges || elapsedMinutes >= c.maxDurationMinutes as real
  {
  }

  /** A legacy session in SYNTHESIS with enough exchanges is ended by the directive. */
  lemma LegacySynthesisEnds(s: InterviewState, elapsedMinutes: real)
    requires !s.isComplete && !HasSpec(s)
    requires CandidateCount(s.messages) < 15 && elapsedMinutes < 30.0
    requires s.currentPhase == "SYNTHESIS" && CandidateCount(s.messages) >= 5
    ensures var r := ManagerNode(s, elapsedMinutes);
            r.markComplete && r.directive.Some? && r.directive.value.focusArea == Some("Synthesis complete")
  {
  }

  /** Without a hard stop the directive's urgency is at least the one the
      limits give. */
  lemma UrgencyNeverLowered(s: InterviewState, elapsedMinutes: real)
    requires !s.isComplete
    ensures var r := ManagerNode(s, elapsedMinutes);
            var c := EffectiveConstraints(s);
            var u := UrgencyFor(c.maxDurationMinutes as real - elapsedMinutes, c.maxExchanges - CandidateCount(s.messages));
            r.directive.Some? && Rank(r.directive.value.urgency) >= Rank(u)
  {
    var c := EffectiveConstraints(s);
    var num := CandidateCount(s.messages);
    var u := UrgencyFor(c.maxDurationMinutes as real - elapsedMinutes, c.maxExchanges - num);
    var r := ManagerNode(s, elapsedMinutes);
    if num >= c.maxExchanges || elapsedMinutes >= c.maxDurationMinutes as real {
      assert r.directive.value.urgency == MustEnd;
    } else if HasSpec(s) {
      var d := BuildSpecDirective(s.interviewSpec.value, s.competencyScores, s.currentPhase, num,
                                  c.minExchangesForCompletion, u, c.allowEarlyTermination);
      assert r.directive == Some(d);
    } else {
      var d := BuildLegacyDirective(s.currentPhase, num, c.minExchangesForCompletion, u);
      assert r.directive == Some(d);
    }
  }
}
