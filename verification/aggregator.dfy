/** The competency aggregator (`get_overall_level`): collapses the per-
    competency 0..5 levels, each tagged with a tier, into one 0..5 level.
    Means are exact rationals (`real`); Python's `int()` truncation and
    round-half-to-even `round()` are written out. */
module Aggregator {
  import opened Seqs
  import opened Rubric
  import opened Schema
  import opened State

  /** The tier the aggregator uses for a score: the LAST selection with that
      id wins (later dictionary writes overwrite earlier ones), and an id
      the specification does not select counts as important. */
  function TierForLevel(cs: seq<SelectedCompetency>, id: string): (t: Tier)
    ensures id !in CompetencyIds(cs) ==> t == Important
    ensures id in CompetencyIds(cs) ==>
      exists i :: 0 <= i < |cs| && cs[i].competencyId == id && cs[i].tier == t
                  && forall j :: i < j < |cs| ==> cs[j].competencyId != id
  {
    if |cs| == 0 then Important
    else
      var last := cs[|cs| - 1];
      assert CompetencyIds(cs) == CompetencyIds(cs[..|cs| - 1]) + [last.competencyId];
      if last.competencyId == id then last.tier else TierForLevel(cs[..|cs| - 1], id)
  }

  /** Assessed (non-zero) levels split by tier, each list in score order. */
  datatype Buckets = Buckets(critical: seq<int>, important: seq<int>, bonus: seq<int>)

  predicate Assessed(s: CompetencyScore) {
    s.currentLevel != 0
  }

  function Bucket(scores: seq<CompetencyScore>, cs: seq<SelectedCompetency>): (b: Buckets)
    ensures forall l :: l in b.critical ==> l != 0 && exists k :: 0 <= k < |scores| && scores[k].currentLevel == l && TierForLevel(cs, scores[k].competencyId) == Critical
    ensures forall l :: l in b.important ==> l != 0 && exists k :: 0 <= k < |scores| && scores[k].currentLevel == l && TierForLevel(cs, scores[k].competencyId) == Important
    ensures forall l :: l in b.bonus ==> l != 0 && exists k :: 0 <= k < |scores| && scores[k].currentLevel == l && TierForLevel(cs, scores[k].competencyId) == Bonus
    ensures forall k :: 0 <= k < |scores| && Assessed(scores[k]) ==>
      match TierForLevel(cs, scores[k].competencyId)
      case Critical => scores[k].currentLevel in b.critical
      case Important => scores[k].currentLevel in b.important
      case Bonus => scores[k].currentLevel in b.bonus
  {
    if |scores| == 0 then Buckets([], [], [])
    else
      var prefix := scores[..|scores| - 1];
      var s := scores[|scores| - 1];
      var b := Bucket(prefix, cs);
      assert forall k :: 0 <= k < |prefix| ==> prefix[k] == scores[k];
      if !Assessed(s) then b
      else match TierForLevel(cs, s.competencyId)
           case Critical => b.(critical := b.critical + [s.currentLevel])
           case Important => b.(important := b.important + [s.currentLevel])
           case Bonus => b.(bonus := b.bonus + [s.currentLevel])
  }

  /** The bucket of one tier. */
  function TierBucket(b: Buckets, t: Tier): seq<int> {
    match t
    case Critical => b.critical
    case Important => b.important
    case Bonus => b.bonus
  }

  /** An assessed score of tier `t` at level `l`. */
  predicate AssessedAt(s: CompetencyScore, cs: seq<SelectedCompetency>, t: Tier, l: int) {
    Assessed(s) && s.currentLevel == l && TierForLevel(cs, s.competencyId) == t
  }

  /** The positions of the assessed scores of tier `t` at level `l`. */
  ghost function ScoresAt(scores: seq<CompetencyScore>, cs: seq<SelectedCompetency>, t: Tier, l: int): set<int> {
    set k | 0 <= k < |scores| && AssessedAt(scores[k], cs, t, l)
  }

  /** Each tier's bucket holds every level exactly as often as assessed
      scores of that tier carry it, so the means are taken over every
      assessed score. */
  lemma {:induction false} BucketCounts(scores: seq<CompetencyScore>, cs: seq<SelectedCompetency>, t: Tier, l: int)
    ensures multiset(TierBucket(Bucket(scores, cs), t))[l] == |ScoresAt(scores, cs, t, l)|
  {
    if |scores| == 0 {
      assert ScoresAt(scores, cs, t, l) == {};
    } else {
      var n := |scores| - 1;
      BucketCounts(scores[..n], cs, t, l);
      BucketStep(scores, cs, t);
      ScoresAtStep(scores, cs, t, l);
    }
  }

  /** The last score adds its level to its tier's bucket when it is assessed. */
  lemma BucketStep(scores: seq<CompetencyScore>, cs: seq<SelectedCompetency>, t: Tier)
    requires |scores| > 0
    ensures var n := |scores| - 1;
            var s := scores[n];
            TierBucket(Bucket(scores, cs), t) ==
              TierBucket(Bucket(scores[..n], cs), t)
              + (if Assessed(s) && TierForLevel(cs, s.competencyId) == t then [s.currentLevel] else [])
  {
  }

  /** The last score adds its own position to the matching positions exactly when it matches. */
  lemma ScoresAtStep(scores: seq<CompetencyScore>, cs: seq<SelectedCompetency>, t: Tier, l: int)
    requires |scores| > 0
    ensures var n := |scores| - 1;
            var s := scores[n];
            |ScoresAt(scores, cs, t, l)| ==
              |ScoresAt(scores[..n], cs, t, l)|
              + (if AssessedAt(s, cs, t, l) then 1 else 0)
  {
    var n := |scores| - 1;
    var prefix := scores[..n];
    var before := ScoresAt(prefix, cs, t, l);
    var after := ScoresAt(scores, cs, t, l);
    assert forall k :: 0 <= k < n ==> prefix[k] == scores[k];
    assert forall k :: k in after <==> k in before || (k == n && AssessedAt(scores[n], cs, t, l));
    if AssessedAt(scores[n], cs, t, l) {
      assert after == before + {n};
    } else {
      assert after == before;
    }
  }

  function Sum(xs: seq<int>): int {
    if |xs| == 0 then 0 else Sum(xs[..|xs| - 1]) + xs[|xs| - 1]
  }

  function Mean(xs: seq<int>): real
    requires |xs| > 0
  {
    Sum(xs) as real / |xs| as real
  }

  /** Python's `int()` on a float: truncation toward zero. */
  function Trunc(x: real): (r: int)
    ensures 0.0 <= x ==> 0 <= r && r as real <= x < r as real + 1.0
    ensures x < 0.0 ==> r <= 0 && r as real - 1.0 < x <= r as real
  {
    if x >= 0.0 then x.Floor else -((-x).Floor)
  }

  /** Python's `round()` on a float: nearest integer, halves to the even neighbour. */
  function RoundHalfEven(x: real): (r: int)
    ensures r as real - 0.5 <= x <= r as real + 0.5
    ensures (x == r as real - 0.5 || x == r as real + 0.5) ==> r % 2 == 0
  {
    var f := x.Floor;
    var d := x - f as real;
    if d < 0.5 then f
    else if d > 0.5 then f + 1
    else if f % 2 == 0 then f
    else f + 1
  }

  function MinInt(a: int, b: int): int { if a <= b then a else b }
  function MinReal(a: real, b: real): real { if a <= b then a else b }
  function MaxReal(a: real, b: real): real { if a >= b then a else b }

  /** A critical competency assessed below 3. */
  predicate CriticalFailure(b: Buckets) {
    exists l :: l in b.critical && l < 3
  }

  /** The ungated mean of critical and important levels, lifted by the bonus boost and capped at 5. */
  function BoostedMean(b: Buckets): (r: real)
    requires |b.critical + b.important| > 0
    ensures |b.bonus| == 0 ==> r == Mean(b.critical + b.important)
    ensures |b.bonus| > 0 ==> r <= 5.0 && (r == 5.0 || Mean(b.critical + b.important) <= r)
  {
    var base := Mean(b.critical + b.important);
    if |b.bonus| > 0 then MinReal(5.0, base + MaxReal(0.0, (Mean(b.bonus) - 3.0) * 0.1)) else base
  }

  /** The tiered rule applied to already-bucketed levels. */
  function Aggregate(b: Buckets): (r: int)
    ensures CriticalFailure(b) ==> r <= 2
    ensures !CriticalFailure(b) && |b.critical + b.important| == 0 ==> r == 0
    ensures !CriticalFailure(b) && |b.critical + b.important| > 0 ==>
              r as real - 0.5 <= BoostedMean(b) <= r as real + 0.5
  {
    if CriticalFailure(b) then MinInt(2, Trunc(Mean(b.critical)))
    else if |b.critical + b.important| == 0 then 0
    else RoundHalfEven(BoostedMean(b))
  }

  /** `get_overall_level`. */
  function OverallLevel(scores: seq<CompetencyScore>, spec: InterviewSpec): (r: int)
    ensures |scores| == 0 ==> r == 0
    ensures CriticalFailure(Bucket(scores, spec.competencies)) ==> r <= 2
  {
    if |scores| == 0 then 0 else Aggregate(Bucket(scores, spec.competencies))
  }

  // ---------------------------------------------------------------------------
  // Rounding
  // ---------------------------------------------------------------------------

  /** The two properties in `RoundHalfEven`'s contract pin its result down:
      no other integer is within a half with ties going to the even one. */
  lemma RoundHalfEvenUnique(x: real, n: int)
    requires n as real - 0.5 <= x <= n as real + 0.5
    requires (x == n as real - 0.5 || x == n as real + 0.5) ==> n % 2 == 0
    ensures n == RoundHalfEven(x)
  {
    var r := RoundHalfEven(x);
    assert r as real - 0.5 <= x <= n as real + 0.5;
    assert n as real - 0.5 <= x <= r as real + 0.5;
  }

  lemma RoundHalfEvenMonotone(x: real, y: real)
    requires x <= y
    ensures RoundHalfEven(x) <= RoundHalfEven(y)
  {
    var rx, ry := RoundHalfEven(x), RoundHalfEven(y);
    assert rx as real - 0.5 <= ry as real + 0.5;
  }

  /** Python's `round` sends halves to the even neighbour: 2.5 -> 2, 3.5 -> 4, 4.5 -> 4. */
  lemma PythonRoundExamples()
    ensures RoundHalfEven(2.5) == 2 && RoundHalfEven(3.5) == 4 && RoundHalfEven(4.5) == 4
    ensures RoundHalfEven(3.4) == 3 && RoundHalfEven(3.6) == 4
  {
    RoundHalfEvenUnique(2.5, 2);
    RoundHalfEvenUnique(3.5, 4);
    RoundHalfEvenUnique(4.5, 4);
    RoundHalfEvenUnique(3.4, 3);
    RoundHalfEvenUnique(3.6, 4);
  }

  // ---------------------------------------------------------------------------
  // Means
  // ---------------------------------------------------------------------------

  lemma {:induction false} SumAtMost(xs: seq<int>, hi: int)
    requires forall l :: l in xs ==> l <= hi
    ensures Sum(xs) <= |xs| * hi
  {
    if |xs| > 0 {
      var init := xs[..|xs| - 1];
      assert forall l :: l in init ==> l in xs;
      assert xs[|xs| - 1] in xs;
      SumAtMost(init, hi);
    }
  }

  lemma {:induction false} SumAtLeast(xs: seq<int>, lo: int)
    requires forall l :: l in xs ==> lo <= l
    ensures |xs| * lo <= Sum(xs)
  {
    if |xs| > 0 {
      var init := xs[..|xs| - 1];
      assert forall l :: l in init ==> l in xs;
      assert xs[|xs| - 1] in xs;
      SumAtLeast(init, lo);
    }
  }

  lemma MeanAtMost(xs: seq<int>, hi: int)
    requires |xs| > 0
    requires forall l :: l in xs ==> l <= hi
    ensures Mean(xs) <= hi as real
  {
    SumAtMost(xs, hi);
    var n := |xs| as real;
    assert (|xs| * hi) as real == n * hi as real;
    assert Sum(xs) as real <= n * hi as real;
  }

  lemma MeanAtLeast(xs: seq<int>, lo: int)
    requires |xs| > 0
    requires forall l :: l in xs ==> lo <= l
    ensures lo as real <= Mean(xs)
  {
    SumAtLeast(xs, lo);
    var n := |xs| as real;
    assert (|xs| * lo) as real == n * lo as real;
    assert n * lo as real <= Sum(xs) as real;
  }

  // ---------------------------------------------------------------------------
  // Properties of the aggregate
  // ---------------------------------------------------------------------------

  lemma HeadIsMember(xs: seq<int>)
    ensures |xs| == 0 || xs[0] in xs
  {
  }

  /** Unassessed competencies are skipped, and bonus levels alone never
      produce a level: with no assessed critical or important competency
      the result is 0. */
  lemma NoCoreAssessedIsZero(scores: seq<CompetencyScore>, spec: InterviewSpec)
    requires forall k :: 0 <= k < |scores| && Assessed(scores[k]) ==>
               TierForLevel(spec.competencies, scores[k].competencyId) == Bonus
    ensures OverallLevel(scores, spec) == 0
  {
    if |scores| > 0 {
      var b := Bucket(scores, spec.competencies);
      assert forall l :: l !in b.critical;
      assert forall l :: l !in b.important;
      HeadIsMember(b.critical);
      HeadIsMember(b.important);
    }
  }

  /** The critical gate: one assessed critical competency below 3 caps the
      result at 2 whatever the other levels are, and the capped value is
      the truncated (not rounded) critical mean. */
  lemma CriticalGate(scores: seq<CompetencyScore>, spec: InterviewSpec, k: int)
    requires 0 <= k < |scores| && Assessed(scores[k]) && scores[k].currentLevel < 3
    requires TierForLevel(spec.competencies, scores[k].competencyId) == Critical
    ensures OverallLevel(scores, spec) <= 2
    ensures var b := Bucket(scores, spec.competencies);
            |b.critical| > 0 && OverallLevel(scores, spec) == MinInt(2, Trunc(Mean(b.critical)))
  {
    var b := Bucket(scores, spec.competencies);
    assert scores[k].currentLevel in b.critical;
    assert CriticalFailure(b);
  }

  /** Bonus levels can only help: adding bonus levels never lowers the
      result (for core levels at most 5, so the cap at 5 cannot bite). */
  lemma BonusNeverLowers(b: Buckets)
    requires forall l :: l in b.critical + b.important ==> l <= 5
    ensures Aggregate(b) >= Aggregate(b.(bonus := []))
  {
    var nb := b.(bonus := []);
    if !CriticalFailure(b) && |b.critical + b.important| > 0 {
      MeanAtMost(b.critical + b.important, 5);
      assert BoostedMean(nb) <= BoostedMean(b);
      RoundHalfEvenMonotone(BoostedMean(nb), BoostedMean(b));
    }
  }

  /** With every level in 0..5 the overall level is in 0..5. */
  lemma LevelInRange(scores: seq<CompetencyScore>, spec: InterviewSpec)
    requires forall k :: 0 <= k < |scores| ==> 0 <= scores[k].currentLevel <= 5
    ensures 0 <= OverallLevel(scores, spec) <= 5
  {
    if |scores| > 0 {
      var b := Bucket(scores, spec.competencies);
      assert forall l :: l in b.critical ==> 1 <= l <= 5;
      assert forall l :: l in b.important ==> 1 <= l <= 5;
      assert forall l :: l in b.bonus ==> 1 <= l <= 5;
      if CriticalFailure(b) {
        MeanAtLeast(b.critical, 1);
        MeanAtMost(b.critical, 5);
      } else if |b.critical + b.important| > 0 {
        MeanAtLeast(b.critical + b.important, 1);
        MeanAtMost(b.critical + b.important, 5);
        assert 1.0 <= BoostedMean(b) <= 5.0;
      }
    }
  }

  /** A critical "structuring" and an important "communication": levels
      2 and 4 give 2 (the gate bites), levels 4 and 4 give 4. */
  lemma TwoCompetencyScenario(spec: InterviewSpec)
    requires spec.competencies == [Select("structuring", Critical), Select("communication", Important)]
    ensures OverallLevel([Scored("structuring", 2), Scored("communication", 4)], spec) == 2
    ensures OverallLevel([Scored("structuring", 4), Scored("communication", 4)], spec) == 4
  {
    ScenarioBuckets(spec.competencies, 2, 4);
    ScenarioBuckets(spec.competencies, 4, 4);
    GateScenario();
    PassScenario();
  }

  /** One critical level of 2 caps the result at 2, whatever the important level. */
  lemma GateScenario()
    ensures Aggregate(Buckets([2], [4], [])) == 2
  {
    assert Sum([2]) == 2;
    assert CriticalFailure(Buckets([2], [4], [])) by { assert 2 in [2]; }
  }

  /** Two levels of 4 and no critical failure give 4. */
  lemma PassScenario()
    ensures Aggregate(Buckets([4], [4], [])) == 4
  {
    var b := Buckets([4], [4], []);
    assert !CriticalFailure(b);
    assert b.critical + b.important == [4, 4];
    assert Sum([4, 4]) == 8 by { assert [4, 4][..1] == [4]; }
    assert BoostedMean(b) == 4.0;
    RoundHalfEvenUnique(4.0, 4);
  }

  /** With that selection, two assessed levels land one in each tier. */
  lemma ScenarioBuckets(cs: seq<SelectedCompetency>, a: int, b: int)
    requires cs == [Select("structuring", Critical), Select("communication", Important)]
    requires a != 0 && b != 0
    ensures Bucket([Scored("structuring", a), Scored("communication", b)], cs) == Buckets([a], [b], [])
  {
    assert cs[..1] == [Select("structuring", Critical)];
    assert TierForLevel(cs, "structuring") == Critical;
    assert TierForLevel(cs, "communication") == Important;
    var scores := [Scored("structuring", a), Scored("communication", b)];
    assert scores[..1] == [Scored("structuring", a)];
    assert [Scored("structuring", a)][..0] == [];
    assert Bucket(scores[..1], cs) == Buckets([a], [], []);
  }

  /** A bare score at the given level (no evidence yet), for worked examples. */
  function Scored(id: string, level: int): (s: CompetencyScore)
    ensures s.competencyId == id && s.currentLevel == level
  {
    CreateEmptyCompetencyScore(id).(currentLevel := level)
  }
}
