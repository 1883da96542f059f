/** The universal competency rubric: the static library of assessable
    competencies that every interview specification selects from. Each
    competency carries the same five-level proficiency scale. */
module Rubric {
  import opened Wrappers
  import opened Seqs

  datatype InterviewType = FirstRound | Case | Technical

  /** Critical competencies gate the overall pass, important ones feed the
      average, bonus ones can only lift it. */
  datatype Tier = Critical | Important | Bonus

  datatype RubricLevel = RubricLevel(level: int, name: string, description: string, indicators: seq<string>)

  datatype UniversalCompetency = UniversalCompetency(
    id: string,
    name: string,
    description: string,
    levels: map<int, RubricLevel>,
    redFlags: seq<string>,
    greenFlags: seq<string>,
    applicableTypes: seq<InterviewType>)

  /** Every level map is keyed 1..5 and each entry records its own key. */
  predicate LevelsWellFormed(levels: map<int, RubricLevel>) {
    && levels.Keys == {1, 2, 3, 4, 5}
    && forall k :: k in levels ==> levels[k].level == k
  }

  function Ids(rubric: seq<UniversalCompetency>): (ids: seq<string>)
    ensures |ids| == |rubric|
    ensures forall i :: 0 <= i < |rubric| ==> ids[i] == rubric[i].id
  {
    seq(|rubric|, i requires 0 <= i < |rubric| => rubric[i].id)
  }

  /** A rubric is a dictionary keyed by id whose entries are well formed. */
  predicate WellFormedRubric(rubric: seq<UniversalCompetency>) {
    && Distinct(Ids(rubric))
    && forall i :: 0 <= i < |rubric| ==> LevelsWellFormed(rubric[i].levels)
  }

  /** The shared five-level scale. Level descriptions and indicators are
      per-competency prose and are left empty here. */
  function StandardLevels(): (levels: map<int, RubricLevel>)
    ensures LevelsWellFormed(levels)
    ensures levels[1].name == "Insufficient" && levels[3].name == "Adequate" && levels[5].name == "Outstanding"
  {
    map[
      5 := RubricLevel(5, "Outstanding", "", []),
      4 := RubricLevel(4, "Strong", "", []),
      3 := RubricLevel(3, "Adequate", "", []),
      2 := RubricLevel(2, "Weak", "", []),
      1 := RubricLevel(1, "Insufficient", "", [])
    ]
  }

  function Entry(id: string, name: string, types: seq<InterviewType>): UniversalCompetency {
    UniversalCompetency(id, name, "", StandardLevels(), [], [], types)
  }

  /** `UNIVERSAL_RUBRIC`, in the order the library builds it. */
  function UniversalRubric(): (rubric: seq<UniversalCompetency>)
    ensures |rubric| == 14
    ensures forall i :: 0 <= i < |rubric| ==> LevelsWellFormed(rubric[i].levels)
  {
    var r := [
      Entry("problem_structuring", "Problem Structuring", [Case]),
      Entry("analytical_reasoning", "Analytical Reasoning", [Case, Technical]),
      Entry("quantitative_reasoning", "Quantitative Reasoning", [Case, Technical]),
      Entry("synthesis_recommendation", "Synthesis & Recommendation", [Case]),
      Entry("business_judgment", "Business Judgment", [Case, FirstRound]),
      Entry("communication", "Communication", [FirstRound, Case, Technical]),
      Entry("experience_depth", "Experience Depth", [FirstRound]),
      Entry("self_awareness", "Self-Awareness", [FirstRound]),
      Entry("role_motivation", "Role & Company Motivation", [FirstRound]),
      Entry("problem_decomposition", "Problem Decomposition", [Technical]),
      Entry("code_quality", "Code Quality", [Technical]),
      Entry("testing_mindset", "Testing Mindset", [Technical]),
      Entry("technical_communication", "Technical Communication", [Technical]),
      Entry("complexity_optimization", "Complexity & Optimization", [Technical])
    ];
    r
  }

  predicate InRubric(rubric: seq<UniversalCompetency>, id: string) {
    exists i :: 0 <= i < |rubric| && rubric[i].id == id
  }

  /** `get_competency`: the entry with this id, or None. */
  function GetCompetency(rubric: seq<UniversalCompetency>, id: string): (r: Option<UniversalCompetency>)
    ensures r.None? <==> !InRubric(rubric, id)
    ensures r.Some? ==> r.value.id == id && r.value in rubric
    ensures r.Some? ==> exists i :: 0 <= i < |rubric| && rubric[i] == r.value
                                   && forall j :: 0 <= j < i ==> rubric[j].id != id
  {
    if |rubric| == 0 then None
    else if rubric[0].id == id then Some(rubric[0])
    else
      var rest := GetCompetency(rubric[1..], id);
      assert forall i :: 0 < i < |rubric| ==> rubric[i] == rubric[1..][i - 1];
      rest
  }

  /** `get_competencies_for_type`: the applicable entries, in library order. */
  function GetCompetenciesForType(rubric: seq<UniversalCompetency>, t: InterviewType): (r: seq<UniversalCompetency>)
    ensures forall c :: c in r <==> c in rubric && t in c.applicableTypes
    ensures IsSubsequence(r, rubric)
  {
    if |rubric| == 0 then []
    else
      var rest := GetCompetenciesForType(rubric[1..], t);
      assert rubric == [rubric[0]] + rubric[1..];
      if t in rubric[0].applicableTypes then [rubric[0]] + rest else rest
  }
}
