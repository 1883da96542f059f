# Adaptive interview core, in Dafny

A model of the deterministic core of the adaptive case-interview system. A
session is one `InterviewState`. The optional `InterviewSpec` configures it:
interview type, context packet, selected competencies with tiers, phases and
constraints. Each candidate turn runs three stages in order:

- the evaluator assesses the candidate and merges red and green flags;
- the interviewer replies;
- the manager enforces the exchange and time limits and writes a directive.

When the manager ends the session, the runner appends a closing. Around the
turn loop the model also covers:

- the competency aggregator (`get_overall_level`) with its critical gate,
  bonus boost and Python rounding;
- the universal rubric and the specification schema (`validate_spec`);
- the spec loaders and the first-round generator;
- the legacy case loader.

The language-model calls are oracles. What they return arrives as a
parameter, already decoded or marked as undecodable. The same holds for the
minutes elapsed since the session started, random id suffixes, session ids
and timestamps. The rubric library is a parameter `rubric`, and
`Rubric.UniversalRubric` gives its shape (ids, order, applicable types).

The modules follow the source files:

| module | file |
|---|---|
| `Rubric` | rubric library in `specs/spec_schema.py` |
| `Schema` | specification schema and `validate_spec` in `specs/spec_schema.py` |
| `State` | `state.py` |
| `Aggregator` | `state.py` `get_overall_level` |
| `Evaluator` | `agents/evaluator.py` |
| `Interviewer` | `agents/interviewer.py` |
| `Manager` | `agents/manager.py` |
| `Runner` | `graph.py` |
| `SpecLoader` | `specs/spec_loader.py` |
| `FirstRoundGenerator` | `specs/generators/first_round_generator.py` |
| `CaseLoader` | `case_loader.py` |

Three helper modules support them:

- `Wrappers`: `Option` and `Result`;
- `Seqs`: distinctness and subsequences;
- `Text`: `lower` and `upper` (ASCII), `strip` (Python white space), `replace`, `in`, `endswith` and `str(n)`.

Errors the source raises become `Result` failures:

- a missing dictionary key (`KeyError`) becomes `MissingKey`;
- a tier string the enum rejects becomes `BadTier`;
- a failed `validate_spec` becomes `InvalidSpec(issues)`;
- an id unknown to the rubric becomes a string error.

## Model

| member | source | states |
|---|---|---|
| Rubric.UniversalRubric | specs/spec_schema.py:97-1154 | The library holds fourteen competencies. Every level map is keyed 1..5, and each entry records its own key. |
| Rubric.StandardLevels | specs/spec_schema.py:110-158 | The shared five-level scale is keyed 1..5 and runs from "Insufficient" through "Adequate" to "Outstanding". |
| Rubric.GetCompetency | specs/spec_schema.py:1157-1159 | Returns None exactly for an id not in the library. Otherwise returns a library entry carrying that id. |
| Rubric.GetCompetenciesForType | specs/spec_schema.py:1162-1167 | Returns exactly the entries applicable to the type, in library order (a subsequence). |
| Schema.GetContext | specs/spec_schema.py:1226-1234 | Returns the variant the packet type names, and None exactly when that slot is empty. The returned variant has the declared kind. |
| Schema.DefaultConstraints | specs/spec_schema.py:1347-1354 | The defaults are 30 minutes, 15 exchanges, 5 exchanges before completion, and early termination allowed. |
| Schema.GetFullCompetency | specs/spec_schema.py:1254-1270 | Fails exactly for an id not in the library. Otherwise returns the library entry with the session's additional red and green flags appended. |
| Schema.GetCriticalCompetencies | specs/spec_schema.py:1413-1415 | Returns exactly the critical selections, in specification order. |
| Schema.GetCompetencyById | specs/spec_schema.py:1417-1422 | Returns None exactly when no selection has the id. Otherwise returns a selection with that id. |
| Schema.UnknownCompetencyIssues | specs/spec_schema.py:1454-1457 | Produces one issue per selection unknown to the library, and none when every id is known. |
| Schema.FocusIssues | specs/spec_schema.py:1464-1469 | Reports a phase focus id exactly when it is not a selected competency. |
| Schema.ValidateSpecEmptyIff | specs/spec_schema.py:1429-1471 | `validate_spec` reports nothing exactly when every rule holds (an independent statement of validity). |
| Schema.UnknownIssuesAppend | specs/spec_schema.py:1454-1457 | Appending a selection adds an unknown-competency issue exactly when its id is unknown. |
| Schema.NoCriticalReportedOnce | specs/spec_schema.py:1459-1462 | A specification without a critical competency gets exactly one issue saying so, and one with a critical competency gets none. |
| Schema.ValidateIgnoresOtherVariants | specs/spec_schema.py:1446-1452 | Only the declared context variant is inspected. |
| State.CreateEmptyCompetencyScore | state.py:198-208 | Returns an unassessed score: level 0, low confidence, and no evidence, history or flags. |
| State.FindScore | agents/manager.py:135-137 | Returns None exactly for an id without a score. Otherwise returns that id's score. |
| State.InitializeCompetencyScores | state.py:211-225 | The keys are exactly the specification's competency ids, without duplicates, and each holds an unassessed score. |
| State.LevelNameTable | state.py:288-298 | The level names are distinct on 0..5. Every other integer maps to "UNKNOWN". |
| State.LevelName | state.py:288-298 | The name is "UNKNOWN" exactly for levels outside 0..5. Distinctness of the six names is in State.LevelNameTable. |
| State.HasSpec | state.py:301-303 | No contract of its own. What a specification changes is stated by Manager.EffectiveConstraints and Interviewer.InterviewerNode. |
| State.FindPhase | state.py:314-325 | Finds the first phase whose id matches ignoring case, and returns None when no phase matches. |
| State.CurrentPhaseConfig | state.py:314-325 | Returns None without a specification. Otherwise returns the first phase matching the current phase ignoring case, or None when none matches. |
| State.CandidateCount | agents/manager.py:54-55 | Counts the candidate messages, which never exceed the transcript length. |
| State.CandidateCountAppend | agents/manager.py:54-55 | Appending a message raises the count by one exactly when the message is the candidate's. |
| Aggregator.TierForLevel | state.py:244-255 | An id the specification does not select counts as important. Otherwise the last selection with that id decides the tier. |
| Aggregator.Bucket | state.py:254-266 | Every assessed level lands in its tier's bucket. Every bucketed level is non-zero and comes from a score of that tier. How often each level occurs is in Aggregator.BucketCounts. |
| Aggregator.BucketCounts | state.py:254-266 | Each tier's bucket holds each level exactly as many times as there are assessed scores of that tier at that level, so every mean is over all assessed scores. |
| Aggregator.Trunc | state.py:271 | Python `int()` on a float truncates toward zero. |
| Aggregator.RoundHalfEven | state.py:285 | Python `round()` returns the nearest integer and sends halves to the even neighbour. |
| Aggregator.BoostedMean | state.py:278-283 | Without bonus levels it is the mean of the critical and important levels. With bonus levels it is at most 5, and it is either 5 or no lower than that mean. |
| Aggregator.Aggregate | state.py:268-285 | A critical failure caps the result at 2. With no core level the result is 0. Otherwise the result is within a half of the boosted mean. |
| Aggregator.OverallLevel | state.py:228-285 | No scores give 0, and a critical failure caps the result at 2. The range bound is in Aggregator.LevelInRange. |
| Aggregator.RoundHalfEvenUnique | state.py:285 | These two properties determine the rounded value uniquely. |
| Aggregator.RoundHalfEvenMonotone | state.py:285 | Rounding is monotone. |
| Aggregator.PythonRoundExamples | state.py:285 | 2.5 rounds to 2, 3.5 to 4, 4.5 to 4, 3.4 to 3 and 3.6 to 4. |
| Aggregator.NoCoreAssessedIsZero | state.py:254-276 | Unassessed scores are skipped. With no assessed critical or important competency the level is 0, whatever the bonus levels. |
| Aggregator.CriticalGate | state.py:268-271 | One assessed critical level below 3 caps the result at 2. The capped value is the truncated critical mean. |
| Aggregator.BonusNeverLowers | state.py:278-285 | Bonus levels never lower the result. |
| Aggregator.LevelInRange | state.py:228-285 | With every level in 0..5, the overall level is in 0..5. |
| Aggregator.TwoCompetencyScenario | state.py:228-285 | Critical structuring at 2 with important communication at 4 gives 2. Both at 4 gives 4. |
| Aggregator.GateScenario | state.py:268-271 | A single critical level of 2 caps the result at 2. |
| Aggregator.PassScenario | state.py:278-285 | Two core levels of 4 give 4. |
| Evaluator.MergeFlags | agents/evaluator.py:95-104 | The prior flag list is kept as a prefix. |
| Evaluator.MergeRecordsAll | agents/evaluator.py:98-104 | Every prior flag and every non-empty incoming flag ends up in the list. |
| Evaluator.MergeAddsOnlyNew | agents/evaluator.py:98-104 | Each appended flag is non-empty, came from the oracle and was not present before. No flag is appended twice. |
| Evaluator.MergeKeepsDistinct | agents/evaluator.py:98-104 | A duplicate-free list stays duplicate-free. |
| Evaluator.MergeKeepsOrder | agents/evaluator.py:98-104 | The appended flags keep the oracle's order. |
| Evaluator.ParseFallback | agents/evaluator.py:32-42 | No contract of its own. Its effect on the state is stated by Evaluator.EvaluatorNode and Evaluator.ParseFailureResetsLevel. |
| Evaluator.EvaluatorNode | agents/evaluator.py:22-112 | The level and the level name come from the assessment, and each falls back to the old value when its key is missing. An undecodable reply resets them to 0 and "PARSE_ERROR". The flag lists only grow, tokens accumulate, and nothing else changes. |
| Evaluator.FlagsStayDistinct | agents/evaluator.py:95-104 | Duplicate-free flag lists stay duplicate-free, and every non-empty reported red flag is recorded. |
| Evaluator.ParseFailureResetsLevel | agents/evaluator.py:32-107 | An undecodable reply sets a non-zero level to 0 and the state's level name to "PARSE_ERROR", which differs from the table's name for 0 ("NOT_ASSESSED"). |
| Evaluator.EvaluatorKeepsTranscript | agents/evaluator.py:106-112 | The stage leaves the transcript, the phase and the completion flag alone. |
| Interviewer.Spoken | agents/interviewer.py:39-130 | Uses the decoded "spoken" field when present, and the raw reply otherwise. |
| Interviewer.GenerateClosing | agents/interviewer.py:280-319 | Appends exactly one interviewer closing, marks the session complete, records the current level as the final score, sets the phase to COMPLETE, and changes nothing else. |
| Interviewer.ClosingsCarryMarker | agents/interviewer.py:294-301 | The case and first-round closings contain "wrap up". |
| Interviewer.TechnicalClosingLacksMarker | agents/interviewer.py:296-297 | The technical closing does not contain "wrap up" in any letter case. |
| Interviewer.ClosingFor | agents/interviewer.py:286-301 | No contract of its own. Which closings the detector recognises is stated by Runner.ClosingDetectedUnlessTechnical. |
| Interviewer.CleanPrompt | agents/interviewer.py:196-200 | The cleaned prompt has no leading or trailing white space and is no longer than the original. |
| Interviewer.RemoveAbsent | agents/interviewer.py:196-200 | Removing a phrase that does not occur leaves the text unchanged. |
| Interviewer.BuildCaseOpening | agents/interviewer.py:194-213 | The opening starts with the cleaned prompt and a blank line, and ends with "Over to you.". A "give them a moment" style selects the moment intro. |
| Interviewer.BuildCvOpening | agents/interviewer.py:216-231 | The greeting names the role. |
| Interviewer.BuildTechnicalOpening | agents/interviewer.py:234-250 | The opening starts with the fixed intro and ends with the problem statement verbatim. |
| Interviewer.SpecOpening | agents/interviewer.py:159-191 | Produces a one-message transcript from the interviewer, sets the phase to the first phase's id upper-cased (OPENING when there is none), and changes nothing else. |
| Interviewer.LegacyOpening | agents/interviewer.py:253-277 | Produces a one-message transcript: the cleaned case opening, then the fixed intro ending "Over to you.". Sets the phase to STRUCTURING and changes nothing else. |
| Interviewer.InterviewerNode | agents/interviewer.py:54-156 | A complete session gets the closing. An empty transcript gets the opening. Otherwise exactly the spoken reply is appended and tokens accumulate. Completion is unchanged. |
| Manager.EffectiveConstraints | agents/manager.py:40-51 | Returns the specification's constraints, or the defaults without one. |
| Manager.UrgencyFor | agents/manager.py:61-70 | Urgency is must-end exactly at 3 minutes or 2 exchanges left or fewer, and normal exactly above 8 minutes and above 4 exchanges. |
| Manager.UrgencyMonotone | agents/manager.py:62-70 | Less time or fewer exchanges left never lowers the urgency. |
| Manager.UrgencyBands | agents/manager.py:62-70 | Urgency is wrap-up-soon exactly when more than 3 minutes and more than 2 exchanges are left, but at most 8 minutes or at most 4 exchanges. |
| Manager.ScoreLevel | agents/manager.py:131-150 | A competency without a score has level 0. Otherwise the level is its score's level. |
| Manager.ScoreConfidence | agents/manager.py:131-150 | A competency without a score has low confidence. Otherwise the confidence is its score's confidence. |
| Manager.Partition | agents/manager.py:131-150 | Every id lands on exactly the side its flag says, and nothing else appears. |
| Manager.PartitionKeepsOrder | agents/manager.py:131-150 | Both sides keep specification order. |
| Manager.CoverageOf | agents/manager.py:127-150 | Each selection's id goes to the undercovered side when it is unassessed, low-confidence or critical below level 3, and to the satisfied side otherwise. Both sides keep specification order, and together they have one entry per selection. |
| Manager.CoverageMembership | agents/manager.py:131-150 | An id is undercovered (or satisfied) exactly when some selection with that id is. The two lists together have one entry per selection. |
| Manager.GetTier | agents/manager.py:276-281 | Uses the first selection with the id, and important when no selection has it. |
| Manager.TierLookupsAgree | agents/manager.py:276-281 | On duplicate-free ids, the manager's first-match lookup and the aggregator's last-match lookup agree. |
| Manager.CriticalOnly | agents/manager.py:155-159 | Returns exactly the critical undercovered ids, in order. |
| Manager.FocusFor | agents/manager.py:153-163 | Gives no focus exactly when nothing is undercovered. With critical undercovered ids, the focus names the first two of them (or the only one), joined by ", ". Without critical ids the focus is the first undercovered id. |
| Manager.CloseNeedsOnlyCoverage | agents/manager.py:169-185 | The early-close test holds exactly when nothing is undercovered and the exchange minimum and early termination allow it. |
| Manager.MayClose | agents/manager.py:168-185 | An early close requires early termination to be allowed, the exchange minimum to be met, and no selection to be undercovered. |
| Manager.CoveredIsAssessed | agents/manager.py:136-150 | With nothing undercovered, every selected competency is assessed with more than low confidence. |
| Manager.CheckPhaseTransition | agents/manager.py:236-273 | Suggests the next phase exactly when the first phase matching the current one has reached its maximum and a next phase exists. |
| Manager.HardStop | agents/manager.py:73-93 | A hard stop ends the session at must-end urgency and gives the reason as the focus. |
| Manager.MakeDirective | agents/manager.py:284-302 | Each argument is carried into the directive unchanged. The suggested phase and its reason are present together, and they rebuild the suggestion. |
| Manager.BuildSpecDirective | agents/manager.py:115-195 | Always continues and never lowers the urgency. Urgency changes exactly for an early close at normal urgency, and then becomes wrap-up-soon. The focus is the close focus when the early close holds, and the coverage focus otherwise. The two id lists are the coverage split. The suggested phase and its reason are those of the phase-transition check. |
| Manager.BuildLegacyDirective | agents/manager.py:198-233 | Ends exactly in SYNTHESIS with enough exchanges. Suggests ANALYSIS from STRUCTURING at 3 exchanges and SYNTHESIS from ANALYSIS at 8. |
| Manager.ManagerNode | agents/manager.py:25-112 | On an open session, the session continues exactly when it is not marked complete, and a directive is always written. |
| Manager.ApplyManager | agents/manager.py:96-112 | Completion becomes sticky, `should_continue` and the directive are written, and nothing else changes. |
| Manager.RouteAfter | agents/manager.py:305-312 | The route is End exactly when the session is complete or `should_continue` is false. |
| Manager.CompleteIsTerminal | agents/manager.py:36-37 | A complete session stays complete and routes to End. |
| Manager.RouteMatchesCompletion | agents/manager.py:25-312 | After a manager step the route is End exactly when the session is complete. |
| Manager.ExchangeLimitEnds | agents/manager.py:73-82 | Reaching the exchange limit ends the session, whatever the clock. |
| Manager.TimeLimitEnds | agents/manager.py:84-93 | Below the exchange limit, reaching the time limit ends the session. |
| Manager.SpecSessionEndsOnlyAtLimits | agents/manager.py:96-104 | A specification-driven session ends only at a hard limit. |
| Manager.LegacySynthesisEnds | agents/manager.py:101-212 | A legacy session in SYNTHESIS with enough exchanges is ended by its directive. |
| Manager.UrgencyNeverLowered | agents/manager.py:62-112 | The written directive's urgency is never below the one the thresholds gave. |
| Runner.LastInterviewerIndex | graph.py:71-76 | Returns None exactly when there is no interviewer message. Otherwise returns the position of the most recent one. |
| Runner.LastInterviewerMessage | graph.py:71-76 | Returns "" without an interviewer message. Otherwise returns the content of the most recent one. |
| Runner.LastMessageIsClosing | graph.py:78-83 | When the detector fires, the text the caller would be handed contains "wrap up" in lower case. |
| Runner.AfterStages | graph.py:40-61 | The three stages append exactly the candidate's message and the interviewer's reply to the transcript. |
| Runner.Respond | graph.py:40-69 | The response count rises by one. The transcript keeps the old one as a prefix, then the candidate's message and the interviewer's reply, and adds at most one more message. |
| Runner.Start | graph.py:33-38 | On a fresh session, returns the one opening message. The response count is unchanged. |
| Runner.RespondTranscript | graph.py:40-69 | The new transcript is the old one, the candidate's message, the interviewer's reply, and possibly one closing. |
| Runner.ClosingOnlyWhenNeeded | graph.py:63-67 | A closing is added exactly when the stages ended the session and the last message is not already a closing. |
| Runner.StagesCompleteOnlyViaManager | graph.py:51-61 | The manager counts this turn's candidate message, and only the manager completes the session. |
| Runner.RespondReturnsLatestInterviewerText | graph.py:63-69 | The caller gets the synthesized closing when there is one, and the interviewer's reply otherwise. |
| Runner.MarkerInReplySuppressesClosing | graph.py:78-83 | A reply that mentions "wrap up" is taken for a closing, so no closing is added when the session ends. |
| Runner.CompleteEndsWithClosing | graph.py:63-69 | A complete session ends with an interviewer message. |
| Runner.ClosingDetectedUnlessTechnical | graph.py:78-83 | The detector recognises every closing except the technical one. |
| Runner.ReplayMonotone | graph.py:40-69 | Along any run of turns the transcript only grows. Once a session is complete the replay stops there, so a completed session comes back unchanged. |
| Runner.TwoExchangeSession | graph.py:40-69 | With two allowed exchanges, the first turn leaves the session open and the second closes it. |
| Runner.FirstOfTwoExchanges | graph.py:40-69 | The first of two allowed exchanges leaves the session open with one candidate turn counted. |
| Runner.SecondOfTwoExchanges | graph.py:40-69 | The second of two allowed exchanges completes the session, and the last message is the interviewer's. |
| SpecLoader.ParseTier | specs/spec_schema.py:47-56 | Accepts exactly the three tier strings and inverts the tier's value. |
| SpecLoader.KnownEntries | specs/spec_loader.py:95-100 | Keeps exactly the template entries known to the library, in order. |
| SpecLoader.SelectCompetencies | specs/spec_loader.py:94-107 | Succeeds exactly when every known entry's tier parses. On success there is one selection per known entry, in order, with case flags only where inherited. On failure the error names an offending entry. |
| SpecLoader.Validated | specs/spec_loader.py:137-139 | Passes the specification through exactly when it is valid. Otherwise raises with a non-empty issue list. |
| SpecLoader.SpecIdOr | specs/spec_loader.py:78-79 | A missing or empty given id is replaced by the generated one. |
| SpecLoader.CreateCaseInterviewSpec | specs/spec_loader.py:58-141 | A missing opening raises, and so do bad tiers. On success: a valid case specification with the case packet, the "case_" id, the default title, the template's parts, and the selections above. |
| SpecLoader.CreateFirstRoundSpec | specs/spec_loader.py:144-230 | Bad tiers raise. On success: a valid first-round specification with the CV packet, the "first_round_" id, the role in the title, and selections without flags. |
| SpecLoader.CreateTechnicalInterviewSpec | specs/spec_loader.py:233-311 | A missing problem statement raises, and so do bad tiers. On success: a valid technical specification with the problem packet and the "technical_" id. |
| SpecLoader.CriticalSelectionIff | specs/spec_loader.py:94-107 | A selection is critical exactly when its known template entry says "critical". |
| SpecLoader.CaseSpecNeedsCriticalEntry | specs/spec_loader.py:94-139 | A case specification loads only when some known template entry is critical. |
| SpecLoader.FirstRoundSpecNeedsCriticalEntry | specs/spec_loader.py:191-228 | A first-round specification loads only when some known template entry is critical. |
| SpecLoader.TechnicalSpecNeedsCriticalEntry | specs/spec_loader.py:272-309 | A technical specification loads only when some known template entry is critical. |
| SpecLoader.CaseFlagsOnlyWhereInherited | specs/spec_loader.py:100-106 | Case flags are attached only to entries that inherit them. |
| SpecLoader.CaseSpecAgreesWithLegacyState | specs/spec_loader.py:82-91 | The case packet of a loaded specification carries the same content as the legacy state built from the same file. |
| SpecLoader.OfTier | specs/spec_loader.py:335-339 | Returns exactly the selections of the tier, in order. |
| SpecLoader.TiersCoverAll | specs/spec_loader.py:329-345 | The three tier groups together have one entry per selection. |
| SpecLoader.SummaryOf | specs/spec_loader.py:335-345 | Fails exactly when some selected id is unknown. Otherwise each group lists its tier's selections, in order, with library name, description and flags. |
| SpecLoader.GetCompetenciesSummary | specs/spec_loader.py:324-347 | Fails exactly when some selected id is unknown. Otherwise the groups show every selection once. |
| SpecLoader.ValidSpecSummarises | specs/spec_loader.py:324-347 | A valid specification always summarises, with a non-empty critical group. |
| FirstRoundGenerator.SelectAll | specs/generators/first_round_generator.py:238-246 | Succeeds exactly when every tier parses. On success there is one selection per template entry, in order. |
| FirstRoundGenerator.Elevate | specs/generators/first_round_generator.py:248-253 | Ids, flags and order are kept and only tiers may change. Every experience_depth selection ends critical. A selection changes only if it is experience_depth and was not already critical. |
| FirstRoundGenerator.BuildCompetencies | specs/generators/first_round_generator.py:230-255 | There is one flag-free selection per template entry, with the template's tier, except that experience_depth is critical when seniority is a weak match. |
| FirstRoundGenerator.SeniorityChangesOnlyExperienceDepth | specs/generators/first_round_generator.py:248-253 | A tier differs from the template's exactly for experience_depth, under weak seniority, when the template did not already make it critical. |
| FirstRoundGenerator.BuildPhases | specs/generators/first_round_generator.py:258-277 | Keeps every phase's id and focus list. |
| FirstRoundGenerator.OnlyGapPhaseChanges | specs/generators/first_round_generator.py:266-275 | Only gap_exploration changes, and only with three or more gaps. Then only its cap (5) and objective change. |
| FirstRoundGenerator.BuildPhasesIdempotent | specs/generators/first_round_generator.py:258-277 | Tailoring twice is the same as tailoring once. |
| FirstRoundGenerator.BuildPhasesKeepsFocusIssues | specs/generators/first_round_generator.py:258-277 | Tailoring never changes what validation says about focus lists. |
| FirstRoundGenerator.GenerateFirstRoundSpec | specs/generators/first_round_generator.py:49-131 | Succeeds exactly when every tier parses. Warnings are empty exactly when the specification is valid. The id, title, packet and template id are as built. The competencies are the tailored selections, the phases are the tailored phases, and the heuristics and constraints are the template's. |
| FirstRoundGenerator.GeneratorWarnsWhereLoaderRaises | specs/generators/first_round_generator.py:125-131 | Without a critical entry, the generator returns a specification with that warning, while the loader raises. |
| CaseLoader.InitializeInterviewState | case_loader.py:25-77 | Fails exactly when title, opening or facts is missing, and names the first one missing. On success the state is fresh, has no specification, and carries the given ids. |
| CaseLoader.CaseContentRoundTrip | case_loader.py:25-94 | Loading a case and reading its content back gives the file's content, with the defaults for optional keys. |
| CaseLoader.FreshCaseOpensOnLegacyPath | case_loader.py:25-77 | A freshly loaded case opens with one interviewer message ending "Over to you.", and the phase moves to STRUCTURING. |

## Left out

- Language-model calls, prompt building and JSON extraction from replies are oracles. Their decoded results (or "not decodable") and token counts are parameters.
- The clock is left out. Elapsed minutes are a parameter, and timestamps, uuids and random hex suffixes are passed in as strings.
- File and network I/O is left out: reading templates and case files, `load_spec_from_json`, `save_spec_to_json`, `get_available_templates`, `get_available_cases`, the HTTP routes and the UIs. A template or case file arrives already decoded.
- JSON `null` values and ill-typed fields are not modelled. A key is either present with a value of the documented type or absent (None).
- Pydantic's construction of heuristics, phases and constraints from template dictionaries is not modelled. Templates carry them already typed.
- The rubric's prose is left out: level descriptions, indicators and per-competency flags. Only ids, names, applicable types and the level keys are kept.
- `validate_spec`'s English messages are modelled as an `Issue` datatype, one constructor per rule.
- `lower` and `upper` change ASCII letters only. `strip` removes the characters Python's `str.isspace` accepts.
- Runner.AfterStages: `evaluator_node` (agents/evaluator.py:56) calls `get_evaluator_system_prompt()` without the `case_data` argument that prompts/evaluator_prompt.py:10 requires. As written, every evaluator stage and so every `respond` call raises a TypeError. The model assumes the prompt is built and the oracle answers.
- `initialize_from_spec` and `InterviewRunner.from_spec`, imported and called at interview_factory.py:33 and interview_factory.py:89, are not defined in graph.py. The model's specification-driven sessions start from any state that holds a specification.
- Aggregator.BoostedMean: means and the bonus boost are exact rationals, not binary floating point. Where the source's 0.1 multiplication lands a value just beside a .5 tie, Python's rounding may differ from this model.
- Interviewer.SpecOpening: requires that the packet's declared variant is present. The source raises there when the variant is missing. The generic fallback for an unknown packet type is unreachable, because the type is an enumeration.
- Interviewer.GenerateClosing: the "thank them" closing-style check assigns the same text in both branches, so the style is not a parameter.
- `generate_first_round_spec_simple` and `generate_specs_for_candidates` are left out. They only call the loader and the generator and loop over candidates.
- `_parse_jd_and_cv` is an oracle, and its result is the `ParsedJdCv` parameter.
- The `InterviewRunner` getters (`is_complete`, `get_state`, `get_final_assessment`) only read fields.
- `get_spec_interview_type`, `get_heuristics` and `get_context_packet` are field reads on the specification.
- The evaluator's `action`, `interviewer_guidance` and `data_to_share` are decoded but never copied into the state by `evaluator_node`. The model keeps them in `Evaluation` only.
