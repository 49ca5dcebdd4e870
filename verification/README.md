# A verified model of the test pipeline

This project models the parts of the test factory that decide something on their
own, and proves what they promise. Six things are modelled:

- **The pipeline as a protocol** (`TestPlan`, `PlanFile`, `ReplanLoop`, `PhaseCheck`,
  `ReplanSteps`, `Pipeline`, `StatusTruth`, `Workspace`).
  Planner, Gen-Functional, Evaluator and Triager schedule each other as asyncio
  tasks and share one status file; a guardrail rejection sends Gen-Functional
  back to the Planner; a watchdog and a cancel callback write the same status.
  A step is what happens between two awaits. Agent sessions are arbitrary.
- **Triage** (`Text`, `NormalForm`, `TriageDedup`, `TriageRank`, `Catalog`, `CatalogIds`, `CatalogRun`,
  `Verdicts`, `Triager`). Validation of verdicts, two-pass deduplication,
  ranking, buckets, catalog decisions and catalog mutation through a file
  index, and the counts that are reported.
- **The mutation probe** (`MutateProbe`). A visitor with threaded state over
  syntax trees.
- **The spec parser and printer** (`SpecText`, `SpecSyntax`, `SpecSources`, `SpecRoundTrip`,
  `SpecLines`, `SpecGlued`). A line-based section automaton and the renderer whose output it
  must read back.
- **Two gates** (`SchemaDrift`, `SchemaNorm`, `RatchetLint`). A recursive comparison of JSON trees
  and the lint ratchet over histories of changes.
- **Two evaluation signals** (`CoverageDelta`, `FlakyHistory`).

Code that updates things step by step is modelled by classes and loops, each
proved against a function of its inputs or of the old state; what the code
promises is then proved about those functions.

## What the proofs turned up

Where the code and its comments differ the model follows the code.

- `_check_existing_phases_preserved` compares phase numbers only. As long as anything
  is pending it bounds nothing: an agent that resets one counter passes it in
  every round, for any number of rounds (`PhaseCheck.CheckedNeverEnds`,
  `PhaseCheck.CheckedEndsIff`).
- The loop is bounded exactly when no pending subtask stands behind an earlier one
  with its id, because the counter that is charged is the first one's. An agent that
  does to the letter what the replan prompt asks for is asked again any number of
  times otherwise (`ReplanLoop.EndsIff`, `ReplanLoop.ShadowedNeverEnds`). Where it is
  bounded, an agent that only leaves the old plan alone gets at most sixty replans
  (`ReplanLoop.ReplanLoopEnds`, `Pipeline.PipelineEnds`).
- The prompt tells the agent to raise the rejected subtask's `replan_count`, and the
  code raises it again. So a subtask is given up at its first rejection, not at its
  second (`ReplanLoop.FailsAtOnceIff`), and an agent that does what the prompt asks
  for gets at most thirty replans (`ReplanLoop.CorrectingEnds`).
- When no entry lists a criterion word for word the catalog lookup compares the
  beginnings of strings, and "AC#10" begins with "AC#1": a test for one criterion can
  be written over the test for another (`CatalogIds.LogsInHitsLogsOut`; exactly when,
  in `CatalogIds.ForeignUpdateIff` and `CatalogIds.NumberedMatch`).
- `mark_stalled` rechecks that the status is active but not for how long it has
  been idle, so a verdict on one stage can flip the next one in the second it
  starts (`Pipeline.StaleVerdictHitsNextStage`). What it flips is past its deadline
  exactly when the time stamp is still the one the watchdog read
  (`Pipeline.FlipIsJustifiedIff`).
- `mutate_source` says it prefers comparisons; the first applicable node in
  visiting order wins, constant or not (`MutateProbe.ConstantComesFirst`).
- With several matches for a criterion `_decide_catalog_intent` tests the lock of the
  first match and then updates the newest one, so an operator lock can be
  lost; the exact condition is `CatalogRun.RunKeepsLocksIff`, and
  `CatalogRun.LockIsLost` is the case of two matches.
- An UPDATE in the catalog does not carry the evidence fields over: they survive
  exactly in entries that are not updated or had none (`CatalogRun.UpdatedEntry`).
- Deduplication runs over accepted and flagged tests together and keeps the first
  of a group. A test is committed exactly when the first candidate with its normal
  form was accepted (`Triager.CommittedFormIff`), so a flagged test keeps a later
  accepted copy of itself from being committed (`Triager.FlaggedTwinWins`, and a
  whole run in `Triager.TwinRun`).
- `parse_markdown` does not reset `continuing` at a heading or outside the section,
  so a line of section text can join a bullet that stands before a heading: a
  four-line document is `SpecGlued.GluedDocument`, and the exact condition is
  `SpecLines.TakenFromBeforeIff`.
- A history window of zero keeps everything, and a negative one drops from the
  front (`FlakyHistory.WindowBoundsIff`).
- The ratchet judges a renamed file's old content under the new path, so moving a
  file out of a leniently linted place raises the count and passes
  (`RatchetLint.RenameCanRaise`). A rename is safe exactly when the rule is no
  stricter on the old content at the new path (`RatchetLint.RenameIff`).
- The ratchet lists changes against the merge base but compares with the base: a file
  the branch left alone is not compared (`RatchetLint.ForkIff`).
- A verdict that is a list or an object makes the validation raise instead of naming
  the element (`Verdicts.ValidateVerdicts`).
- A flipped comparison is the negation only where any two values compare; with NaN
  it is not (`MutateProbe.FlipNegatesIff`).

## Model

| member | source | states |
|---|---|---|
| TestPlan.Subtask.Charge | apps/backend/agents/planner.py:478-508 | one replan more; from the second on the subtask is failed, and the caller learns both |
| TestPlan.FirstWithId | apps/backend/agents/planner.py:471-475 | the result carries the id, nothing before it does, and -1 means nothing does |
| TestPlan.KeptIsPrefix | apps/backend/agents/planner.py:258-276 | cutting phase by phase leaves exactly the first `cap` subtasks in plan order |
| TestPlan.IterSubtasks | apps/backend/agents/agent_infra.py:120-138 | yields every subtask of every phase in plan order |
| TestPlan.TruncateSubtasks | apps/backend/agents/planner.py:258-276 | the plan becomes its first `cap` subtasks, each in its own phase, and the number dropped is the difference |
| TestPlan.CutPhases | apps/backend/agents/planner.py:265-276 | the loop over the phases: each keeps what the earlier ones left of the budget |
| TestPlan.FindSubtask | apps/backend/agents/planner.py:471-475 | the search over the objects finds the first subtask with the id |
| TestPlan.BumpReplanCount | apps/backend/agents/planner.py:478-508 | only the first subtask with the id is charged; an unknown id changes nothing and reports zero |
| ReplanSteps.CollectPending | apps/backend/agents/gen_functional.py:387-395 | the pending subtasks, all of them, in plan order |
| ReplanSteps.TrySubtasks | apps/backend/agents/gen_functional.py:412-526 | the loop over the subtask objects is the pass, which `ReplanLoop.PassMeans` describes |
| ReplanSteps.GenerateSubtasks | apps/backend/agents/gen_functional.py:412-526 | of the pending subtasks in plan order, each that is tried is completed exactly when its own outcome is that it passed and failed exactly when it had no files or its session failed; the first rejection ends the pass, names its subtask and leaves it and all others as they were; the count is that of the subtasks that became completed |
| ReplanSteps.CheckExistingPhasesPreserved | apps/backend/agents/planner.py:516-537 | accepts exactly when no phase number is lost and at most one is new |
| ReplanLoop.PhasesPreservedIff | apps/backend/agents/planner.py:516-537 | the check passes exactly when every phase number is kept and any two new ones are the same |
| ReplanSteps.CapPlan | apps/backend/agents/planner.py:826-834 | a plan over the cap is cut to it and no subtask object changes |
| ReplanSteps.FinishReplan | apps/backend/agents/planner.py:808-834 | charging and cutting together give the plan that is saved, and the caller learns the new counter and whether the subtask was given up |
| ReplanSteps.GenerateFromFile | apps/backend/agents/gen_functional.py:384-526 | the same from plan file to plan file, with every phase; an exception saves nothing |
| ReplanSteps.SaveInitial | apps/backend/agents/planner.py:638-655 | the file saved after an initial run is the emitted one cut to the cap, with every phase |
| ReplanSteps.SaveReplan | apps/backend/agents/planner.py:796-837 | a replan is refused exactly when the phase check fails; otherwise the file saved is the emitted one with the first match charged and every phase cut to its budget |
| PlanFile.LoadPlan | apps/backend/test_plan/plan.py:69-98 | the objects say what the file says, phase by phase, and no object stands in two places |
| PlanFile.SavePlan | apps/backend/test_plan/plan.py:100-111 | the file says what the objects say, phase by phase |
| ReplanLoop.PassLightens | apps/backend/agents/gen_functional.py:412-526 | a pass keeps ids, order and length, never raises the measure, and a rejected subtask is still pending |
| ReplanLoop.PassMeans | apps/backend/agents/gen_functional.py:412-526 | the outcome of a pass said of the subtasks before and after: who is completed, who is failed, who is untouched, how many are counted, and which outcome stopped it |
| ReplanLoop.FinishedLeavesNothing | apps/backend/agents/gen_functional.py:412-528 | a pass that nothing stops leaves nothing pending |
| ReplanLoop.ReplanLightens | apps/backend/agents/planner.py:808-834 | a replan that leaves the old plan alone and adds fresh ids strictly lowers the measure and hides no pending subtask |
| ReplanLoop.RoundDecreases | apps/backend/agents/planner.py:700-852 | one rejection and one obedient replan strictly lower the measure, stay within the cap and hide no pending subtask |
| ReplanLoop.ReplanLoopEnds | apps/backend/agents/gen_functional.py:393-526 | from any plan that hides no pending subtask the loop replans at most `Measure` times, and at most sixty times if counters start at zero |
| ReplanLoop.ChargedIffFirst | apps/backend/agents/planner.py:471-494 | the rejected subtask is the one charged exactly when no earlier subtask shares its id |
| ReplanLoop.FailsAtOnceIff | apps/backend/agents/planner.py:478-508 | after an answer that raises the counter as the prompt asks, the rejected subtask has been charged twice and is failed exactly if its counter was not negative |
| ReplanLoop.CorrectingEnds | apps/backend/agents/planner.py:700-852 | with an agent that raises the counter and appends one corrected subtask there are at most thirty replans |
| ReplanLoop.ShadowedNeverEnds | apps/backend/agents/planner.py:471-508 | any pending subtask with an earlier one of its id can be rejected any number of times although every answer is to the letter what the prompt asks for |
| ReplanLoop.EndsIff | apps/backend/agents/planner.py:471-508 | the loop is bounded exactly when no pending subtask has an earlier one of its id, for agents that leave the old plan alone, and then by the measure, and for agents that keep to the letter of the prompt, and then by thirty from counters at zero |
| PhaseCheck.CheckedNeverEnds | apps/backend/agents/planner.py:511-537 | from any plan with a pending subtask there are runs of any length in which every replan passes the phase check |
| PhaseCheck.CheckedEndsIff | apps/backend/agents/planner.py:511-537 | under the phase check alone the loop is bounded exactly when nothing is pending |
| Pipeline.ActiveTextsAgree | apps/backend/agents/liveness.py:39-42 | the active strings are exactly those of the model's active statuses |
| Pipeline.FailedTextsAgree | apps/backend/agents/agent_infra.py:103-117 | a status text ends in `_failed` exactly when the model says a stage failed |
| Pipeline.TerminalTextsAgree | apps/backend/agents/agent_infra.py:103-117 | the terminal texts are exactly the two triaged ones |
| Pipeline.InvStep | apps/backend/agents/planner.py:583-697 | every step of any stage, watchdog or callback keeps the invariant that ties the status to the newest task |
| Pipeline.RunKeepsInv | apps/backend/agents/evaluator.py:470-687 | the invariant holds in every reachable state of every interleaving |
| Pipeline.StageSequence | apps/backend/agents/planner.py:911-953 | the stages scheduled so far are always a prefix of planner (gen replan)* gen evaluator triager |
| Pipeline.OneBodyAtATime | apps/backend/agents/gen_functional.py:594-614 | at most one stage is in flight and it is the newest |
| Pipeline.ActiveStatusIsOwned | apps/backend/agents/agent_infra.py:91-117 | an active status always belongs to a live task of that stage, or to a cancelled one whose callback is still to come |
| Pipeline.QuiescentIsNotActive | apps/backend/agents/agent_infra.py:91-117 | when every task is over and every callback has run, the status is not active |
| Pipeline.SideWritersOwnWhatTheyChange | apps/backend/agents/liveness.py:149-186 | in every run, the watchdog only replaces an active status the newest task still owns, and the callback of a cancelled task always finds that task the newest and leaves its own failure with nobody in flight |
| Pipeline.SettledIsFinal | apps/backend/agents/agent_infra.py:91-117 | once triaged or failed, no later step of any kind changes the status |
| Pipeline.CancelledStaysFailed | apps/backend/agents/agent_infra.py:103-117 | after the callback of a cancelled task the status is that stage's failure for good |
| Pipeline.AffordableStep | apps/backend/agents/planner.py:700-852 | replans so far plus what the plan can still cost never exceed sixty, step by step |
| Pipeline.PipelineEnds | apps/backend/agents/gen_functional.py:336-614 | a request costs at most sixty replans and 124 stage runs, whatever is rejected, cancelled or flagged |
| Pipeline.VerdictsStaySound | apps/backend/agents/liveness.py:102-146 | every verdict held was true of the status it read, and an active status was written either when it says or after the watchdog looked |
| Pipeline.FlipIsJustifiedIff | apps/backend/agents/liveness.py:149-186 | what a verdict flips is past its deadline exactly when the time stamp is still the one the watchdog read |
| Pipeline.StaleVerdictHitsNextStage | apps/backend/agents/liveness.py:163-172 | a run in which a verdict on the Planner flips Gen-Functional in the second it starts |
| Workspace.Spec.EnterStage | apps/backend/agents/agent_infra.py:68-88 | a stage that writes its first status is the only one in flight, and the active status is its own |
| Workspace.Spec.PlannerResume | apps/backend/agents/planner.py:583-852 | whatever the session left, the workspace stays valid: a failure is for good and leaves the plan; an accepted plan fits the cap with all its phases, an initial one is `planned_empty` exactly when it has no subtask, and an answer that leaves the old plan alone makes it cheaper |
| Workspace.Spec.GenBegin | apps/backend/agents/gen_functional.py:387-405 | the stage ends as `generated_empty` exactly when no subtask is pending, and otherwise changes nothing |
| Workspace.Spec.GenResume | apps/backend/agents/gen_functional.py:384-591 | what came of every subtask and what the status says of it: a rejection asks for a replan of the subtask it is about, which is still pending; an exception fails the stage and saves nothing; otherwise nothing is pending and the stage fails exactly when no subtask has become completed, with nobody in flight |
| Workspace.Spec.EvaluatorResume | apps/backend/agents/evaluator.py:644-677 | valid verdicts leave the Evaluator as the one stage in flight and a status that hands to the Triager; invalid ones a failure with nobody in flight |
| Workspace.Spec.TriagerFinish | apps/backend/agents/triager.py:846-867 | the last write says `triaged_empty` exactly for an empty run and `triaged` otherwise, and nobody is in flight |
| Workspace.Spec.TriagerRun | apps/backend/agents/triager.py:593-867 | a whole run: it fails for good, or its last status is `triaged` exactly when there was a candidate to keep and `triaged_empty` exactly when there was none |
| StatusTruth.EndsSay | apps/backend/agents/gen_functional.py:396-405 | which status each end of a stage writes: `planned_empty` exactly for an empty plan, `generated_empty` exactly with nothing pending, `triaged_empty` exactly for an empty run |
| StatusTruth.GeneratedIff | apps/backend/agents/gen_functional.py:528-541 | Gen-Functional hands over exactly when some subtask has become completed, and otherwise has failed |
| StatusTruth.StatusIsTrue | apps/backend/agents/gen_functional.py:387-591 | in every reachable state the status is true of the plan: `planned_empty` of an empty one, `replan_needed` of one in which the requested subtask is pending, and from `generated` on nothing is pending |
| StatusTruth.SessionsBounded | apps/backend/agents/planner.py:583-640 | in every reachable state the Planner has opened at most two sessions, the Evaluator one and Gen-Functional no more than there are pending subtasks |
| Workspace.Spec.AdvanceTo | apps/backend/agents/agent_infra.py:141-162 | an open gate leaves the successor as the one task in flight, with a status that hands to it; a closed one leaves nobody, any other exception the failure of the stage |
| Workspace.Spec.OnDone | apps/backend/agents/agent_infra.py:103-117 | a settled status survives; a cancelled task is the newest, any active status is its own, and its failure is what is left; otherwise nothing changes |
| Workspace.Spec.EvaluateLive | apps/backend/agents/liveness.py:102-146 | a stall is reported exactly when the status is past its deadline, and only of a stage the newest task still owns |
| Workspace.Spec.Mark | apps/backend/agents/liveness.py:149-186 | only a status the newest task still owns is flipped, every other survives, and tasks, plan and request are left alone |
| Workspace.Spec.CheckAndMark | apps/backend/agents/liveness.py:189-204 | undisturbed, the status becomes stalled exactly if it was active past the deadline |
| NormalForm.NormaliseForDedup | apps/backend/agents/triage_dedup.py:94-127 | the loops over lines and indents compute the normal form |
| NormalForm.LinesEnd | apps/backend/agents/triage_dedup.py:94-127 | CRLF, CR and LF each end a line |
| NormalForm.NormaliseKeepsKeys | apps/backend/agents/triage_dedup.py:94-127 | a normal form is its source's non-blank lines written from their indents and words, and has the same ones |
| NormalForm.NormaliseIdempotent | apps/backend/agents/triage_dedup.py:94-127 | normalising twice is normalising once |
| NormalForm.SameNormalFormIff | apps/backend/agents/triage_dedup.py:94-135 | two sources have one normal form exactly when their non-blank lines agree one by one on exact indent and words |
| TriageDedup.GroupBy | apps/backend/agents/triage_dedup.py:149-171 | the dict of groups holds every candidate under its key, in input order, keys in order of first occurrence |
| TriageDedup.BytePass | apps/backend/agents/triage_dedup.py:148-166 | keeps the first of every byte-identical group and reports the others |
| TriageDedup.NormalPass | apps/backend/agents/triage_dedup.py:168-190 | the walk with its seen-set keeps the first of every normal form and reports the others |
| TriageDedup.DedupCandidates | apps/backend/agents/triage_dedup.py:138-195 | both passes with all their collisions |
| TriageDedup.FinerPassIsInvisible | apps/backend/agents/triage_dedup.py:138-195 | a pass with a finer key before another does not change what the other keeps |
| TriageDedup.TwoPassesAreOne | apps/backend/agents/triage_dedup.py:138-195 | what is kept is the first candidate of every normal form in input order |
| TriageDedup.FirstsAreHeads | apps/backend/agents/triage_dedup.py:149-190 | a candidate is kept by a pass exactly when it heads the group of its key |
| TriageDedup.SurvivorsDistinct | apps/backend/agents/triage_dedup.py:138-195 | survivors differ after normalisation and every candidate has a survivor with its normal form |
| TriageDedup.DedupIdempotent | apps/backend/agents/triage_dedup.py:138-195 | deduplicating the survivors keeps them all and reports nothing |
| TriageDedup.PassConserves | apps/backend/agents/triage_dedup.py:149-190 | a pass splits its input into kept and dropped, as multisets |
| TriageDedup.DedupConserves | apps/backend/agents/triage_dedup.py:138-195 | kept and dropped together are what went in, as multisets |
| TriageDedup.ReachesSurvivor | apps/backend/agents/triage_dedup.py:138-195 | a dropped candidate reaches a survivor with its normal form in at most two hops |
| TriageRank.SortedPermutation | apps/backend/agents/triage_dedup.py:264-272 | ranking sorts by the key and loses nothing |
| TriageRank.SortIsStable | apps/backend/agents/triage_dedup.py:264-272 | candidates with one key stay in input order |
| TriageRank.RankPrefers | apps/backend/agents/triage_dedup.py:201-272 | what comes earlier is at least as good: by verdict, then mutation, then stability, each in the order of its list with unknown tags last, then more coverage, then the test id |
| Text.StringOrder | apps/backend/agents/triage_dedup.py:243-261 | the order of strings: a string comes before the ones it begins, and otherwise the first characters that differ decide |
| TriageRank.RankIsUnique | apps/backend/agents/triage_dedup.py:243-272 | without shared keys the ranking is the only sorted arrangement, from any input order |
| TriageRank.OrderFreeIff | apps/backend/agents/triage_dedup.py:243-272 | the ranking forgets the input order exactly when no two different candidates share a key; distinct test ids suffice |
| TriageRank.BucketsAreTheRanking | apps/backend/agents/triager.py:672-676 | committed followed by flagged is the ranking exactly when every survivor is one or the other |
| Catalog.LookupFinds | apps/backend/tests_catalog/lookup.py:36-77 | a lookup finds the entries that list the criterion word for word, or if there are none those that list its id |
| Catalog.FirstMatch | apps/backend/tests_catalog/lookup.py:54-77 | what is found comes in catalog order, the first entry found first |
| Catalog.CriterionIs | apps/backend/agents/triager.py:128-145 | the criterion of a candidate is what its rationale says, without white space around it, or else the first reason that begins with AC, or none |
| Catalog.DecideMeans | apps/backend/agents/triager.py:148-205 | a candidate is skipped exactly when something is found for its criterion and the first entry found is locked; a test is created exactly when there is no catalog, no criterion, or nothing found |
| Catalog.NewestIsNewest | apps/backend/agents/triager.py:188-200 | the chosen match is one of the matches and none is newer |
| Catalog.UpdateHitsNewestMatch | apps/backend/agents/triager.py:148-200 | an update targets the newest of the entries the lookup finds, word for word or by the beginning of the id |
| CatalogIds.ForeignUpdateIff | apps/backend/tests_catalog/lookup.py:60-77 | an update hits an entry that lists nothing with the id of the criterion exactly when nobody lists it word for word, the first match by id is free and the newest one lists longer ids only |
| CatalogIds.NumberedMatch | apps/backend/tests_catalog/lookup.py:66-73 | an entry of numbered criteria is found by an id exactly when the digits begin those of one it lists, and is foreign exactly when it does not list that number |
| CatalogIds.ForeignIsUpdated | apps/backend/agents/triager.py:148-200 | a free entry alone in the catalog, for a criterion whose number begins with the digits of another, is updated by a test for the other |
| CatalogIds.LogsInHitsLogsOut | apps/backend/agents/triager.py:148-200 | the case of "AC#1: logs in" and "AC#10: logs out" |
| Catalog.IndexFiles | apps/backend/agents/triager.py:303-304 | the index knows the last position of every file |
| Catalog.ApplyDecision | apps/backend/agents/triager.py:306-359 | one decision through the index does what a scan of the whole list would, and the index stays right |
| Catalog.MutateCatalog | apps/backend/agents/triager.py:265-365 | the whole loop equals the linear-scan fold, errors included |
| Catalog.MutationClosedForm | apps/backend/agents/triager.py:265-365 | updates and creations do not interfere: old entries in place, each with its fate, then the new ones; only a created entry with an unknown lane stops it |
| CatalogRun.DecideAll | apps/backend/agents/triager.py:620-637 | the loop builds the decisions of a run, in which the last candidate with an id decides |
| CatalogRun.DecisionIsDeciders | apps/backend/agents/triager.py:620-637 | an id has a decision exactly when an accepted or flagged candidate has it, and it is that of the last one |
| CatalogRun.DecidedTargets | apps/backend/agents/triager.py:148-200 | every update names a file the catalog has |
| CatalogRun.OldEntriesKept | apps/backend/agents/triager.py:317-336 | an old entry keeps place and identity, and its version rises by exactly the number of updates of its file |
| CatalogRun.UpdatedEntry | apps/backend/agents/triager.py:317-336 | an updated entry carries the run's time and the last verdict; evidence survives exactly where no candidate updates the entry or there was none |
| CatalogRun.AppendedEntries | apps/backend/agents/triager.py:338-359 | what is appended is exactly one entry for the first candidate to create each file the catalog lacks, with its id, file, framework, lane, language, criteria and label, the run's task and time, version 1, unlocked and without evidence |
| CatalogRun.CreatedIsFound | apps/backend/tests_catalog/lookup.py:36-77 | after a run, a lookup for any criterion of a candidate that created a new file finds the entry of that file, which says what the candidate says |
| CatalogRun.NextRunFinds | apps/backend/agents/triager.py:148-365 | so the next run creates no second test for such a criterion: it updates one that lists it word for word, or skips |
| CatalogRun.CreatedFilesAreThere | apps/backend/agents/triager.py:338-359 | every file a candidate is to create ends up in the catalog |
| CatalogRun.FilesStayDistinct | apps/backend/agents/triager.py:265-365 | a file is registered at most once, before and after |
| CatalogRun.LockedKeptIff | apps/backend/agents/triager.py:311-336 | locked entries stay as they are exactly when no decision targets one |
| CatalogRun.RunKeepsLocksIff | apps/backend/agents/triager.py:148-200 | in a whole run that is exactly when no deciding candidate has a free first match and a locked newest one |
| CatalogRun.OneMatchKeepsLocks | apps/backend/agents/triager.py:176-200 | at most one match per criterion keeps every lock |
| CatalogRun.LockIsLost | apps/backend/agents/triager.py:181-200 | whenever the older of two matches is free and the newer one locked, the locked entry is updated |
| Verdicts.ValidateVerdicts | apps/backend/agents/evaluator.py:354-446 | accepts a file exactly when nothing is wrong with any element, else stops at the first one with its first fault, by an exception if its verdict cannot be looked up; a salvaged file is rewritten, odd coverage only warned about |
| Verdicts.CollectCandidates | apps/backend/agents/triager.py:593-618 | exactly the elements with an id and a file become candidates; an element that is no object raises |
| Verdicts.CandidatesMean | apps/backend/agents/triager.py:593-618 | every candidate has the id, the file, the source, the label and the coverage of some element, and every element with an id and a file becomes one |
| Verdicts.ValidatedLabels | apps/backend/agents/evaluator.py:398-445 | whatever validates has a label the Triager knows, and only want of an id or a file drops it |
| Verdicts.FineIff | apps/backend/agents/evaluator.py:398-445 | nothing is wrong with an element that has an id and a file exactly when its label is one the Triager knows and its coverage is no text |
| Triager.DeliveryErrorSpeaks | apps/backend/agents/triager.py:417-439 | there is an error exactly when the write was not tried or failed, and it is never the empty string |
| Triager.RunTriager | apps/backend/agents/triager.py:593-867 | the run from parsed verdicts to the last status write is its specification |
| Triager.SkippedIff | apps/backend/agents/triager.py:620-658 | of the accepted and flagged candidates exactly those are skipped whose deciding candidate has a criterion for which the first entry found is locked; exactly the others are kept |
| Triager.NothingLockedNothingSkipped | apps/backend/agents/triager.py:620-658 | a run skips nothing when the catalog has no locked entry |
| Triager.RunCreatesIff | apps/backend/agents/triager.py:620-637 | a run creates a test exactly when there is nothing to update, at the path derived from the id and the deciding candidate's framework, or at its own if none is derived |
| Triager.BucketsMean | apps/backend/agents/triager.py:640-676 | rejected are exactly the candidates with that label, committed and flagged exactly the survivors with theirs |
| Triager.AccountedIsLabelled | apps/backend/agents/triager.py:640-676 | rejected, skipped, committed, flagged and dropped together are exactly the candidates with a known label, as multisets |
| Triager.SelectsAll | apps/backend/agents/triager.py:643-658 | selecting by a condition loses nothing, as multisets, exactly when every candidate meets it; so the run accounts for all exactly when every label is known |
| Triager.ValidatedRunConserves | apps/backend/agents/triager.py:640-676 | so it is for every validated file |
| Triager.WantedIsDelivered | apps/backend/agents/triager.py:640-676 | a wanted candidate that is not locked out reaches a survivor with its normal form |
| Triager.DeliveredIff | apps/backend/agents/triager.py:669-676 | what is committed or flagged is exactly what survives deduplication |
| Triager.SurvivorsAreWanted | apps/backend/agents/triager.py:640-658 | nothing rejected or locked out survives |
| Triager.CommittedFormIff | apps/backend/agents/triager.py:669-676 | a run commits a test of a normal form exactly when the first candidate to keep that has it was accepted |
| Triager.FlaggedTwinWins | apps/backend/agents/triager.py:669-676 | when the first candidate of a form is flagged, no later accepted copy is committed |
| Triager.TwinRun | apps/backend/agents/triager.py:640-867 | a run over a flagged and an accepted copy finishes with nothing committed |
| Triager.TriagedIff | apps/backend/agents/triager.py:846-867 | a run says triaged exactly when there was a candidate to keep, whatever was a duplicate |
| Triager.CountsAgree | apps/backend/agents/triage_report.py:102-122 | the status counts the report's committed, rejected and flagged candidates and its collisions; committed is accepted unless there was no branch, nothing readable or a failed write, when it is zero |
| Triager.ReadableMeans | apps/backend/agents/triager.py:684-708 | git is offered the file and source of every candidate whose source could be read |
| Triager.FailsIff | apps/backend/agents/triager.py:593-816 | a run fails exactly when an element is no object, or when the first candidate to create some file names a lane that does not exist |
| Triager.ValidatedFailsIff | apps/backend/agents/triager.py:782-793 | a run over validated verdicts fails exactly when a created entry has a lane that does not exist |
| Triager.RunCatalog | apps/backend/agents/triager.py:782-816 | the catalog a run saves follows from its decisions, and exactly when operator locks survive it |
| MutateProbe.AssertMutator.VisitNodes | apps/backend/agents/mutate_probe.py:111-150 | the visitor with its two fields computes the visit and restores the inside-flag |
| MutateProbe.AssertMutator.VisitCompare | apps/backend/agents/mutate_probe.py:152-170 | flips the first operator of the first comparison it may, otherwise goes on below |
| MutateProbe.AssertMutator.VisitConstant | apps/backend/agents/mutate_probe.py:172-194 | negates a boolean or adds one to an integer if nothing was changed yet and a test function is around |
| MutateProbe.MutateSource | apps/backend/agents/mutate_probe.py:197-226 | no tree or no mutation gives nothing, otherwise the mutated tree and the record |
| MutateProbe.ShapeAndSites | apps/backend/agents/mutate_probe.py:111-194 | the shape of a tree and its nodes in visiting order determine it |
| MutateProbe.ProbeChangesOne | apps/backend/agents/mutate_probe.py:111-226 | exactly the first applicable node below a test function changes, the shape and every other node stay |
| MutateProbe.NothingReportedIff | apps/backend/agents/mutate_probe.py:197-226 | nothing is reported exactly when no node is applicable and exactly when the tree is unchanged |
| MutateProbe.TwiceAtOneSite | apps/backend/agents/mutate_probe.py:122-194 | a second probe changes the same node again |
| MutateProbe.ProbeTwice | apps/backend/agents/mutate_probe.py:122-194 | two probes restore the tree exactly when nothing was applicable or the node is a comparison or a boolean |
| MutateProbe.FlipNegatesIff | apps/backend/agents/mutate_probe.py:122-129 | every flip negates exactly when any two values can be compared |
| MutateProbe.FlippedChain | apps/backend/agents/mutate_probe.py:152-170 | a flipped chain is the negation exactly when the remaining links hold |
| MutateProbe.ConstantComesFirst | apps/backend/agents/mutate_probe.py:200-220 | a constant before an assertion is changed in its place |
| SpecText.LinesReadBack | apps/backend/spec_sources.py:67-82 | joined lines split back into themselves |
| SpecText.IdsDistinct | apps/backend/spec_sources.py:115-120 | criterion ids differ for different positions |
| SpecText.InlineIsRead | apps/backend/spec_sources.py:133-133 | a line that begins with a criterion id and a colon is read as an inline criterion, whatever its number |
| SpecSyntax.InlineIs | apps/backend/spec_sources.py:133-133 | a line has the leftmost inline criterion that stands in it, and none exactly when none does |
| SpecSyntax.AfterAcIff | apps/backend/spec_sources.py:133-133 | what follows the two letters is an inline criterion exactly when it is white space, perhaps a hash, a number, a colon, dot or dash, and a text |
| SpecSyntax.BreaksEndLines | apps/backend/spec_sources.py:162-180 | every kind of line break ends a line, CRLF only once |
| SpecSyntax.NamesIff | apps/backend/spec_sources.py:137-156 | a heading names the criteria exactly when "acceptance" or "requirements" stands somewhere in it, in whatever case |
| SpecSyntax.BulletIff | apps/backend/spec_sources.py:125-132 | a line is a bullet with this text exactly when it is white space, a dash, an asterisk, a plus or a number with a dot or a bracket, then white space and the text |
| SpecSyntax.HeadingIff | apps/backend/spec_sources.py:125-132 | a line is a heading of this depth and text exactly when it is white space, one to six hashes, then white space and the text |
| SpecSources.ScanLines | apps/backend/spec_sources.py:190-237 | the loop with its five variables computes the scan |
| SpecSources.ParseMarkdown | apps/backend/spec_sources.py:162-259 | the parse, with the inline fallback and the error |
| SpecSources.RenderMarkdown | apps/backend/spec_sources.py:67-82 | the printed text |
| SpecRoundTrip.RoundTrip | apps/backend/spec_sources.py:67-259 | title, description and criteria come back, in order and complete, each criterion as its printed label and text |
| SpecRoundTrip.RoundTripIff | apps/backend/spec_sources.py:137-259 | a printed spec always parses, and its description comes back exactly when no line of it is a deeper heading that names the criteria |
| SpecRoundTrip.BulletIsRead | apps/backend/spec_sources.py:78-132 | a printed bullet is read as a bullet with its label and text |
| SpecLines.SectionIff | apps/backend/spec_sources.py:137-156 | the section is open exactly when a heading opened it and only deeper headings came since |
| SpecLines.ProseIff | apps/backend/spec_sources.py:191-237 | the description is exactly the lines outside the section, sub-headings included and the title excluded, in order |
| SpecLines.CriteriaIff | apps/backend/spec_sources.py:219-236 | one criterion for each section bullet in order; a text line joins the latest bullet exactly when no blank section line came since |
| SpecLines.EveryBulletIsListed | apps/backend/spec_sources.py:219-223 | no bullet of the section is missed |
| SpecLines.TakenFromBeforeIff | apps/backend/spec_sources.py:191-236 | a line under a heading joins a bullet from before it exactly when one was taking up lines there and no bullet and no blank section line came since |
| SpecLines.ParseAccounts | apps/backend/spec_sources.py:239-259 | any document parses exactly when it has a bullet in the section or an inline marker; its description is its prose, and its criteria are the bullets with the lines they take up, else the markers, word for word and numbered from one |
| SpecGlued.GluedDocument | apps/backend/spec_sources.py:191-237 | a bullet, a deeper heading and a line of text are read as one criterion |
| SchemaDrift.CheckDrift | scripts/check_schema_drift.py:68-90 | the recursive loops report the drift of the two trees, which is what `SchemaNorm.ReportedMeans` and `SchemaNorm.FaultsExplained` say it is |
| SchemaDrift.NoDriftIff | scripts/check_schema_drift.py:68-90 | nothing is reported exactly when the vendored tree extends the canonical one; what its equality decides is `SchemaNorm.EqualIffNorm` |
| SchemaDrift.ExtendsReflexive | scripts/check_schema_drift.py:68-90 | every tree extends itself |
| SchemaDrift.ExtendsTransitive | scripts/check_schema_drift.py:68-90 | extension is transitive over all trees |
| SchemaDrift.PyEqTransitive | scripts/check_schema_drift.py:85-89 | equality with numeric coercion and unordered objects is transitive |
| SchemaDrift.ReportedIff | scripts/check_schema_drift.py:68-90 | a path is reported exactly when it is really violated, over canonical trees and any vendored ones |
| SchemaNorm.EqualIffNorm | scripts/check_schema_drift.py:85-89 | what equality decides: strings as texts, numbers and booleans by value, null only with null, lists element by element, objects exactly by their keys and the values of those, and never two kinds |
| SchemaNorm.MissingMeans | scripts/check_schema_drift.py:81-87 | the values a list lacks are those of the canonical one whose normal form it does not have, in their order |
| SchemaNorm.ReportedMeans | scripts/check_schema_drift.py:68-90 | a path is reported exactly when the trees drift apart there: another kind of value, a list without one of the values, a scalar whose normal form has changed, or a missing key |
| SchemaNorm.NoDriftMeans | scripts/check_schema_drift.py:68-90 | nothing is reported exactly when they drift apart nowhere |
| SchemaNorm.FaultsExplained | scripts/check_schema_drift.py:68-90 | every problem says what is wrong at its path: the key that is missing, the object or list that is none, exactly the missing values, or a different scalar |
| RatchetLint.Regressions | scripts/ratchet_lint.py:311-323 | the loop over the counts lists exactly the rules whose count has risen, each with both counts, and nothing exactly when head is included in base as multisets |
| RatchetLint.ListedIff | scripts/ratchet_lint.py:311-323 | a rule is listed exactly when it is violated more often in the head than in the base, with both counts |
| RatchetLint.NoRegressionIff | scripts/ratchet_lint.py:311-323 | the same about the list itself |
| RatchetLint.WorkTree.Gate | scripts/ratchet_lint.py:472-569 | green exactly when every touched file passes ruff and, unless it is left out, mypy; aborted exactly when mypy could not be run; the tree is as before |
| RatchetLint.ForkIff | scripts/ratchet_lint.py:176-202 | passing bounds a file by the base exactly when it was no worse where the branch left it |
| RatchetLint.RatchetOnlyTightens | scripts/ratchet_lint.py:293-323 | over any history without renames no rule is violated more often in a gated file than at any earlier point, deletion and return included |
| RatchetLint.RenameIff | scripts/ratchet_lint.py:293-302 | no passing rename raises a count exactly when the rule is no stricter on the old content at the new path |
| RatchetLint.RenamedRunBounded | scripts/ratchet_lint.py:293-302 | with such renames a file is bounded by some file of the start |
| RatchetLint.RenameCanRaise | scripts/ratchet_lint.py:293-302 | a rename the ratchet passes although a rule is violated only afterwards |
| RatchetLint.WorkTree.CheckMypy | scripts/ratchet_lint.py:448-469 | the tree is as before whatever happens, and both counts are taken in the same surroundings |
| CoverageDelta.ReadClasses | apps/backend/agents/coverage_delta.py:123-157 | the loop over the class elements builds the snapshot with its line total, and no more lines are covered than counted |
| CoverageDelta.SnapshotIff | apps/backend/agents/coverage_delta.py:129-151 | a line is covered exactly when some class element of the file says it ran |
| CoverageDelta.TotalIsPairs | apps/backend/agents/coverage_delta.py:67-69 | the total counts every covered pair of file and line once |
| CoverageDelta.TotalIsCounted | apps/backend/agents/coverage_delta.py:123-157 | the line total counts every well-formed line element of a class that names a file once |
| CoverageDelta.ComputeDelta | apps/backend/agents/coverage_delta.py:160-196 | new lines are exactly the later pairs less the earlier ones, with the new files, the rate and both totals |
| CoverageDelta.TotalsBalance | apps/backend/agents/coverage_delta.py:160-196 | the totals move by what is new less what is lost |
| CoverageDelta.DeltaTriangle | apps/backend/agents/coverage_delta.py:160-196 | what is new over two steps was new in one of them, with the exact condition for equality |
| CoverageDelta.NewFilesIff | apps/backend/agents/coverage_delta.py:178-187 | a file counts as new exactly when the later snapshot has a line of it and the earlier none |
| FlakyHistory.Store.RecordOutcome | apps/backend/agents/flaky_history.py:124-143 | one entry becomes its window with the new outcome, the others stay |
| FlakyHistory.WindowBoundsIff | apps/backend/agents/flaky_history.py:128-140 | the window bounds the history exactly when it is at least one |
| FlakyHistory.StoreKeepsLast | apps/backend/agents/flaky_history.py:116-143 | after any stream every test has the last `window` of all its outcomes and others are untouched |
| FlakyHistory.CountFlips | apps/backend/agents/flaky_history.py:71-79 | the loop counts the places where an outcome is followed by the other one |
| FlakyHistory.FlipsCounted | apps/backend/agents/flaky_history.py:71-79 | the flips are exactly those places, each counted once |
| FlakyHistory.FlipsBound | apps/backend/agents/flaky_history.py:71-79 | there is at most one flip per step |
| FlakyHistory.FlakyIff | apps/backend/agents/flaky_history.py:81-85 | flaky means two runs or more and at least one flip in four steps; the rate is between zero and one |
| FlakyHistory.EqualRunIsStable | apps/backend/agents/flaky_history.py:81-143 | as many equal outcomes as the window is long make a test stable whatever came before |
| FlakyHistory.ThirtyForgive | apps/backend/agents/flaky_history.py:38-45 | thirty equal outcomes forgive any past |

## Left out

- Which completed subtasks the Evaluator takes up, lane by lane: `evaluated_empty` is an end it may come to.
- Agent sessions, prompts, provider and client resolution: their results are arbitrary inputs.
- Docker, Playwright, git, gh, ruff and mypy: their results are parameters; ruff is a function of content and path, mypy of the tree and a path.
- `preflight_static`, `flake_risk_lint` and the promotion rules: one accept or reject outcome per subtask.
- The time between reading and writing the status file: one status write is one step.
- The other fields of `status.json`, stage events, webhooks, sentinels and PR comments: they decide nothing that is modelled.
- The Planner's start when it was not scheduled by a fresh request: a run starts with one scheduled Planner.
- The JSON text of plans, catalogs and stores, and file-system errors other than a missing or unreadable store.
- The plan object itself: a plan is the list of its phases, and a phase's fields other than number and subtasks and a subtask's other than id, status and counter are not modelled.
- The plan file a failing Planner leaves behind: the model keeps the one before it, which no later step reads.
- The ratchet's `--staged` mode, which reads the index: ruff and mypy see one working tree.
- SHA-256: taken to be injective, so a digest is the text it digests.
- Syntax nodes as objects: the visitor returns new trees instead of updating nodes in place, and line numbers and unparsed text are not modelled; a constant has no children.
- Coverage deltas and line rates are reals: NaN and rounding are not modelled.
- Verdict elements whose `test_id`, `test_file` or `signals_summary` has the wrong JSON type although it is present.
- Letters and digits beyond ASCII: `\d`, `\b` and `str.lower` are modelled on ASCII letters and digits and the Kelvin sign; white space and line breaks are modelled in full.
- `_derive_create_path`: a function of the test id and the framework.
- Gherkin and EARS sources, format detection and the control-catalog comparison: separate readers with no state in common with the markdown one.
- NaN in JSON: equality on parsed JSON is modelled without it.
- The `/`-joined form of a drift path: a path is a sequence of keys.
- Which paths the ratchet gates: an arbitrary predicate, and git's rename detection is a map from new to old path.
- The XML of a coverage report: the class and line elements are the input.
- Rendering of reports and the template harvest; of the git writer's own record only whether it delivered.
- The environment variable that overrides the stall deadline: the deadline is the default one.
