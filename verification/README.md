# Memory service: a verified model

This project models the state-changing core of the memory service in `apps/api/src/core.ts` and two
self-contained algorithms in `scripts/`, and proves what they are for. `dafny verify dfyconfig.toml`
checks the whole project.

## What is modelled

**The memory-candidate lifecycle.** A store profile holds candidates (shadow, promoted, demoted), a
rulebook, replay evaluations, feedback, a weight-adjustment ledger and an audit trail. `Lifecycle`
gives every operation as a function on values: `shadow_write`, `replay_eval`, `promote`, `demote`,
`addweight`, quarantine, manual override, feedback, outcome, curation, maintenance tick and audit
event. A run is any sequence of them, with refused calls included. `ProfileState` is the class whose
methods edit the arrays in place, in the order the program does (overwrite, re-sort, splice, push); each
method is proved to take the abstract memory exactly where the function does, so everything proved
about runs holds of the arrays. On top of that:

- `RuleLinks`: candidates and rules stay linked over every run with derived ids;
- `PromotionGate`: every promoted rule stands on a stored evaluation that passed;
- `Adjustments`: no adjustment changes a confidence twice while the ledger remembers it;
- `NegativeStreak`: which evaluations keep the cached streak the recomputed one;
- `TemporalDecay`: what many ticks do to a confidence; `QuarantineEffect`: what a quarantine leaves;
- `BoundedLog`: insert, sort and cut is the same as sorting everything and keeping the greatest;
- `Replays`: what calling an operation again does, and what one operation undoes of another;
- `Effects`: when each operation goes through and what it leaves, field by field.

**The review scheduler** (`ReviewSchedule`, and the last methods of `ProfileState`): the bounded active
set with its warm, cold and frozen tiers, and the fatigue and novelty clock.

**Merges, ranking and printing**: learner profiles as last-writer-wins registers with lineage and a bound
on identity references (`LearnerProfile`), misconception counters (`Misconceptions`), attribution scores
and the re-ranking of the rulebook's head (`Attribution`), and the CSV audit export with a reader after
RFC 4180 (`PolicyCsv`).

**Two scripts**: the bounded weight normaliser (`RankingWeights`) and the comment-stripping scanner
(`CommentScanner`).

`Numbers`, `Timeline` and `StableSort` hold what these share: rounding, lists sorted by timestamp and id,
and a stable sort over any comparator.

## Conventions

- Ids are whole numbers in `localeCompare` order, and timestamps whole milliseconds: a run mentions
  finitely many of each. Derived ids (`makeId` of a `hash`) come from an `IdScheme` or `Hashing` of
  functions; theorems that need it say that they are injective.
- Metrics, gates and net values are whole millionths. Confidences and weights are real numbers, rounded
  to six decimals where the program rounds; binary floating point is not modelled.
- Exceptions are results: `Rejected(error)`, `None` or `Refused`. An operation that throws midway keeps
  what it had already written, as in the program: a refused candidate in a `shadow_write` batch leaves the
  earlier ones in place, and a refused audit event the adjusted confidence.

## Where the code does less than its names promise

Each of these is stated exactly, with the condition under which the promise does hold.

- A `shadow_write` with a caller-supplied rule id can leave a promoted candidate without a rule
  (`RuleLinks.WriteOneKeepsLinksIff`, `RuleLinks.SuppliedRuleIdExample`).
- A manual override can promote past the gate (`PromotionGate.OverrideKeepsGateIff`,
  `PromotionGate.OverrideExample`), and an evaluation under a caller-supplied id can take the place of
  the one a rule stands on (`PromotionGate.ReplayEvalKeepsGateIff`, `PromotionGate.SuppliedEvalIdExample`).
- An adjustment whose reason codes fit on their own but not with the two that are added changes the
  confidence every time it is sent: the audit event is refused after candidate and rule are written, and
  neither log learns the id (`Adjustments.UnrecordedWritesEveryTime`, `Adjustments.ManyReasonCodesExample`).
- A full ledger forgets the earliest timestamps, so a back-dated adjustment can be applied again at once
  (`Adjustments.RepeatAppliesAgainIff`, `Adjustments.FullLogsExample`).
- The cached streak can be left wrong by an evaluation dated before later ones, and by one stored under an
  id that another candidate's evaluation had (`NegativeStreak.RecordKeepsStreaksIff`,
  `NegativeStreak.BackdatedPassResetsStreak`, `NegativeStreak.TakenIdExample`).
- A utility signal is recognised only while it is the last one heard, so a corrected feedback counts twice
  once another came between (`Replays.HeardAgainIff`, `Replays.CorrectedFeedbackCountsTwice`).
- A second rebalance throws once a stored list is longer than 128, as after 129 completed entries
  (`ReviewSchedule.RebalanceTwice`, `ReviewSchedule.RebalanceTwiceExample`).
- The clock bounds need a positive threshold (`ReviewSchedule.NoveltyBelowThresholdIff`).
- Identity references are counted before repeated ones are merged: an update with seventeen is accepted
  once and refused when sent again, and a profile that holds 32 accepts no update any more
  (`LearnerProfile.SentTwiceIff`, `LearnerProfile.FullProfileIsFrozen`); which updates are accepted depends
  on their order (`LearnerProfile.NothingRefusedIff`, `LearnerProfile.OrderDecidesAcceptance`,
  `LearnerProfile.NothingRefusedInAnyRunIff`).
- A learner profile created by an update that leaves an attribute out holds the default under that
  update's timestamp, so the order of updates matters (`LearnerProfile.CreatorLeavesOutIff`).
- A learner-profile update that leaves `status` or `profileConfidence` out resets it, while the recorded
  truth still names the old value (`LearnerProfile.TruthStaysIff`, `LearnerProfile.LeftOutStatusIsOverwritten`).
- The weight normaliser leaves its bounds in exactly one situation (`RankingWeights.PublishedWithinBoundsIff`).
- The graded attribution nudge takes three values only: mixed outcomes are never eligible, one-sided ones
  get the full amount (`Attribution.NudgeIs`).

## Model

| member | source | states |
|---|---|---|
| RuleLinks.RunKeepsLinks | apps/api/src/core.ts:5736-5804 | Over any run with derived ids: candidate and rule ids are unique, every promoted candidate has a rule under its rule id, every rule promoted from a candidate belongs to one that is promoted now |
| RuleLinks.WriteOneKeepsLinksIff | apps/api/src/core.ts:5751-5774 | A shadow write keeps those links if and only if its rule id is no other candidate's and a promoted candidate keeps its rule id, or moves to one that has a rule while none was promoted from it |
| RuleLinks.SuppliedRuleIdExample | apps/api/src/core.ts:5751-5774 | Writing, evaluating with success, promoting and writing again under another rule id breaks the links, for any request that has not expired and any evaluation that passes |
| RuleLinks.SuppliedRuleIdBreaksLinks | apps/api/src/core.ts:5751-5774 | In any linked state, writing a promoted candidate under a rule id that has no rule breaks them |
| RuleLinks.StepSameIdentities | apps/api/src/core.ts:12879-12891 | Of all operations only shadow_write touches what candidate and rule ids are derived from |
| RuleLinks.OverrideKeepsLinks | apps/api/src/core.ts:7365-7513 | A manual override keeps the links whatever it targets |
| RuleLinks.CurateKeepsLinks | apps/api/src/core.ts:5636-5692 | Curation keeps the links although it rewrites the rulebook |
| PromotionGate.PromotedRulesPassedGate | apps/api/src/core.ts:6116-6302 | Over any run without override and with derived candidate, rule and evaluation ids, a rule promoted from a candidate names a stored evaluation of that candidate with pass, no safety regression and a net value at or above its gate |
| PromotionGate.RunIsGated | apps/api/src/core.ts:5913-5996 | Each stored evaluation's verdict is the one its own metrics give, and each candidate's latest evaluation is its own, over any such run |
| PromotionGate.OverrideKeepsGateIff | apps/api/src/core.ts:7391-7475 | A manual override keeps this if and only if each existing target could have been promoted on its latest evaluation |
| PromotionGate.ReplayEvalKeepsGateIff | apps/api/src/core.ts:5913-6040 | An evaluation under a derived or supplied id keeps this if and only if no other candidate's latest evaluation and no other candidate's rule is under that id, and a rule of its own candidate that stands on it sees it pass or is demoted by it |
| PromotionGate.GuardedRunIsGated | apps/api/src/core.ts:12879-12891 | So the gate holds over any run with derived candidate and rule ids in which each evaluation and override meets its condition at the time of the call |
| PromotionGate.OverrideExample | apps/api/src/core.ts:7391-7475 | Writing a candidate and overriding it leaves a promoted rule that names no evaluation |
| PromotionGate.SuppliedEvalIdExample | apps/api/src/core.ts:5943-5990 | Write, evaluate with success under a supplied id, promote, evaluate again under that id without success and without a negative score: the rule stays and no stored evaluation passes |
| BoundedLog.LogIsGreatestOfHistory | apps/api/src/core.ts:4145-4203 | Insert, sort and cut after every event leaves the last n of the sorted distinct history |
| BoundedLog.LogHoldsGreatest | apps/api/src/core.ts:3501-3510 | The log holds only past records, nothing left out comes after anything kept, and it is full once anything is left out |
| BoundedLog.CutThenInsert | apps/api/src/core.ts:4193-4201 | Cutting before an insertion loses nothing that would survive the cut after it |
| Adjustments.AuditTrailIsGreatestOfHistory | apps/api/src/core.ts:4145-4203 | In every reachable state the audit trail is the 2048 greatest of all distinct events appended |
| Adjustments.RecordedIsFinal | apps/api/src/core.ts:2990-3054 | While at most 4096 adjustments are on record, a replay changes nothing and another payload under the same id is refused |
| Adjustments.AppliedAtMostOnce | apps/api/src/core.ts:6463-6678 | So over any interleaving of operations the calls under one adjustment id change a confidence at most once, and not at all unless the id goes on record, when their reason codes fit together with the two that are added |
| Adjustments.RepeatAppliesAgainIff | apps/api/src/core.ts:2968-3054 | Repeating a call right after it wrote the confidence writes it again exactly when the merged reason codes do not fit, or both full logs cut its records at once |
| Adjustments.UnrecordedWritesEveryTime | apps/api/src/core.ts:6590-6660 | A call whose merged reason codes do not fit is refused after it wrote, leaves both logs as they were, and does so however often it is sent |
| Adjustments.ManyReasonCodesExample | apps/api/src/core.ts:4145-4161 | With 127 reason codes an adjustment by a tenth, sent twice, moves a confidence of a half to seven tenths with both logs empty |
| Adjustments.FullLogsExample | apps/api/src/core.ts:2968-3054 | After 4096 adjustments one dated before them all, by a tenth and sent twice, is applied twice |
| Adjustments.WritesIff | apps/api/src/core.ts:6463-6678 | One call writes the confidence if and only if its own reason codes fit, its candidate exists and neither ledger nor trail knows its id; it is recorded if and only if they fit together with the two that are added |
| NegativeStreak.CreatedStreakIff | apps/api/src/core.ts:2854-2874 | After a created evaluation the cached count equals the recomputed one if and only if the evaluation is in step with the candidate's later ones; one that sorts last always is |
| NegativeStreak.BackdatedPassResetsStreak | apps/api/src/core.ts:5992-6016 | A passing evaluation dated before a later negative one resets the cached count wrongly |
| NegativeStreak.RunStreaksExact | apps/api/src/core.ts:5992-6038 | In every state reached by safe evaluations, under derived and supplied ids alike, each cached streak is the trailing count recomputed from the sorted evaluations |
| NegativeStreak.StepKeepsStreaksIff | apps/api/src/core.ts:5960-6038 | From such a state any operation keeps all streaks right if and only if it stores no unsafe evaluation |
| NegativeStreak.RecordKeepsStreaksIff | apps/api/src/core.ts:5960-6010 | An evaluation is safe if and only if, when created, it is in step with the candidate's later ones, and when it takes the place of another candidate's, that candidate has a later one that is not negative, or the replaced one was not negative and none just before it is |
| NegativeStreak.ChronologicalIsSafe | apps/api/src/core.ts:5992-6010 | It is enough that updates keep their candidate and created evaluations sort after the candidate's earlier ones |
| NegativeStreak.DerivedKeepsOwner | apps/api/src/core.ts:5943-5957 | An update under a derived id keeps its candidate |
| NegativeStreak.TakenIdExample | apps/api/src/core.ts:5976-6010 | Two candidates evaluated under one id: the first keeps a streak of one with no evaluation left |
| NegativeStreak.SustainedNegativeDemotes | apps/api/src/core.ts:6018-6038 | An evaluation that is no replay and brings the streak to two leaves the candidate demoted and its rule gone |
| NegativeStreak.BackdatedPassExample | apps/api/src/core.ts:5998-6010 | Two evaluations for which that happens |
| NegativeStreak.TrailingIs | apps/api/src/core.ts:2854-2874 | The trailing count is the number of the candidate's last evaluations that score below zero: all of them do and the one before them does not |
| Replays.PromoteAgain | apps/api/src/core.ts:6116-6302 | Promoting again at the same time changes nothing, not even the place of the rule |
| Replays.ReplayEvalAgain | apps/api/src/core.ts:5960-6040 | Replaying an evaluation right after it came in is a no-op, also when it demoted |
| Replays.RewriteAgain | apps/api/src/core.ts:5751-5774 | Writing a stored candidate again changes nothing after the first time |
| Replays.SignalAgain | apps/api/src/core.ts:9974-10100 | A utility signal heard last is not heard again |
| Replays.HeardAgainIff | apps/api/src/core.ts:9974-10010 | After another signal it is: only the last id is kept |
| Replays.CorrectedFeedbackCountsTwice | apps/api/src/core.ts:10104-10287 | Helpful feedback, another one, and a correction of the first lift a score of a half by three steps |
| Replays.FeedbackAgain | apps/api/src/core.ts:10104-10287 | Over any run, a feedback record changes nothing if and only if it came before and no other record came under its id since, whatever other operations did |
| Replays.OutcomeAgain | apps/api/src/core.ts:10289-10496 | The same holds of outcome records |
| Replays.OverrideAgain | apps/api/src/core.ts:7365-7513 | Overriding the same targets again at the same time changes nothing |
| Replays.DemoteUndoesPromote | apps/api/src/core.ts:6196-6245 | A demotion after a promotion puts the rulebook back as it was and touches no other candidate |
| Replays.OppositeCancelsIff | apps/api/src/core.ts:6563-6570 | An adjustment and its opposite cancel if and only if the first was not cut off at zero or one |
| Replays.RuleFollowsAdjustment | apps/api/src/core.ts:6590-6616 | After an adjustment a promoted candidate and its rule carry the same confidence, and no other record changed |
| TemporalDecay.TickIdempotent | apps/api/src/core.ts:8551-8710 | A second tick at the same time changes nothing |
| TemporalDecay.TicksNearExactDecay | apps/api/src/core.ts:8617-8654 | k ticks that saw whole days leave a confidence within k half-millionths of the floored exact decay over all days they saw, never below the floor, never raised from above it |
| TemporalDecay.RunCursorsSound | apps/api/src/core.ts:8617-8654 | In every reachable state decayed days times one day fit between creation and cursor |
| QuarantineEffect.QuarantineLeavesNothing | apps/api/src/core.ts:7515-7647 | Existing targets are demoted, no targeted rule and no rule of a newly demoted candidate remains, all else is unchanged and in its order |
| QuarantineEffect.QuarantineAgainIsNoop | apps/api/src/core.ts:7515-7647 | Repeating a quarantine, even later and for other reasons, changes nothing |
| QuarantineEffect.DemoteAllStep | apps/api/src/core.ts:2808-2852 | Demoting target after target with a splice each is demoting them all at once |
| Effects.TickDemotesExpired | apps/api/src/core.ts:8585-8660 | A tick demotes exactly the shadows with an expiry before it, at its own time; it leaves promoted and demoted candidates alone, and changes a surviving shadow exactly when a whole day has passed since its cursor |
| Effects.TickDropsRules | apps/api/src/core.ts:8592-8604 | Exactly the rules under the rule id of a candidate it demotes go |
| Effects.TickDecays | apps/api/src/core.ts:8617-8654 | A surviving shadow counts the whole days since its cursor, moves the cursor to the tick and after one day keeps ninety-nine hundredths, at least a twentieth |
| Effects.NetOfRates | apps/api/src/core.ts:3112-3150 | No change scores nothing, and each replay rate by itself scores its amount times its worth, with its sign |
| Effects.NetOfCanaryRates | apps/api/src/core.ts:3112-3150 | So does each canary rate |
| Effects.NetOfCosts | apps/api/src/core.ts:3112-3150 | Twenty of replay latency, ten of tokens and twenty-five of canary latency each cost one |
| Effects.NetAdds | apps/api/src/core.ts:3112-3150 | Scores of metrics that are added up add up, but for the rounding of three terms |
| Effects.NetAddsExactly | apps/api/src/core.ts:3112-3150 | And exactly where one side changes neither latency nor tokens |
| Effects.BetterMetricsScoreMore | apps/api/src/core.ts:3112-3150 | Replay metrics that are no worse never score less, and strictly more when success, reopening, violations or hallucination is better |
| Effects.BetterCanaryScoresMore | apps/api/src/core.ts:3112-3150 | The same of canary metrics, with errors |
| Effects.PassesIff | apps/api/src/core.ts:3152-3178 | Regressions are the number of the five safety deltas above their limits, and an evaluation passes if and only if there are none and its score reaches the gate |
| Effects.NoWorsePasses | apps/api/src/core.ts:5913-5941 | Of two requests under the same gate and limits the one that is no worse passes whenever the other does, with no more regressions |
| Effects.ReplayEvalLeavesFields | apps/api/src/core.ts:5960-6040 | The evaluation takes the place of its id, its candidate names it with score and verdict, nothing else changes, and the candidate is demoted and loses its rule exactly when a new or changed evaluation brings the count to two |
| Effects.GateEvaluationIs | apps/api/src/core.ts:6128-6140 | A promotion is decided on the stored evaluation the candidate names, else on the last of its own |
| Effects.PromoteVerdict | apps/api/src/core.ts:6116-6195 | A promotion is applied if and only if the candidate exists, that evaluation passed without regressions, there is evidence, it has not expired and it is younger than the window of 1 to 3650 days and one more; each refusal names its cause and changes nothing |
| Effects.PromoteLeaves | apps/api/src/core.ts:6196-6245 | The candidate is promoted with its first promotion time, one rule with its words stands under its rule id, and no other candidate or rule changes |
| Effects.PromotedConfidence | apps/api/src/core.ts:6210-6245 | In the rule each point of score is worth five thousandths of confidence, within zero and one |
| Effects.DemoteLeaves | apps/api/src/core.ts:6304-6461 | A demotion takes place exactly when forced, after a failed evaluation or below the threshold, for those reasons unless others are given, and takes nothing but the rules under the candidate's rule id |
| Effects.FeedbackOnCandidates | apps/api/src/core.ts:10231-10253 | New harmful feedback demotes exactly the candidates it names by id or rule id, helpful feedback demotes nobody, and a named record that had not heard it moves down or up unless it is at its bound |
| Effects.FeedbackOnRules | apps/api/src/core.ts:10231-10253 | Exactly the rules of newly demoted candidates go; every other stays, having heard the feedback at most |
| Effects.FeedbackScore | apps/api/src/core.ts:9974-10085 | In whole millionths harmful feedback takes off 180000 and helpful feedback adds 120000, within zero and one million |
| Effects.OutcomeLeaves | apps/api/src/core.ts:10289-10496 | A new outcome moves the scores of the candidates and rules it used, down for a failure and up otherwise, and changes nothing else |
| Effects.OutcomeScore | apps/api/src/core.ts:10289-10496 | In whole millionths a failure takes off 200000 and a success adds 80000, within zero and one million |
| Effects.WriteVerdict | apps/api/src/core.ts:5736-5804 | A batch is applied if and only if every request is complete; otherwise the first one that is not gives the reason and exactly those before it are written |
| Effects.WriteLeaves | apps/api/src/core.ts:5751-5774 | A new candidate starts as an unevaluated shadow; a stored one takes over words, confidence and expiry, adds up sources and evidence, keeps its history and stays promoted if it was |
| Effects.AdjustmentLeaves | apps/api/src/core.ts:6563-6616 | A call that writes moves the confidence by exactly its delta, within zero and one, in the candidate and in the rule under its rule id, and nothing else |
| Effects.RecordedReasons | apps/api/src/core.ts:2919-2925 | On record are the request's own reason codes, its direction and that it was made by hand |
| Effects.AdjustmentEvent | apps/api/src/core.ts:6618-6660 | The audit event of an adjustment carries the confidence before and after and the part that was applied |
| Effects.OverrideOnCandidates | apps/api/src/core.ts:7391-7475 | An override promotes exactly the candidates named by id or rule id, each with a rule that carries its words |
| Effects.OverrideOnRules | apps/api/src/core.ts:7391-7475 | And leaves the rules under every other rule id as they were |
| Effects.CurateLeaves | apps/api/src/core.ts:5636-5692 | Under each rule id stands the last winner with a statement, or the rule that was there |
| ProfileStore.ProfileState.ApplyCandidateDemotion | apps/api/src/core.ts:2808-2852 | In place: the candidate is demoted and re-sorted and its rule spliced out, reporting whether and which |
| ProfileStore.ProfileState.RunShadowWrite | apps/api/src/core.ts:5718-5871 | The array edits of a batch take the memory where the batch function does, also when one is refused |
| ProfileStore.ProfileState.RunReplayEval | apps/api/src/core.ts:5873-6114 | Storing, sorting, streak update and demotion in place equal the replay-evaluation step |
| ProfileStore.ProfileState.TrailingStreak | apps/api/src/core.ts:2854-2874 | The backward scan computes the trailing count |
| ProfileStore.ProfileState.RunPromote | apps/api/src/core.ts:6116-6302 | Promotion in place equals the promotion step, with its gate and freshness refusals |
| ProfileStore.ProfileState.RunDemote | apps/api/src/core.ts:6304-6461 | Demotion in place equals the demotion step |
| ProfileStore.ProfileState.UpsertLedgerEntry | apps/api/src/core.ts:2990-3054 | The ledger is entered, kept or refused exactly as specified |
| ProfileStore.ProfileState.RunAddWeight | apps/api/src/core.ts:6463-6678 | The adjustment in place equals the adjustment step with all its refusals, also the late one that leaves candidate and rule written |
| ProfileStore.ProfileState.ApplyQuarantine | apps/api/src/core.ts:7515-7647 | Loops over targets and explicit rule ids, skipping rules already removed, equal the quarantine function; the changed flag is exact |
| ProfileStore.ProfileState.ApplyOverride | apps/api/src/core.ts:7365-7513 | The override loop equals the override function |
| ProfileStore.ProfileState.RunFeedback | apps/api/src/core.ts:10104-10287 | Recording, utility signal and harmful demotion in place equal the feedback step |
| ProfileStore.ProfileState.RunOutcome | apps/api/src/core.ts:10289-10496 | Recording an outcome and its signal to the rules it used equal the outcome step, which a stored equal record makes a no-op |
| ProfileStore.ProfileState.ApplyUtilitySignal | apps/api/src/core.ts:9974-10085 | The two loops over candidates and rules equal the signal function, each record hearing a signal once |
| ProfileStore.ProfileState.ApplyCurateMutations | apps/api/src/core.ts:5636-5692 | Upserting the winners and sorting equal the curation function |
| ProfileStore.ProfileState.RunMaintenanceTick | apps/api/src/core.ts:8551-8710 | The loop that re-resolves and re-sorts equals one pure step per candidate and dropping exactly the rules of the newly demoted; processed = unchanged + demoted + cursor-advanced, and the reported lists are exact |
| ProfileStore.ProfileState.Execute | apps/api/src/core.ts:12879-12891 | Every dispatched call takes the memory through one step of a run |
| ProfileStore.ProfileState.AppendPolicyAuditTrail | apps/api/src/core.ts:4145-4203 | Appending in place equals the log function, or is refused above 128 reason codes |
| ProfileStore.ProfileState.RebalanceReviewSet | apps/api/src/core.ts:8374-8527 | The in-place rebalance equals the function; when it throws the entries are left alone and the stored lists are as reading them back made them |
| ProfileStore.ProfileState.RunReviewScheduleClock | apps/api/src/core.ts:8712-8918 | A clock call is the clock step, the entry step, a maintenance tick and a rebalance, in that order |
| ReviewSchedule.ReviewKeyOrder | apps/api/src/core.ts:8387-8405 | The sort key orders entries by due date, then status name, then id |
| ReviewSchedule.RebalanceSplits | apps/api/src/core.ts:8374-8510 | Every entry is in exactly one of the four lists, the lists name nothing else, the archived ones ascend, and the entries stay as they were but for the marks of their list |
| ReviewSchedule.ActiveIsLeast | apps/api/src/core.ts:8384-8412 | The active set has the size of the limit or of all due or scheduled entries, and holds the least by due date, status and id |
| ReviewSchedule.RebalancedAgain | apps/api/src/core.ts:8374-8510 | A second rebalance with the same limit and time computes the same state |
| ReviewSchedule.RebalanceTwice | apps/api/src/core.ts:3562-3650 | And it succeeds exactly when no list of the first is longer than 128 |
| ReviewSchedule.ManyCompletedStopRebalance | apps/api/src/core.ts:8413-8460 | More than 128 completed entries of the last year make the second rebalance throw |
| ReviewSchedule.RebalanceTwiceExample | apps/api/src/core.ts:8413-8460 | 129 of them in a new schedule do |
| ReviewSchedule.ThrowsAgain | apps/api/src/core.ts:3559-3642 | A rebalance that throws keeps the entries and what the lists name, and sent again throws again and changes nothing more |
| ReviewSchedule.NothingDueStaysScheduled | apps/api/src/core.ts:8724-8814 | After a clock call nothing scheduled is due and after a consolidation nothing is completed, also after the rebalance |
| ReviewSchedule.NoveltyBelowThresholdIff | apps/api/src/core.ts:8724-8814 | The novelty load ends below its threshold if and only if that is positive |
| ReviewSchedule.FatigueStaysBelow | apps/api/src/core.ts:8724-8814 | With a fixed threshold and at most one recovery of fatigue per call the load stays below the threshold over any run |
| ReviewSchedule.ConsolidationsPayForFatigue | apps/api/src/core.ts:8724-8814 | All fatigue ever added is still loaded or was paid for, one recovery per consolidation |
| ReviewSchedule.TiersByDate | apps/api/src/core.ts:8413-8437 | An entry outside the active list is frozen if and only if it is 365 days overdue, warm if and only if it is not completed and not 90 days overdue, and cold otherwise |
| ReviewSchedule.ArchiveByDate | apps/api/src/core.ts:8437-8460 | The archive holds one record for each of them, under the same tier, and no other |
| ReviewSchedule.EntryChanges | apps/api/src/core.ts:8724-8814 | A clock call makes due exactly the scheduled entries whose time has come; a consolidation schedules exactly the completed ones again, their interval but at least a day ahead |
| ReviewSchedule.ClockChanges | apps/api/src/core.ts:8724-8814 | A clock call consolidates exactly when forced, in sleep mode or with a load at its threshold; then the novelty load is cleared, fatigue falls by half its threshold rounded up, at least one, and the cause names what triggered it; otherwise the loads just add up |
| ReviewSchedule.RebalanceGoesThroughIff | apps/api/src/core.ts:3562-3650 | A rebalance throws if and only if a stored list names more than 128 entries, or a stored archive record or an entry to be archived has more than 128 sources or pieces of evidence |
| ReviewSchedule.ReadBack | apps/api/src/core.ts:3562-3650 | Reading the stored lists back keeps what they name, in ascending order, and brings the limit into 1 to 256, 32 when none is set |
| LearnerProfile.LastWriterWins | apps/api/src/core.ts:1486-1547 | Over any run an attribute's value is that of the greatest timestamp and digest among the accepted update that created the profile and those that supplied the attribute; updates may leave it out unless it is the status or the confidence |
| LearnerProfile.OrderDoesNotMatter | apps/api/src/core.ts:1416-1438 | So runs decided by the same updates store the same value, timestamp and digest |
| LearnerProfile.EveryOrderAgrees | apps/api/src/core.ts:1440-1560 | Supported updates whose evidence and references are within their bounds and which all supply the attribute store the same value in every order in which they are sent |
| LearnerProfile.CreatorLeavesOutIff | apps/api/src/core.ts:1521-1524 | Of two updates of which one leaves the attribute out, both orders agree if and only if the supplied stamp is not the earlier |
| LearnerProfile.NothingRefusedIff | apps/api/src/core.ts:1173-1177 | In a given order nothing is refused if and only if each update brings evidence or a policy exception, all evidence together is within 128, and each update's identity references fit into 32 on top of all before it |
| LearnerProfile.OrderDecidesAcceptance | apps/api/src/core.ts:1462-1465 | Two updates with the same references are accepted before a third with others and not after it, when any two of the lists fit together and all three do not |
| LearnerProfile.NothingRefusedInAnyRunIff | apps/api/src/core.ts:1462-1465 | No run with given updates and no others refuses any of them if and only if each is supported, all evidence is within 128, and all references together with any one update's are within 32 |
| LearnerProfile.FullProfileIsFrozen | apps/api/src/core.ts:1462-1465 | A profile with 32 identity references refuses every further update |
| LearnerProfile.SentTwiceIff | apps/api/src/core.ts:1173-1177 | An update that created a profile is accepted again if and only if it has at most sixteen references |
| LearnerProfile.RunKeepsLineage | apps/api/src/core.ts:1428-1438 | Over any run every lineage stays sorted by timestamp, digest and revision id, holds no revision twice and keeps all it ever held |
| LearnerProfile.TruthStaysIff | apps/api/src/core.ts:1535-1546 | For an attribute an update leaves out, the recorded truth still fits the value if and only if the attribute is neither status nor confidence or was at its default; the other six keep value, timestamp and digest |
| LearnerProfile.LeftOutStatusIsOverwritten | apps/api/src/core.ts:1448-1450 | An update without a status puts an archived profile back to active while the truth still says archived |
| LearnerProfile.LearnerProfiles.RunLearnerProfileUpdate | apps/api/src/core.ts:6680-6719 | The stored list changes only under the update's id, to what the merge gives, and the reported action is exact, with both bounds refusing before anything is written |
| LearnerProfile.RefusedIff | apps/api/src/core.ts:1173-1177 | An update is refused if and only if it brings neither evidence nor a policy exception, or more than 128 pieces of evidence or 32 references, by itself or on top of what is stored |
| LearnerProfile.AcceptedLeaves | apps/api/src/core.ts:6697-6719 | An accepted update adds evidence and signals, keeps id and creation time, and gets a version above the stored one, at least its own, exactly when it changed something |
| LearnerProfile.CreatedLeaves | apps/api/src/core.ts:6697-6719 | One that creates a profile gives it its own values, times, evidence and signals, and its own version or the first |
| LearnerProfile.MergedRef | apps/api/src/core.ts:1173-1233 | A merged identity reference is verified if either was, last seen at the later time, and primary if either was; when none is, exactly the first becomes it |
| Misconceptions.RunReflects | apps/api/src/core.ts:1885-1972 | In every reachable record the counts are the numbers of distinct signal ids of each kind and add up to all of them; status, suppression and anti-patterns follow |
| Misconceptions.ReplayIsNoop | apps/api/src/core.ts:1886-1891 | A signal id already counted changes nothing, whatever else the replay says |
| Misconceptions.SuppressedStays | apps/api/src/core.ts:1917-1922 | Suppression is never lifted, whatever signals follow |
| Misconceptions.OrderDoesNotMatter | apps/api/src/core.ts:1885-1972 | Runs that count the same signals end in the same record but for confidence and time |
| Misconceptions.AllCountIff | apps/api/src/core.ts:4443-4502 | Signals with distinct ids all count if and only if no harmful one is among them or their id lists are within 128, in whatever order |
| Misconceptions.OnePatternPerThreshold | apps/api/src/core.ts:4443-4502 | There is exactly one anti-pattern for each threshold the harmful count has reached |
| Misconceptions.BuildAntiPatterns | apps/api/src/core.ts:4443-4502 | The loop over the thresholds builds that list, or fails on a list over 128 |
| Misconceptions.ConfidenceStays | apps/api/src/core.ts:4406-4441 | Confidence stays within zero and one; a harmful signal leaves at least the floor and, above it, takes off at least the stage's decay; the others never lower it |
| Misconceptions.HarmfulSignalsReachFloor | apps/api/src/core.ts:1905-1916 | Five distinct harmful signals and no other bring any confidence to exactly the floor |
| Misconceptions.StatusFollows | apps/api/src/core.ts:1917-1922 | A record is suppressed if it ever was or a signal says so, else resolved if and only if corrections are at least as many as harmful signals, of which there is one |
| Misconceptions.ConfidenceMoves | apps/api/src/core.ts:4406-4441 | In whole millionths a helpful signal or a correction adds 110000, and the harmful signals take off 180000, 240000, 320000 twice and then 420000 each, down to 50000 |
| Misconceptions.SeverityLowers | apps/api/src/core.ts:4406-4441 | A more severe harmful signal never leaves more confidence, and full severity takes off 80000 more |
| Attribution.NudgeIs | apps/api/src/core.ts:3889-4022 | The whole scoring comes down to three nudges, decided by regression history, one-sided settled outcomes, support and the share still pending |
| Attribution.BandIsSign | apps/api/src/core.ts:4002-4022 | Boost, none and suppress carry strictly positive, zero and strictly negative values within a quarter |
| Attribution.MixedIsNotEligible | apps/api/src/core.ts:3898-3908 | Mixed outcomes never make a rule eligible |
| Attribution.RankPermutes | apps/api/src/core.ts:5414-5462 | Ranking permutes the head and leaves the tail where it was |
| Attribution.TopKIs | apps/api/src/core.ts:5409-5417 | The head is as long as asked for, but holds one rule at least, and 32 and all rules at most |
| Attribution.RankingIsValueOrder | apps/api/src/core.ts:5450-5458 | The order by band, value and place is the order by value and place alone |
| Attribution.RankAgain | apps/api/src/core.ts:5450-5458 | Ranking a ranked head changes nothing |
| Attribution.TallyOutcomes | apps/api/src/core.ts:3858-3891 | The filter loops count the traced outcomes that used the rule |
| Attribution.CountsByStatus | apps/api/src/core.ts:3858-3891 | Helpful and harmful are the numbers of traced outcomes that used the rule and are settled as successes and failures, pending the number of those that are not settled |
| Attribution.RuleNudgeIs | apps/api/src/core.ts:3889-4022 | So a rule is suppressed when an evaluation of its candidate failed or regressed, and otherwise nudged by a quarter exactly when enough outcomes are settled, all the same way, and few are pending |
| PolicyCsv.SerializeCsv | apps/api/src/core.ts:9905-9919 | The row loop prints a header and one line per record |
| PolicyCsv.ParseOfPrinted | apps/api/src/core.ts:9905-9944 | Reading the printed export by rules 5 to 7 of section 2 of RFC 4180 gives back the header and all thirteen field texts of every record, for all strings |
| PolicyCsv.CellReadsBack | apps/api/src/core.ts:9905-9944 | Read back, a missing value is empty, a number, a boolean or a structure its text, and a string itself, behind an apostrophe exactly when it looks like a formula |
| PolicyCsv.PrintIsInjectiveOnTexts | apps/api/src/core.ts:9905-9944 | Two exports that print alike carry the same field texts |
| PolicyCsv.StringsAreNoFormulas | apps/api/src/core.ts:9937-9938 | No printed string looks like a formula, and only those that did are changed |
| RankingWeights.Settle | scripts/generate-ranking-decay-tuning.ts:950-991 | The rescale-and-clip loop ends, every further pass fixing at least one key, and ends with everything fixed or with the free keys sharing exactly what the fixed ones leave |
| RankingWeights.PassFixesMore | scripts/generate-ranking-decay-tuning.ts:976-991 | Every pass that does not end the loop leaves fewer free keys |
| RankingWeights.BoundedNormalizeWeights | scripts/generate-ranking-decay-tuning.ts:950-1024 | The result rounds weights that sum to one, keep the raw order and proportions and clip only for cause; its millionths add up to exactly one, within bounds unless exceptional |
| RankingWeights.PublishedWithinBoundsIff | scripts/generate-ranking-decay-tuning.ts:993-1023 | Bounds hold, the last weight give or take the rounding it absorbs, if and only if not one share is too high and three too low; then the weights are 14/17 and three times 1/17 |
| RankingWeights.PublishedKeepsOrder | scripts/generate-ranking-decay-tuning.ts:1006-1023 | Of the weights rounded on their own a smaller raw weight never gets the larger result |
| RankingWeights.ExceptionalExample | scripts/generate-ranking-decay-tuning.ts:950-1024 | All the raw weight on one key is such a case |
| RankingWeights.RecommendRankingWeights | scripts/generate-ranking-decay-tuning.ts:1026-1052 | From pressures between zero and one every weight is within its bounds, and is the baseline plus its delta unless semantic similarity has to be lifted to the lower bound, which is all it then weighs |
| RankingWeights.PressureLowersSemantic | scripts/generate-ranking-decay-tuning.ts:1029-1043 | More pressure of any kind never raises the recommended weight of semantic similarity, which never exceeds the baseline |
| RankingWeights.ComputePressures | scripts/generate-ranking-decay-tuning.ts:904-948 | Pressures lie between zero and one for any metrics |
| RankingWeights.MetricsRaisePressure | scripts/generate-ranking-decay-tuning.ts:904-948 | More of any metric never makes less pressure of any kind |
| RankingWeights.PressureRanges | scripts/generate-ranking-decay-tuning.ts:904-948 | The metric values at which each pressure is none, half and full |
| RankingWeights.PressureMovesWeight | scripts/generate-ranking-decay-tuning.ts:1026-1047 | What one more unit of each pressure moves from semantic similarity to each other weight, which together always make one |
| CommentScanner.StripJavaScriptComments | scripts/validate-legacy-runtime-cutover.ts:174-241 | The index loop writes what the scanner specification writes |
| CommentScanner.StripIsIdempotent | scripts/validate-legacy-runtime-cutover.ts:174-241 | Scanning the output again finds no comment and reproduces it |
| CommentScanner.StripKeepsAllIff | scripts/validate-legacy-runtime-cutover.ts:174-241 | Nothing is dropped if and only if no comment is entered |
| CommentScanner.NewlinesSurvive | scripts/validate-legacy-runtime-cutover.ts:202-220 | As many newlines come out as went in |
| CommentScanner.OutputIsSubsequence | scripts/validate-legacy-runtime-cutover.ts:174-241 | The output is the text with characters left out |
| CommentScanner.StripKeepsPieces | scripts/validate-legacy-runtime-cutover.ts:174-241 | The output is the source's pieces in order: code and literals word for word, of a comment only its newlines |
| CommentScanner.PiecesJoin | scripts/validate-legacy-runtime-cutover.ts:174-241 | Those pieces put together are the source |

## Left out

- ProfileStore.ProfileState.Execute: the audit event most operations append is a step of its own with arbitrary content, because the invariants hold wherever such events fall; only the event of an adjustment is appended inside its operation, where its id matters. The review operations have methods of their own and are not dispatched.
- ProfileStore.ProfileState.RunDemote: the audit event is such a step.
- ProfileStore.ProfileState.RunFeedback: the audit event is such a step, and incident records, which only grow a list of their own, are not stored; the signals and demotions they cause are.
- ProfileStore.ProfileState.RunOutcome: the audit event is such a step.
- ProfileStore.ProfileState.RunAddWeight: the previous confidence enters the audit event, and so its id, in whole millionths; source ids, evidence ids and metadata of a request count as part of its reason.
- ProfileStore.ProfileState.RebalanceReviewSet: the `changed` flag of the response, which compares a sorted list with a due-ordered one.
- ProfileStore.ProfileState.RunReviewScheduleClock: the reported transitions and the audit event of a call.
- ProfileStore.ProfileState.RunMaintenanceTick: the audit events and metrics of a tick, and of its summary the expired ids, the eligible and floor counts and the total confidence change.
- TemporalDecay.TicksNearExactDecay: exact arithmetic with six-decimal rounding, not binary floating point.
- RankingWeights.BoundedNormalizeWeights: exact arithmetic as well; the tolerance of the bounds is the program's own.
- LearnerProfile.OrderDoesNotMatter: only the value and what it is known from agree for every order; the lineages differ, because the revision recorded for the held value depends on the evidence collected so far.
- Misconceptions.OrderDoesNotMatter: confidence depends on the order of signals, so it is not part of the agreement.
- Attribution.RankingIsValueOrder: entries are scored per rule instead of looked up by rule id, which is the same while rule ids are unique; the observability lists of the response are not modelled.
- CommentScanner.StripKeepsPieces: literals are delimited as the scanner delimits them, which knows neither regular expressions nor template substitutions.
- PolicyCsv.ParseOfPrinted: the JSON and NDJSON formats, and how structured values become text.
- Hashing and signing: digests are functions taken to be free of collisions where a theorem says so.
- Normalisation of requests (aliases, trimming, length limits, defaults): operations start from normalised requests.
- LearnerProfile.LearnerProfiles.RunLearnerProfileUpdate: confidence, time and metadata of an evidence pointer seen again, and the metadata of an identity reference, are merged by the program and are not part of the stored values here, so an update that brings nothing else reads as a no-op.
- General metadata and policy exception bodies: carried along by merges without a rule of their own.
- Response bodies: traces, service-level objects, lifecycle metrics and digests.
- Recall, identity graph, curriculum plans, ingest and snapshots: further lists with the same upsert pattern.
- Persistence, the HTTP surface, configuration, and the modules imported from elsewhere; curation takes the selected winners as given.
- Reports, dashboards, schema and config validators, benchmarks and evaluation drivers in `scripts/`.
