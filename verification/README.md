# Evaluation back end: a verified model

This project models the back end of a staff evaluation system as one system of records, seats, users and
logs, and proves what its services promise together.

- **Workflow.** A table of thirteen guarded transitions moves a case along a chain whose shape depends on
  which seats are filled. The table, the notifications, the reminders, the bulk opening and the stage
  statistics are written down separately in the program; the lemmas say where they agree and where they
  do not. Over whole runs: how long a run can be, that no case gets stuck, and who must have acted before
  a case is finalized.
- **Stamped scoring.** A case is bound to one scheme version and one framework version. People save scores,
  enter bonuses, move cases and hand them over while HR adds, switches and deletes indicators, publishes
  frameworks, rebinds untouched cases and creates, activates and deletes schemes, in any order. The stored
  result is always the result of the case's own scores under its own stamps.
- **Audit log.** A hash chain over canonical JSON texts: a reader gets every field back from the text, the text
  identifies the payload, concurrent appends under the lock never fork the chain, and the verifier's answer
  proves what it should.
- **Time-driven state machines.** Login lockout, refresh-token rotation (section 10.4 of RFC 6749) and the
  delivery outbox with exponential backoff, over runs of any length.
- **Strings.** The "site / unit" convention, as a reader and a writer.

Code that changes state in place is a class whose methods are proved against functions on plain values;
the laws are lemmas about those functions. Python's `datetime` values are integers (`Time`), percentages are
exact reals rounded half to even where the code rounds, and SHA-256 is a parameter of which nothing is
assumed: the theorems give either the property or the collision that broke it.

| file | content |
|---|---|
| Workflow, WorkflowRuns, HrOwnership | transition table, chains, runs, separation of duties, claims and hand-overs within HR |
| Notifications, Reminders | recipients of workflow actions; the reminder sweep and the run of all sweeps |
| Rounding, Scoring, ScoringLaws, Weights, ScoreChecks | rounding, `compute_result`, its laws, what weights mean, the gates before it |
| EvaluationDb, EvaluationStore | the database operations as functions and in place |
| EvaluationRuns, EvaluationCoherence, EvaluationTheorems, EvaluationStamps, EvaluationExample | everything that can happen, the invariant, its consequences, what the stamps are for, cases played from the empty database |
| EvaluationSteps, EvaluationHistory | each step said of the columns it touches; results, clocks, versions and bonuses over runs |
| LogReplay, StageStats | the log explains every record; statistics rebuilt from the log |
| Json, JsonReader, JsonLaws, AuditChain, AuditText, AuditConcurrency | canonical text, reading it back, hash chain, the hashed text, concurrent appends |
| LoginGuard, Sessions, Delivery | lockout, refresh rotation, outbox |
| BulkEvaluation, OrgUnit | cohort opening, site/unit strings |
| Domain, Text | shared helpers |

## What the proofs found

Each of these is a lemma about the inputs concerned, next to the theorem that holds otherwise.

- The comment at backend/app/services/evaluation.py:166-168 says that base and bonus always add up to the
  final percentage. An accepted bonus and the base do so exactly when the bonus was entered in tenths or lifts
  the base to 100 (`BaseAndBonusAddUp`; a bonus of 0.25 for which they do not: `QuarterPointIsCut`).
- Section weights with more than three decimals pass the scheme check, but are stored rounded and then need
  not add up to 1 (`FinerWeightsCanDrift`; exactly when they do: `StoredSumIsOne`). Above 1 the result is no
  percentage any more (`PercentageIffWeightsFit`).
- HR may delete a question that nobody has scored while drafts ask it; such a draft is finalized without it
  (`FinalizedWithoutADeletedQuestion`, and exactly when: `AllQuestionsScored`).
- With an empty deputy seat the reminder sweep takes the empty seat for the owner after HR's approval, although
  the CEO is to act, and the insertion of a reminder without a user fails. So the sweep completes exactly when
  no stalled case is of this kind (`SweepRemindsTheDesks`); one that is stops every run of all sweeps until
  somebody moves it (`AForgottenCaseStopsEverything`). Such a case is also taken for an orphan
  (`OrphansExactly`), the statistics book that stage, and drafts without a supervisor, on nobody
  (`BookedOnTheDesk`), and the CEO has no way back from `hr_approved` (`MovesAlongTheChain`).
- A manager with a supervisor but no deputy can be opened in bulk as a direct case of the CEO with nobody
  planned as scorer, and cannot be opened by hand at all (`AssigneeIsTheScorer`,
  `BulkAgreesWithOpeningByHand`).
- A self-assessment freezes the framework of the open case when it is opened and is bound again when it is
  submitted; publishing in between leaves employee and scorer on different questions
  (`ASelfAssessmentDrifts`, and exactly when: `SubmissionAgreesWithTheCase`).
- An exception of a channel that is no delivery error never counts against the limit on attempts
  (`UnexpectedNeverGivesUp`, and how far it matters: `AttemptsAreBounded`). Rows whose channel was removed
  keep taking turns, and a full batch of them blocks the whole queue, new rows included
  (`ParkedRowsBlockTheQueue`, and exactly whose turn it is: `TurnExactly`).
- A site that holds a "/" is cut in the wrong place (`RoundTrip`, `RereadIsStable`).
- A stored result survives every later scheme exactly if the record has a scheme stamp
  (`ResultSurvivesExactlyIfStamped`). A database set up by the migrations never holds a record without one
  (`SeededIsInService`, `StaysInService`); a case opened and submitted before any scheme is active loses its
  result (`AnUnstampedResultIsLost`).
- The advisory lock keeps the audit log from forking because each statement sees what is committed by then; for
  a transaction that keeps an older snapshot it would not suffice (`UnderSnapshotsTheLogForks`).

## Model

| member | source | states |
|---|---|---|
| Workflow.MovesAlongTheChain | backend/app/services/workflow.py:80-248 | Apart from cancelling, some transition takes a case to a status for a user if and only if the case lies at that user's desk and the status is the next or previous one of its chain (or HR's short cut to the end of a direct-CEO case); the CEO of a chain without deputy cannot go back from HR approval |
| Workflow.AllowedHoldsDesk | backend/app/services/workflow.py:226-248 | Whoever may make any transition but cancel holds the desk the case lies on |
| Workflow.ChainMoveIsAllowed | backend/app/services/workflow.py:80-223 | For every chain move there is an action with that target that the desk holder may make |
| Workflow.StaysOnChain | backend/app/services/workflow.py:80-248 | A transition keeps the case on the chain its seats define; so manager and direct-CEO cases never reach HR approval |
| Workflow.WhoMaySit | backend/app/services/workflow.py:326-352 | By the names of the roles: the supervisor seat is for supervisors, deputies and the CEO, the deputy seat for deputies and the CEO, the CEO seat for the CEO, and HR's work for HR alone |
| Workflow.ActionsInWords | backend/app/services/workflow.py:80-352 | Each of the thirteen actions is allowed exactly in the named status, for the holder of the named seat with one of the named roles, or for an HR user who owns the case or finds it unowned |
| Workflow.EffectsInWords | backend/app/services/workflow.py:80-300 | Where each action leads, that it changes no seat, and that exactly HR's approvals and return make the user the owner |
| WorkflowRuns.StaysOnChainThroughout | backend/app/services/workflow.py:80-248 | The same along any run of allowed transitions |
| WorkflowRuns.Terminal | backend/app/services/workflow.py:26-33 | Nothing happens any more to a finalized or cancelled case |
| HrOwnership.HrActorFollowsHandOvers | backend/app/api/routers/evaluations.py:1028-1135 | Over a run with claims and hand-overs anywhere, the next user to approve or return for HR is the one the case was handed over to last since the previous such action, and the same as before without a hand-over |
| HrOwnership.RunIsFollowed | backend/app/services/workflow.py:285-297 | Leaving claims and hand-overs out and putting one HR user in the place of all turns such a run into a run of transitions through the same statuses |
| HrOwnership.BoundedWithOwners | backend/app/services/workflow.py:80-223 | The bound on the number of transitions holds whatever claims and hand-overs there are |
| HrOwnership.DutiesSeparatedWithOwners | backend/app/services/workflow.py:80-248 | So does the separation of duties: scorer's submit, next an HR user's approval, every seat holder, at least two or three people |
| WorkflowRuns.ExactLength | backend/app/services/workflow.py:80-223 | The number of transitions of a run that was not cancelled equals the places it advanced plus two per return, less one for HR's short cut |
| WorkflowRuns.CancelledLength | backend/app/services/workflow.py:211-223 | The bound for runs that end in a cancellation |
| WorkflowRuns.BoundedRuns | backend/app/services/workflow.py:80-223 | A run from a draft with R returns has at most 4 + 2R transitions, 3 + 2R when the supervisor or the deputy seat is empty |
| WorkflowRuns.NeverStuck | backend/app/services/workflow.py:68-223 | From every open place of each chain shape, with seat holders whose roles fit, a run without returns leads to finalized, in exactly as many transitions as places are left |
| WorkflowRuns.SeparationOfDuties | backend/app/services/workflow.py:80-248 | In every run to finalized, after the last time the case was a draft: the scorer submits, an HR user approves next, every seat holder acts and none of them is from HR; so at least two people act, three with a deputy |
| WorkflowRuns.PeopleInRound | backend/app/services/self_evaluation.py:53-103 | With no two mergeable seats held by one person, seat holders and HR approver are at least two, or three, people |
| WorkflowRuns.TwoPeopleCanSuffice | backend/app/services/self_evaluation.py:65-103 | Two is reached: supervisor seat and CEO may be one person when there is no deputy |
| Notifications.Inbox.Notify | backend/app/services/notifications.py:35-54 | Adds exactly one row per distinct user and changes no earlier row |
| Notifications.Inbox.NotifyForWorkflowAction | backend/app/services/notifications.py:102-176 | Adds exactly one row for each recipient of the action |
| Notifications.RecipientsAreDeskHolders | backend/app/services/notifications.py:108-170 | After a transition into an open status the recipients are exactly the new desk: all active HR users for the HR stage, otherwise the one seat holder |
| Notifications.NextActorIsTold | backend/app/services/notifications.py:102-176 | Whoever can make the next move, forward or back, is among the recipients |
| Notifications.ClosingTellsTheScorer | backend/app/services/notifications.py:133-170 | A finalization is told to the scorer alone, a cancellation to every seat |
| Reminders.RemindersReachTheDesk | backend/app/services/scheduled.py:85-102 | The list of owners of an open case is exactly the desk holder, all of HR for the HR queue, if and only if it is not the HR-approved case of a chain without deputy; there it holds the empty seat alone while the CEO's finalization is allowed |
| Reminders.SweepRemindsTheDesks | backend/app/services/scheduled.py:105-138 | The sweep completes if and only if no stalled case is HR-approved without a deputy; then exactly those who are to move a stalled case, and those who were before, have a recent reminder of it, every new one is of this moment and none repeats a recent one |
| Reminders.NewRemindersExactly | backend/app/services/scheduled.py:105-138 | The rows a completed sweep adds are exactly those due: for a user whose turn it is, in an open case that has waited for long enough, without a reminder of it within the patience; each once and of this moment |
| Reminders.EveryVisitIsReminded | backend/app/services/scheduled.py:105-138 | After a completed sweep, whoever is to move a stalled case has a reminder from after the case came, or came back, to this stage |
| Reminders.OrphansExactly | backend/app/services/scheduled.py:141-185 | A case is reported to HR exactly if its desk holder is no active user or it is the HR-approved case of a chain without deputy, and never from the HR queue |
| Reminders.AForgottenCaseStopsEverything | backend/app/services/scheduled.py:268-287 | While a stalled, HR-approved case without deputy is there, no run of the sweeps changes anything: no reminder, no purge, no delivery |
| Reminders.Sweeper.NotifyOnce | backend/app/services/notifications.py:57-92 | Adds the reminder unless a recent one is there; without a user it fails |
| Reminders.Sweeper.SlaSweep | backend/app/services/scheduled.py:105-138 | The nested loops compute the specified reminders and count the new ones, or stop at the failed insertion |
| Reminders.Sweeper.RunAllSweeps | backend/app/services/scheduled.py:268-287 | Reminders, purge and delivery are committed together; after a failure all is as before |
| Rounding.HalfEvenNearest | backend/app/services/evaluation.py:153-159 | Rounding gives a nearest integer, the even one on a tie |
| Rounding.HalfEvenMonotone | backend/app/services/evaluation.py:153-159 | Rounding never reverses an order |
| Rounding.Round2Nearest | backend/app/services/evaluation.py:171-177 | Rounding to hundredths gives a hundredth at most half a hundredth away |
| Rounding.TiesGoToTheEven | backend/app/services/evaluation.py:153-180 | Halfway between two tenths, or two hundredths, the even one is taken |
| Scoring.SectionTotals | backend/app/services/evaluation.py:143-154 | The one loop with four accumulators gives the weighted sum and the weighted maximum of each section |
| Scoring.ComputeResult | backend/app/services/evaluation.py:130-192 | The loop and the arithmetic after it compute the specified result |
| ScoringLaws.ResultIsTheWeightedMean | backend/app/services/evaluation.py:143-159 | Each section's percentage is its weighted points over its attainable points, the base is the mean of the two by the scheme's weights, both within 0.05 |
| ScoringLaws.SmallestLimitApplies | backend/app/services/evaluation.py:171-177 | With two decimals everywhere, the applied bonus is exactly the smallest of bonus, cap and room up to 100 |
| ScoringLaws.FinalIsPercentage | backend/app/services/evaluation.py:155-180 | The final percentage lies in 0..100, not below the base, and differs from base plus applied bonus by at most 0.05 |
| ScoreChecks.BaseAndBonusAddUp | backend/app/services/evaluation.py:101-180 | For an accepted bonus, base and applied bonus add up to the final percentage if and only if the bonus was entered in tenths or lifts the base to 100 |
| ScoreChecks.QuarterPointIsCut | backend/app/services/evaluation.py:166-180 | A base of 36 and an accepted bonus of 0.25 for which they do not |
| ScoringLaws.BonusFits | backend/app/services/evaluation.py:171-178 | The applied bonus is never negative, never lifts the sum above 100, and fills it up when bonus and cap reach that far |
| ScoringLaws.ResultRises | backend/app/services/evaluation.py:130-192 | A higher score or bonus never lowers any percentage or the recommendation band |
| ScoringLaws.EveryResultHasItsBand | backend/app/services/scoring_scheme.py:46-50 | Under a valid scheme the label is that of the first band above the percentage; the fallback to the last label is never needed |
| ScoringLaws.BandIsFirstAbove | backend/app/services/scoring_scheme.py:46-50 | The band found is above the percentage and every earlier one is not |
| ScoringLaws.ResultIgnoresOrder | backend/app/services/evaluation.py:143-154 | The order in which the rows are read does not matter |
| ScoringLaws.ResultIgnoresScale | backend/app/services/evaluation.py:143-156 | Multiplying all weights of one section by a positive factor changes nothing |
| Weights.OneMoreAnswer | backend/app/services/scoring_scheme.py:43-44 | One more answer adds its score, and its maximum of 5, times the weight the map gives its question, and times 1 for a question that is not in the map |
| Weights.WeightsCountAsQuestions | backend/app/services/evaluation.py:137-156 | Under whole weights the result is that of the rows, each repeated as often as its question weighs, without any weights |
| Weights.UnweightedResult | backend/app/services/evaluation.py:137-156 | Without weights each section's percentage is, within 0.05, the points given over five times the number of answers |
| Weights.DoubleWeightCountsTwice | backend/app/services/scoring_scheme.py:43-44 | With weight 2 on a question scored 5 and none on one scored 1 the percentage is 73.3 |
| ScoreChecks.ValidateEvidence | backend/app/services/evaluation.py:61-98 | The two lists name exactly the indicators with too little and with too much evidence; both are empty if and only if the evidence is in order |
| Text.WordsAreCounted | backend/app/services/evaluation.py:40-43 | The words of a text are counted, whatever spaces stand before, between and behind them |
| ScoreChecks.AcceptedBonusTakesEffect | backend/app/services/evaluation.py:101-127 | A bonus that was accepted is not cut by the scheme: base plus applied bonus is base plus bonus, or 100 |
| ScoreChecks.BonusInWords | backend/app/services/evaluation.py:101-127 | A bonus is accepted exactly if it lies between 0 and the cap and, unless it is 0, has a reason of ten characters; which refusal is given otherwise |
| ScoreChecks.StoredPointsNearest | backend/app/models/evaluation.py:110 | Points are stored in hundredths, at most half a hundredth away, and hundredths as they are |
| ScoreChecks.CheckedSchemeIsStored | backend/app/schemas/scoring_scheme.py:24-80 | Of what was checked, storing keeps everything but the sum of the weights: it is 1, or at most 1, exactly when the fraction by which the first weight is past its rounding half lies in a range given by the excess of the sum; weights of at most three decimals are stored as they are |
| EvaluationSteps.EveryScoreCanBeEvidenced | backend/app/schemas/scoring_scheme.py:24-80 | Under a scheme that passes the checks there is for every score a text with a number of words that fits |
| ScoreChecks.StoredSumIsOne | backend/app/models/scoring_scheme.py:63-64 | The exact condition for any two weights |
| ScoreChecks.ExactWeightsStoredExactly | backend/app/models/scoring_scheme.py:63-64 | Weights that add up to 1 are stored so if and only if the first is not on a half thousandth |
| ScoreChecks.FinerWeightsCanDrift | backend/app/schemas/scoring_scheme.py:46-80 | Two schemes that pass every check are stored with the sums 1.001 and 0.999 |
| ScoringLaws.OverweightExceeds | backend/app/services/evaluation.py:143-180 | Full marks under stored weights of more than 1 give a final percentage of more than 100 |
| ScoringLaws.PercentageIffWeightsFit | backend/app/services/evaluation.py:130-192 | A stored scheme gives percentages for all scores and bonuses if and only if its weights do not exceed 1 |
| EvaluationDb.RulesForStored | backend/app/services/scoring_scheme.py:56-107 | Whatever a record falls back to, stamp, active scheme or the legacy rules, was checked and stored |
| EvaluationStore.Store.FindActiveScheme | backend/app/services/scoring_scheme.py:88-89 | Finds the active scheme if there is one |
| EvaluationStore.Store.RulesForRecord | backend/app/services/scoring_scheme.py:92-107 | The stamp decides; without one the active scheme, without that the legacy rules |
| EvaluationSteps.RulesInWords | backend/app/services/scoring_scheme.py:92-107 | The rules are those of the stamped scheme, without a stamp those of the scheme whose status is active, and without that the legacy rules |
| EvaluationStore.Store.FinalizeScoring | backend/app/services/workflow.py:379-424 | Refuses exactly an incomplete form or bad evidence; otherwise stores and logs the result of the record's rows, in whatever order they are read, under its own form and rules |
| EvaluationStore.Store.EnsureFramework | backend/app/services/indicator_framework.py:63-73 | Appends a version only if the current one does not match today's active indicators |
| EvaluationSteps.SwitchedOnAreAsked | backend/app/services/indicator_framework.py:28-73 | After publishing or renewing, the current version asks a question if and only if it exists and is switched on |
| EvaluationSteps.SwitchingTakesEffect | backend/app/api/routers/indicators.py:204-274 | After switching a question off, or on, and publishing or renewing, the current version does not ask it, or does |
| EvaluationStore.Store.RebindUntouched | backend/app/services/indicator_framework.py:147-165 | Moves exactly the open, stamped, untouched records of other versions and returns their number |
| EvaluationSteps.RebindInWords | backend/app/services/indicator_framework.py:105-165 | A record is moved exactly if it is open, stamped with another version, has no scores and no self-assessment |
| EvaluationSteps.UntouchedCaseFollows | backend/app/services/indicator_framework.py:147-165 | After publishing and rebinding, a draft nobody has worked on asks exactly what is switched on |
| EvaluationStore.Store.Activate | backend/app/services/scoring_scheme.py:120-151 | Refuses the author and schemes that are no drafts; otherwise retires the active scheme and activates this one, leaving one active |
| EvaluationSteps.ActivateInWords | backend/app/services/scoring_scheme.py:120-151 | Activating changes nothing for the author or for a scheme that is no draft; otherwise this scheme is active, the one active before is retired and no other changes |
| EvaluationSteps.SchemesInWords | backend/app/api/routers/scoring_schemes.py:104-284 | A scheme is stored exactly if it passes the checks, as its author's draft, and deleted exactly while it is a draft |
| EvaluationDb.ActivateKeepsOneActive | backend/app/services/scoring_scheme.py:140-151 | Activation keeps at most one scheme active and every rule set valid |
| EvaluationStore.Store.ClaimIfUnowned | backend/app/services/workflow.py:285-297 | Acting on an unowned HR case takes it and logs the claim; otherwise nothing changes |
| EvaluationStore.Store.ApplyTransition | backend/app/services/workflow.py:251-314 | Succeeds exactly when the transition is allowed, a finalization has a result and scores and a submit can be settled; then claim, result, status, clock and log are those specified, and a refusal leaves no trace |
| EvaluationSteps.TransitCondition | backend/app/services/workflow.py:251-289 | A transition succeeds exactly if it is allowed, a closing has a result and scores, and a submit has answered exactly the questions asked, with neither too little nor too much evidence |
| EvaluationSteps.TransitInWords | backend/app/services/workflow.py:283-314 | What it writes to the record and, in which order, to the log |
| EvaluationSteps.SettledExactly | backend/app/services/workflow.py:379-404 | Scoring is settled exactly if the questions asked are those answered and every row has the number of words its score needs and the scheme allows |
| EvaluationSteps.BonusReachesTheResult | backend/app/services/workflow.py:406-416 | The bonus stored with the record counts in the result: nothing without one, and otherwise the smallest of bonus, cap and room up to 100; base and counted bonus make the final percentage, within 0.05 |
| EvaluationSteps.ScoringInWords | backend/app/api/routers/evaluations.py:646-736 | Scores and bonus are written exactly by the holder of the lowest filled seat with a role that fits it, into a draft, for questions the case asks, once each and from 1 to 5; nothing else changes |
| EvaluationSteps.OwnersInWords | backend/app/api/routers/evaluations.py:1028-1135 | HR users alone take unowned open cases and give open cases to another HR user |
| EvaluationSteps.OwnersAgree | backend/app/api/routers/evaluations.py:1028-1135 | Claims and hand-overs on the database are the events of the runs with owners |
| EvaluationSteps.OpenInWords | backend/app/api/routers/evaluations.py:285-408 | A case is opened exactly by its scorer or by HR for somebody without an open one; it is an empty draft under the active scheme that asks what the person's self-assessment asks, and otherwise exactly what is switched on |
| EvaluationSteps.FormInWords | backend/app/services/indicator_framework.py:76-102 | A stamped case asks the questions of its version that still exist, one without a stamp what is switched on, each in its indicator's section |
| EvaluationCoherence.FormOnlyShrinks | backend/app/services/indicator_framework.py:76-102 | The question ids of a stamped record never change; its form can only lose indicators that were deleted |
| EvaluationCoherence.RecordFramed | backend/app/services/workflow.py:379-416 | A record nobody touches stays coherent while the tables around it move on |
| EvaluationCoherence.TransitKeepsGood | backend/app/services/workflow.py:251-314 | Transitions keep every record coherent |
| EvaluationCoherence.SaveScoresKeepsGood | backend/app/api/routers/evaluations.py:242-266 | Replacing the scores of a draft by rows for its own form keeps every record coherent |
| EvaluationCoherence.SetBonusKeepsGood | backend/app/api/routers/evaluations.py:701-736 | So does a bonus entered into a draft |
| EvaluationCoherence.DeleteIndicatorKeepsGood | backend/app/api/routers/indicators.py:166-201 | Deleting an indicator nobody has scored keeps every record coherent |
| EvaluationSteps.DeleteInWords | backend/app/api/routers/indicators.py:166-201 | A question is deleted exactly if nobody has scored it |
| EvaluationSteps.IndicatorsInWords | backend/app/api/routers/indicators.py:80-111 | A new question is on and has an id of its own; switching changes whether one question is on and nothing else |
| EvaluationCoherence.RebindKeepsGood | backend/app/services/indicator_framework.py:147-165 | Rebinding untouched records keeps every record coherent, even one that already has a result |
| EvaluationCoherence.ActivateKeepsRules | backend/app/services/scoring_scheme.py:120-151 | Activation edits no rule and turns no activated scheme back into a draft |
| EvaluationCoherence.DeleteSchemeKeepsGood | backend/app/api/routers/scoring_schemes.py:259-284 | Deleting a draft scheme touches no record's rules |
| EvaluationCoherence.OpenKeepsGood | backend/app/api/routers/evaluations.py:378-408 | A new case gets the stamps of the moment and is coherent |
| EvaluationCoherence.StepKeepsGood | backend/app/services/workflow.py:251-424 | Every step of people or HR keeps every record coherent |
| EvaluationStamps.SeededIsInService | backend/alembic/versions/e2b4a71c8d35_versioned_scoring_schemes.py:86-125 | A new database as the migrations set it up satisfies the invariant, has one active scheme and only stamped records |
| EvaluationStamps.StaysInService | backend/app/services/scoring_scheme.py:102-107 | A database with an active scheme and only stamped records keeps both through every run, so that the fallback for unstamped records is never needed |
| EvaluationStamps.NeverTwoActive | backend/app/models/scoring_scheme.py:103-113 | Through any run there are never two active schemes |
| EvaluationStamps.StoredResultIsItsOwn | backend/app/services/workflow.py:379-416 | After any run of a database in service a case past the scoring stores exactly the result of its scores under its own scheme and framework, a percentage if the stored weights do not exceed 1; a finalized one has scored exactly those of its framework's questions that still exist. From any other good database this holds of the stamped cases |
| EvaluationStamps.AllQuestionsScored | backend/app/services/indicator_framework.py:76-102 | A finalized case has scored all questions of its framework if and only if none of them was deleted |
| EvaluationHistory.EnteredBonusIsStored | backend/app/api/routers/evaluations.py:701-736 | After the scorer has entered a bonus, and whatever others do before the case is submitted, the stored final percentage is within 0.05 of the stored base plus what counts of that bonus |
| EvaluationHistory.LogAlwaysHoldsResults | backend/app/services/workflow.py:406-424 | Through any run the stored result of a case is that of the last result the log holds for it, and there is none without one |
| EvaluationHistory.EndIsAlwaysDated | backend/app/services/workflow.py:300-314 | Through any run a case is finalized if and only if it has a time of finalization, and that is the time it entered this stage |
| EvaluationHistory.VersionsAreNumbered | backend/app/services/indicator_framework.py:33-60 | Through any run the versions are 1, 2, 3 and so on, and the last one is current |
| EvaluationHistory.HistoriesBegin | backend/alembic/versions/b7d4e2a91c68_indicator_framework_versions.py:53-81 | The empty database and the one the migrations set up satisfy these invariants |
| EvaluationExample.FinalizedWithoutADeletedQuestion | backend/app/api/routers/indicators.py:166-201 | A run from the empty database in which HR deletes an unscored question of a scored draft, publishes and rebinds, and the case is finalized without the question |
| EvaluationExample.ASwitchedOffQuestionIsNotAsked | backend/app/services/indicator_framework.py:28-60 | A run from the empty database in which HR switches a question off and publishes, and a case opened then does not ask it and is finalized |
| EvaluationExample.ACaseIsFinalized | backend/app/services/workflow.py:251-424 | A run from the empty database that ends with a finalized, stamped case with all questions scored: the theorems about such cases are not empty |
| EvaluationTheorems.ScoredCaseIsStable | backend/app/services/indicator_framework.py:76-165 | Once a stamped case has a score, no run of other people's and HR's steps changes it, its question ids or its rules; a complete form stays complete and settles to the same result, and a finalized case is what it was for ever |
| EvaluationTheorems.AssessedCaseKeepsItsFramework | backend/app/services/indicator_framework.py:105-165 | Once the employee has opened the self-assessment of the contract, the case keeps its version of the questions through any run |
| EvaluationTheorems.NobodyHasTwoOpenCases | backend/app/services/workflow.py:26-36 | Through any run nobody has two open cases |
| EvaluationStamps.ActivatedRulesApply | backend/app/services/scoring_scheme.py:88-107 | Activating a scheme, the first or in place of another, puts every record without a stamp under its rules |
| EvaluationStamps.ResultSurvivesExactlyIfStamped | backend/app/services/scoring_scheme.py:92-107 | A record's own stored result stays its own under every scheme that can be created and activated if and only if the record has a scheme stamp |
| EvaluationExample.AnUnstampedResultIsLost | backend/alembic/versions/e2b4a71c8d35_versioned_scoring_schemes.py:16-20 | A run from the empty database: a case opened, scored and submitted before any scheme is active stores its own result, and not any more after a checked scheme is created and activated |
| EvaluationTheorems.CurrentHasTheGreatestVersion | backend/app/services/indicator_framework.py:33-34 | The current framework is one with the greatest version |
| EvaluationTheorems.PublishedIsCurrent | backend/app/services/indicator_framework.py:33-73 | A published version is the current one and `ensure_framework` then adds none |
| EvaluationSteps.AssessmentInWords | backend/app/api/routers/me.py:262-278 | A self-assessment is bound to the current version, which then asks exactly what is switched on, and touches no case |
| EvaluationSteps.AssessmentSteps | backend/app/api/routers/me.py:262-278 | A self-assessment is opened once and submitted once, and bound again when submitted |
| EvaluationTheorems.SubmissionAgreesWithTheCase | backend/app/api/routers/me.py:262-278 | Submitting a self-assessment binds it to the framework of the case if and only if the case is on the current version and that matches the active indicators, just before |
| EvaluationTheorems.SelfAssessmentCanDrift | backend/app/services/indicator_framework.py:105-165 | A case whose self-assessment is open follows no publication, so that the submission after one binds another version |
| EvaluationExample.ASelfAssessmentDrifts | backend/app/api/routers/me.py:204-278 | A run from the empty database to a case on the first version whose self-assessment is submitted on the second |
| EvaluationTheorems.ForwardStep | backend/app/services/workflow.py:251-314 | The desk holder's forward move passes every check of a transition, including the finalization guard |
| EvaluationTheorems.CaseCanBeFinalized | backend/app/services/workflow.py:251-314 | A scored, stamped, open case can always be finalized by transitions alone, in as many as it has places left |
| EvaluationTheorems.FrozenPlusMovable | backend/app/services/indicator_framework.py:132-144 | The two numbers shown to HR add up to the open records |
| EvaluationTheorems.RebindMovesTheMovable | backend/app/services/indicator_framework.py:132-165 | Rebinding moves at most the announced number, and exactly it when all open records are stamped with other versions |
| LogReplay.EntriesOfAMove | backend/app/services/workflow.py:285-314 | A transition logs exactly one status change, from the old to the new status, and nothing about other records |
| LogReplay.LogAlwaysAgrees | backend/app/services/workflow.py:298-314 | After any run, a record's status changes are linked, lead from draft to its status, and the last one carries its stage clock |
| StageStats.TransitionsByRecord | backend/app/services/stage_stats.py:172-186 | One pass over the log collects each record's status changes in order and skips births |
| StageStats.StageVisits | backend/app/services/stage_stats.py:95-124 | The loop gives one finished visit per change and the visit in progress |
| StageStats.LifeIsSharedOut | backend/app/services/stage_stats.py:95-124 | The visits are the stages really passed; finished dwells add up to last transition minus creation, all of them to the record's age |
| StageStats.Accumulate | backend/app/services/stage_stats.py:192-211 | The counters of each stage after one record's visits; visits to no stage are dropped |
| StageStats.StageBuckets | backend/app/services/stage_stats.py:188-211 | The whole accumulation gives the specified counters for every stage |
| StageStats.ActiveAndClosed | backend/app/services/stage_stats.py:200-211 | On any log, active is the number of records with that status and closed the number of logged departures from it |
| StageStats.PassesAreClosedOrActive | backend/app/services/stage_stats.py:206-212 | Passes are active plus closed, and only closed ones enter the average |
| StageStats.RecordsAndLongest | backend/app/services/stage_stats.py:206-210 | The records counted are exactly those that visited the stage; the longest active stay is the maximum |
| StageStats.FinishedAreTheStays | backend/app/services/stage_stats.py:200-211 | The durations a stage averages over add up to the time of all its finished stays |
| StageStats.PassesAreConserved | backend/app/services/stage_stats.py:188-211 | On any log, passes over all stages are transitions plus records, less the visits to cancelled |
| StageStats.StatisticsAddUp | backend/app/services/stage_stats.py:188-211 | For every reachable database, transitions plus records less the cancelled records |
| StageStats.TimeIsConserved | backend/app/services/stage_stats.py:95-211 | The finished time of all statuses together is, over all records, the time from the opening to the last transition |
| StageStats.BookedOnTheDesk | backend/app/services/stage_stats.py:70-76 | A stage is booked on the desk holder or on nobody, and on nobody in exactly three named situations |
| JsonLaws.EscapeCharPrefixFree | backend/app/services/audit.py:63 | No character's escape is a prefix of another's |
| JsonReader.EscapesInFull | backend/app/services/audit.py:63 | The escape of every character: the short ones, the long ones in lower-case digits, and everything else as it is |
| JsonReader.IntTextReadsBack | backend/app/services/audit.py:63 | A printed integer, read as a decimal numeral without leading zeros, is that integer |
| JsonReader.StringReadsBack | backend/app/services/audit.py:63 | A printed string, read by the rules of RFC 8259, is that string |
| JsonReader.PrintReadsBack | backend/app/services/audit.py:63 | A reader of JSON, written apart from the printer, gets every value back from its text and stops where it ends |
| JsonReader.CanonicalReadsBack | backend/app/services/audit.py:63 | The canonical text reads back as the value with the members of every object sorted |
| Text.BeforeInWords | backend/app/services/audit.py:63 | Keys are ordered by code points at the first difference, a prefix before what continues it |
| JsonLaws.PrintUnambiguous | backend/app/services/audit.py:63 | Two printed values followed by delimited text are equal only if values and rests are |
| JsonLaws.SortForgetsOrder | backend/app/services/audit.py:63 | Sorting makes member lists with equal members equal, whatever their order |
| JsonLaws.CanonicalTextIsFaithful | backend/app/services/audit.py:39-63 | Two dictionaries have the same canonical text if and only if they are equal as JSON values up to member order |
| JsonLaws.SampleText | backend/app/services/audit.py:63 | The exact text of one payload: sorted keys, compact separators, escapes |
| AuditChain.TextDeterminesRow | backend/app/services/audit.py:39-67 | The hashed text is the same if and only if event fields and previous hash are |
| AuditText.HashedTextReadsBack | backend/app/services/audit.py:39-67 | From the hashed text a reader gets back all six fields of the row, in the order of their keys |
| AuditText.TextInFull | backend/app/services/audit.py:55-63 | The hashed text from the first brace to the last |
| AuditText.SampleText | backend/app/services/audit.py:55-63 | The text of one event with numbers of two digits and a dictionary, character by character |
| AuditChain.AuditTable.LogEvent | backend/app/services/audit.py:75-107 | Appends the row that continues the chain and keeps an accepted log accepted |
| AuditChain.VerifyChain | backend/app/services/audit.py:110-149 | Reports intact if and only if every row checked links and hashes; otherwise the least inconsistent row, its id and the right reason |
| AuditChain.PrefixAccepted | backend/app/services/audit.py:110-149 | Cutting off the newest rows is what the verifier cannot see |
| AuditChain.LastHashFixesTheLog | backend/app/services/audit.py:110-149 | Two accepted logs with the same last hash are equal row by row, or an explicit collision or root hit exists among their rows |
| AuditChain.EditIsReported | backend/app/services/audit.py:110-149 | Replacing a row before the last one is reported at it or at the next, unless contents are equal or the texts collide |
| AuditChain.DeletionIsReported | backend/app/services/audit.py:110-149 | Removing a row before the last one is reported at the row that followed it |
| AuditConcurrency.NewestIsLast | backend/app/services/audit.py:70-72 | On an id-ordered table the query for the newest row finds the last one |
| AuditConcurrency.StepKeepsGood | backend/app/services/audit.py:75-107 | Each step of any transaction keeps what every transaction sees in id order and accepted |
| AuditConcurrency.LogNeverForks | backend/app/services/audit.py:75-107 | Any interleaving of lock, read, insert, commit and rollback commits an accepted chain in id order |
| AuditConcurrency.WithoutTheLockTheLogForks | backend/app/services/audit.py:85-86 | Without the lock a run commits a log the verifier rejects |
| AuditConcurrency.UnderSnapshotsTheLogForks | backend/app/services/audit.py:85-86 | With the lock, but with a second transaction that keeps a snapshot from before it got the lock, the committed log forks and is rejected |
| LoginGuard.Guard.LockedUntil | backend/app/services/login_guard.py:33-41 | The end of a lock still in force, or none |
| LoginGuard.Guard.RecordFailure | backend/app/services/login_guard.py:44-75 | Counts, restarts or locks as specified, reports a lock just made, and touches no other user name |
| LoginGuard.Guard.PurgeStale | backend/app/services/login_guard.py:83-96 | Removes exactly the stale rows and returns how many |
| LoginGuard.RateBound | backend/app/services/login_guard.py:33-96 | With failures recorded only while unlocked and no success between, no half-open interval as long as the shorter of lockout and window holds more failures than the maximum, whatever is purged |
| LoginGuard.LocksAtTheMaximum | backend/app/services/login_guard.py:64-75 | Failures that follow each other within the window lock exactly when the count reaches the maximum |
| LoginGuard.FailureInWords | backend/app/services/login_guard.py:44-75 | A failure adds to the count of its window; at the maximum the lock lasts exactly the lockout, its end is reported, and the count starts again |
| LoginGuard.RareFailuresNeverLock | backend/app/services/login_guard.py:52-75 | Failures further apart than the window never lock |
| LoginGuard.PurgeInWords | backend/app/services/login_guard.py:83-96 | A row is purged exactly if its last failure is out of the window and its lock, if any, is over |
| LoginGuard.PurgingIsInvisible | backend/app/services/login_guard.py:83-96 | Taking the purges out of any run in time order changes no answer, and after a failure not even the row |
| Sessions.Store.RotateSession | backend/app/services/sessions.py:73-117 | Judges the token and rotates, spares or revokes everything as specified |
| Sessions.Store.RevokeSession | backend/app/services/sessions.py:120-123 | Revokes that session, once |
| Sessions.Store.RevokeAllForUser | backend/app/services/sessions.py:126-131 | Revokes the user's unrevoked sessions and no other row |
| Sessions.Store.ActiveSessions | backend/app/services/sessions.py:52-70 | Returns exactly the user's sessions that are neither revoked nor rotated nor expired |
| Sessions.AlwaysForest | backend/app/services/sessions.py:73-131 | After any run replacement links lead to later sessions of the same user, one from each rotated session and at most one to each |
| Sessions.EveryChainHasOneEnd | backend/app/services/sessions.py:104-117 | From every session the links lead to exactly one unrotated session, of the same user |
| Sessions.ChainsAreDisjoint | backend/app/services/sessions.py:104-117 | Two sessions with a common descendant are one the descendant of the other |
| Sessions.OneEndPerLogin | backend/app/services/sessions.py:23-131 | Over any run the user's unrotated sessions grow by exactly the direct creations |
| Sessions.NeverMoreThanLogins | backend/app/services/sessions.py:52-131 | A user never has more active sessions than logins |
| Sessions.ReuseEndsEverySession | backend/app/services/sessions.py:91-108 | A token is rejected as reuse if and only if its session is foreign, revoked, expired or was rotated more than 60 seconds ago; then the user has no active session left and other users' rows are unchanged |
| Sessions.LivingTokenRotates | backend/app/services/sessions.py:100-117 | A token is exchanged if and only if its session is the user's own and active, and then exactly one new active session takes its place; in the grace period nothing changes |
| Sessions.LoginLasts | backend/app/services/sessions.py:23-49 | A login's session is active exactly for its lifetime |
| Sessions.RevokeEndsTheSession | backend/app/services/sessions.py:120-123 | A logout ends the session for good, keeps an earlier time of revocation and touches no other |
| Sessions.RevokeAllEndsThem | backend/app/services/sessions.py:126-131 | Ending all sessions marks exactly the user's sessions that were not revoked yet |
| Sessions.MissingIsReuse | backend/app/services/sessions.py:91-98 | So does a token without a session |
| Sessions.DeadStaysDead | backend/app/services/sessions.py:73-131 | A user without active sessions gets none from any run in time order without a new login |
| Delivery.BatchIsSound | backend/app/services/delivery.py:135-144 | A sweep takes up each row at most once, in order of creation, only if waiting and due, and at most a batch |
| Delivery.Outbox.Deliver | backend/app/services/delivery.py:147-206 | One row's outcome and its counter |
| Delivery.Outbox.Sweep | backend/app/services/delivery.py:123-208 | The sweep processes exactly the batch and counts the outcomes |
| Delivery.AnswerDecides | backend/app/services/delivery.py:147-206 | A row is sent exactly if it was delivered, abandoned exactly after a permanent failure, at the maximum or without a notification, and waits otherwise; each attempt is counted and dated |
| Delivery.ReportIsTrue | backend/app/services/delivery.py:123-208 | The counters reported are the numbers of rows that became sent, became abandoned and were attempted and put back |
| Delivery.WaitsDouble | backend/app/services/delivery.py:108-120 | The wait after the first attempt is exactly the base, and each further attempt doubles it |
| Delivery.EachRowOnce | backend/app/services/delivery.py:147-206 | Every row is processed from what it was before the sweep, or unchanged |
| Delivery.SettledStays | backend/app/services/delivery.py:135-139 | Sent and abandoned rows never change again |
| Delivery.Backoff | backend/app/services/delivery.py:108-120 | Over any run of sweeps, with rows enqueued between them, the n-th attempt on a new row comes at least base times (2^(n-1) - 1) after the first |
| Delivery.AttemptsAreBounded | backend/app/services/delivery.py:177-201 | Over any run, with rows enqueued between the sweeps, the attempts not answered by an unexpected exception are at most what the maximum still allows, and one if it allows nothing |
| Delivery.DeliveryErrorsAreBounded | backend/app/services/delivery.py:180-196 | A row that fails with delivery errors only is attempted at most the maximum number of times |
| Delivery.TurnExactly | backend/app/services/delivery.py:135-144 | A waiting, due row is taken up if and only if it is among the first four batches of waiting rows and fewer than a batch of those before it are due |
| Delivery.SmallQueueIsServed | backend/app/services/delivery.py:135-144 | While the waiting rows fit into a batch every one that is due is taken up |
| Delivery.IdleExactly | backend/app/services/delivery.py:147-152 | A sweep changes nothing if and only if no channel is configured or every row whose turn it is has none |
| Delivery.ParkedRowsBlockTheQueue | backend/app/services/delivery.py:135-152 | While the channels of a full batch of due rows at the front are missing, no later sweep changes any row, and those enqueued meanwhile only queue up |
| Delivery.UnexpectedNeverGivesUp | backend/app/services/delivery.py:197-201 | With other exceptions a row is attempted any number of times and still waits |
| BulkEvaluation.MakePlan | backend/app/services/bulk_evaluation.py:136-161 | One plan per person, in order, from the state at the start |
| BulkEvaluation.PlanInWords | backend/app/services/bulk_evaluation.py:163-213 | Which of the six outcomes a person is planned, by open case, activity, access row, seats and their holders |
| BulkEvaluation.OpenRowInWords | backend/app/services/bulk_evaluation.py:150-156 | The open case named is one of this person, and there is none if none is named |
| BulkEvaluation.Store.Execute | backend/app/services/bulk_evaluation.py:216-285 | Each planned creation is inserted or reported as a conflict, with others inserting between any two turns |
| BulkEvaluation.ExecutionKeepsThePlan | backend/app/services/bulk_evaluation.py:243-285 | The only change of an outcome is from created to conflict, if and only if somebody has opened a case for that person by then |
| BulkEvaluation.ExecutionKeepsOneOpen | backend/app/services/bulk_evaluation.py:271-283 | Nobody ends up with two open records, whatever others insert |
| BulkEvaluation.CreatedAreInTheTable | backend/app/services/bulk_evaluation.py:243-285 | Whoever is reported as created has, under the id reported, an open draft on the planned seats, whatever others insert |
| BulkEvaluation.RerunCreatesNothing | backend/app/services/bulk_evaluation.py:136-285 | A second plan for the same cohort creates nothing |
| BulkEvaluation.AssigneeIsTheScorer | backend/app/services/bulk_evaluation.py:196-213 | The planned assignee is the only user id that can submit the created draft, if and only if the person is not a manager with a supervisor but no deputy |
| BulkEvaluation.BulkAgreesWithOpeningByHand | backend/app/api/routers/evaluations.py:285-374 | A planned creation can be made by hand by somebody if and only if it is not such a manager's, and then with the same seats by the planned assignee |
| BulkEvaluation.Summarise | backend/app/services/bulk_evaluation.py:288-293 | Counts each outcome that occurs |
| BulkEvaluation.SummaryIsComplete | backend/app/services/bulk_evaluation.py:46-64 | The counts add up to the number of people |
| OrgUnit.RoundTrip | backend/app/services/org_unit.py:45-79 | Reading what was written gives back the trimmed pair if and only if the site holds no "/" |
| OrgUnit.SlashIsRead | backend/app/services/org_unit.py:45-55 | Site and unit with a slash between them are read |
| OrgUnit.DashIsRead | backend/app/services/org_unit.py:45-55 | So are they with a dash, unless there is a slash |
| OrgUnit.HyphenIsRead | backend/app/services/org_unit.py:45-55 | And with a hyphen between spaces, unless there is a slash or a dash |
| OrgUnit.RereadIsStable | backend/app/services/org_unit.py:45-79 | For every text: writing down what was read and reading it again is stable if and only if the site read holds no "/" or, without a site, stripping uncovers no hidden separator |
| OrgUnit.StoredTextsAreStable | backend/app/services/org_unit.py:45-79 | For texts without spaces around them: if and only if there is no site or it holds no "/" |
| OrgUnit.HiddenSeparatorExample | backend/app/services/org_unit.py:45-55 | A text without a site that gains one by being stripped |
| OrgUnit.PartsAreTrimmed | backend/app/services/org_unit.py:45-55 | A site and its unit are never blank and have no spaces around them |
| OrgUnit.SitesPartitionTheUnits | backend/app/services/org_unit.py:62-92 | Every unit with a site is listed under exactly one entry of the site list, a unit without a site under none |
| OrgUnit.OtherSitesAreUsed | backend/app/services/org_unit.py:62-72 | Every entry beyond the three official ones has a unit |

## Left out

- FastAPI routers: only their calling rules are kept (scores and bonus in drafts by the scorer, scoring settled on the three submits, failures recorded only while unlocked); status codes, messages, the submission window and capabilities are not modelled.
- SQL and sessions: tables are maps and sequences, partial unique indexes are checked inserts, the advisory lock is an owner field; row locks are not modelled, nor isolation levels beyond the two ways to see committed rows in AuditConcurrency.
- SHA-256 and the text of floats: the hash is an arbitrary function; a finite float is the text Python prints for it, any text with a point or an exponent; what storage as JSONB does to numbers is not modelled.
- Binary floating point: percentages and weights are exact reals.
- Two clocks: records and log rows use one clock, and log order is the order of time; in the program log rows carry the database's transaction start time and the statistics sort by it.
- Statistics per owner, average days and shares: the same accumulation keyed by owner, and formatting.
- The fallback of the visit loop to the status it is walking through: rows without an old status are skipped before, so that it is never used.
- The employee's copy of a finalized result, message texts and which outbound rows a notification is given.
- The sweeps for expiring contracts, improvement plans and missing documents, and the row that records a run; one sweep has one moment for its cut-offs and its new rows.
- Labels: the translation of recommendation labels and scheme preview.
- Indicator texts, display order and replacement as one operation: replacing is a deactivation followed by an addition.
- The compatibility address of self-assessments that prefers a case's framework, the answers themselves and HR's invitations.
- Cohort filters, evaluation periods and evaluation codes.
- Session details (user agent, address, last use) and the order of the session list.
- Concurrent rotation of one session: sessions are modelled one call at a time.
- Reassignment of the supervisor, deputy and CEO seats during a run (they are fixed in the run theorems; the HR owner is not) and the guards against deciding about oneself.
- PDF, Excel, QR codes, mail and SMS channels, tokens, password hashing, metrics, the front end, migrations other than the first scheme and framework, personnel import, scheduler lock, privacy and authorization rules.
