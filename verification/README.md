# Goal engine, checkpoints and graph walks: a Dafny model

This project models the stateful core of the hadamard agent SDK and proves what it
promises over all inputs, runs and interleavings.

- **Goal engine.** A goal is a frontier of work items with dependencies, user gates,
  receipts, bounded logs, budgets and a plan revision. Every service operation is a
  step `Goal -> Goal` (`GoalTypes`, `GoalService`, `GoalController`); the project store
  adds claims, leases and handoffs as transactions on tables (`ClaimMutations`,
  `GoalTables`, `ProjectGoalStore`) and a continuation row per goal (`Continuation`,
  `GoalContinuation`). The other `Goal*` and `Claim*` modules, `GateIsolation`,
  `DeliveryLedger`, `DeliveryHistory`, `CompletionSoundness`, `UsageLedger`,
  `BoundedLogs`, `EvidenceHistory` and `Fingerprints` hold the theorems; `GoalDecisions`,
  `ClaimEntitlement` and `GoalEdits` say over plain fields what is decided, claimed and
  stored. `Digraph` is reachability in dependency graphs.
- **File checkpoints.** One merged entry per path and turn over write-once blobs, and
  restores with conflict detection (`CheckpointVault`, `FileCheckpointService`,
  `CheckpointStack`, `CheckpointEffects`).
- **Walks over object heaps.** The memoised redacting clone (`Redaction`), the
  lossless-JSON test with its ancestor set (`JsonValue`, `JsonTerms`), and the selection of the
  sessions of a project (`ProjectSessions`).
- **Protocols.** Language Server Protocol framing, Header Part and Content Part of the
  Base Protocol (version 3.17), with the table of pending requests (`LspFraming`,
  `LspHeaders`, `LspProcess`, `LspRestart`), and the life of an E2B desktop sandbox
  (`SandboxLifecycle`, `SandboxRuns`).

Code that updates state or loops is a class or a method proved against a specification
function; the theorems are lemmas about these functions. Timestamps are points on a
logical clock, tokens and object references are numbers that are never reused, SQL
tables are maps by primary key, and a digest is an injective function of the content.

`dafny verify dfyconfig.toml` checks the whole project.

## What the proofs found

- `complete` is not final. An answered user gate and a late settlement leave it
  (`CompletionSoundness.CompleteIsLeftExactlyBy`). Neither is `cancelled`: block
  reports, gate answers and settlements leave it
  (`CompletionSoundness.CancelledIsLeftExactlyBy`).
- `done` is not final for a work item. A plan that replaces the frontier, a request for
  another status, which needs no evidence, and a claim marked as running take it back
  (`GoalLifecycle.DoneIsLeftExactlyBy`).
- The planner accepts dependency cycles (`GoalFrontier.PlannedCycleHasNothingToRun`);
  the exact acceptance condition is `GoalLifecycle.PlanIsNormalizedIff`.
- Idle turns stop a goal within nine or ten turns, except one that is asked to
  finalize; failing turns never do (`GoalStall`).
- Resuming keeps the replan audit: the next settlement blocks the goal again exactly
  when it does not complete it and leaves the audit spent
  (`GoalStall.ResumedIsBlockedIff`); one without a report leaves a spent audit spent
  (`GoalStall.SpentAfterReport`).
- The stop for an exhausted budget advises to revise the budget, but no operation
  changes one (`GoalLifecycle.ExhaustionIsPermanent`, against the message at
  `src/goal/goalController.ts:64`).
- A planned user item with a class other than a gate is neither run nor waited for
  (`GoalFrontier.PlannedItemIsActionableIff`).
- A receipt replayed after a hundred others is charged twice
  (`UsageLedger.LateReplayIsChargedAgain`).
- `claimNextWork` and the turn decision pick the same item for every set of claims
  exactly when nothing runnable depends on the waiting gate
  (`GateIsolation.SelectorsAgreeIff`). Work behind a cancelled item is such a case
  (`GateIsolation.WorkBehindCancelledItemDiffers`).
- Marking, releasing and completing a claim write the goal after they have read the
  claim. A token that ends in between still changes the goal, exactly when that is stored
  and has the item in a fitting status, even if the goal was cancelled or the item is
  held anew (`ClaimLifecycle.LateWriteEscapesFenceIff`). Ownership itself never overlaps,
  whatever the order of the statements (`ClaimFencing.OwnershipNeverOverlaps`).
- The fingerprint that detects repeated replans tells frontiers apart only when no id
  holds a separator (`Fingerprints.FingerprintTells`, `Fingerprints.OddIdsCollide`).
- The revision guard does not notice that the goal was replaced: an update passes it
  whenever the new goal has changed as often as its revision says
  (`GoalRevisions.ReplacementPassesTheGuardIff`).
- A restore in mode `both` can fail after it has restored the files
  (`CheckpointStack.BothRestoresFilesBeforeFailing`), because the conversation is missing
  or cannot be restored, and content above the size limit
  makes a turn impossible to restore without force (`CheckpointStack.TurnRestoresIffWithinLimit`).
- Redaction returns an instance of a class by reference, with its secrets
  (`Redaction.ForeignObjectLeaks`); the exact condition for a safe result is
  `Redaction.RedactionIsSafeIff`.
- A message `null`, or a listener that throws, ends the drain loop and holds back the
  messages behind it until more bytes arrive (`LspProcess.NullHoldsBackTheNext`);
  how messages are chunked does not matter exactly when none but the last throws
  (`LspProcess.SentIsHandledIff`). A server started after an exit inherits the old
  buffer, which is harmless exactly under `LspRestart.RestartSurvivesIff`.
- A message of the server is taken for an answer when it carries an id that waits, even
  if it is a request of the server (`LspProcess.SettledByFirstWithId`).
- `isJsonValue`, meant to admit what JSON represents without loss, accepts negative
  zero (`JsonValue.NegativeZeroIsLost`) and arrays that inherit a `toJSON`, which
  `JSON.stringify` calls (`JsonValue.InheritedMethodIsPrinted`).
  `JsonValue.PrintsWithoutLossIff` is the exact condition for the tree of a value;
  sharing and prototypes are no part of a tree and are always lost, and array elements
  behind a getter are not modelled.

## Model

The theorems come first. From `GoalLifecycle.ResumeRestores` on, the rows are about
single operations: what one call does, and the methods that realise the steps the
theorems are about.

| member | source | states |
|---|---|---|
| GoalController.DecideGoalExecution | src/goal/goalController.ts:47-141 | The loops and filters of the decision return what the specification `Decide` says, for every goal and every set of unavailable items; `GoalDecisions` characterises `Decide` over the fields of the goal. |
| GoalController.DependentWorkItemIds | src/goal/goalController.ts:221-236 | The growing-set loop ends and returns exactly the items that reach the gate along dependency edges, cycles included, and never the gate itself. |
| GoalController.CountTrailingNoChange | src/goal/goalController.ts:243-251 | The backward loop counts exactly the trailing run of no-change receipts of the item. |
| GoalController.SelectedIndex | src/goal/goalController.ts:82-92 | An item is selected whenever a candidate exists, and the selected one is a candidate. |
| GoalController.SelectionIs | src/goal/goalController.ts:82-92 | The selected item is determined by the order alone: the head of a stable sort by priority and creation time. |
| GoalController.SelectedIsMostUrgent | src/goal/goalController.ts:238-241 | No candidate is more urgent than the selected item, nor as urgent and older, nor equal in both and earlier on the frontier. |
| GoalController.TrailingNoChangeOfTail | src/goal/goalController.ts:243-251 | Truncating the receipts to the last n caps the count at n and changes nothing else. |
| GoalDecisions.DecisionIsWarranted | src/goal/goalController.ts:47-141 | For an active goal with budget and no forced replan, exactly one decision is warranted by the fields of its items, and it is the one taken: the most urgent selectable item, unless its last two turns changed nothing; otherwise the first waiting gate; otherwise the first item held by others; otherwise finalize or a terminal replan when everything is over; otherwise the first deferred item, or an empty frontier. |
| GoalDecisions.FinalizesIff | src/goal/goalController.ts:52-131 | A goal is asked to finalize if and only if it is active, none of its four limits is reached, no replan is forced, it has items and all of them are done or cancelled, and its no-follow-up reason holds more than space. |
| GoalDecisions.TerminalReplanIff | src/goal/goalController.ts:126-131 | It gets the `terminal_no_followup_missing` replan if and only if all of that holds except that the reason is missing or blank. |
| GoalDecisions.WaitsForOthersIff | src/goal/goalController.ts:103-139 | It waits for others if and only if nothing is selectable, no gate waits, and either some agent work is held by others, the first such item being named, or none is, something is not over, and the first deferred item is named. |
| GoalDecisions.OnlyFreeGoalsRun | src/goal/goalController.ts:52-67 | A goal that is not active stops for its status, one that has reached a limit for its budget, and a forced replan comes before everything else, in this order. |
| Fingerprints.FingerprintTells | src/goal/goalController.ts:253-262 | When no id holds a separator, two frontiers have the same fingerprint if and only if they have the same ids, statuses and dependencies in the same order. |
| Fingerprints.OddIdsCollide | src/goal/goalController.ts:253-262 | An input for the other case: one item whose dependency holds the separators has the fingerprint of two items. |
| GoalFrontier.NothingReadyIffCycles | src/goal/goalController.ts:68-82 | On a dependency-closed frontier nothing is ready if and only if every unfinished item leads, through unfinished dependencies, to a cycle. |
| GoalFrontier.EmptyFrontierIffCycles | src/goal/goalController.ts:103-140 | The decision is the `frontier_empty_nonterminal` replan exactly when every unfinished item waits on a dependency cycle (and something is unfinished). |
| GoalFrontier.DagProgress | src/goal/goalController.ts:68-140 | On an acyclic, dependency-closed frontier without deferred items, whose user items are gates, an active goal with budget and no forced replan works, waits or replans for lack of progress while anything is unfinished; it never counts as empty. |
| GoalFrontier.ReadyItemDecides | src/goal/goalController.ts:75-140 | One ready item is enough for that, cyclic dependencies elsewhere notwithstanding. |
| GoalFrontier.PlannedCycleHasNothingToRun | src/goal/goalService.ts:768-811 | `plan` accepts two items that depend on each other, and the goal then has nothing to run. |
| GateIsolation.SelectionAvoidsGate | src/goal/goalController.ts:75-92 | No selected item is the waiting gate or depends on it, directly or not. |
| GateIsolation.UnrelatedWorkContinues | src/goal/goalController.ts:75-102 | While a gate waits, a runnable available item that does not depend on it keeps the goal from stopping. |
| GateIsolation.WaitsForUserIff | src/goal/goalController.ts:75-110 | The goal stops for the user exactly when a gate is ready and all available runnable work depends on it. |
| GateIsolation.SelectorsAgreeIff | src/goal/projectGoalStore.ts:288-308 | For an unrestricted agent, `claimNextWork` picks the item that the decision selects, whatever is claimed by others, if and only if no runnable item depends on the waiting gate. |
| GateIsolation.SelectorsAgree | src/goal/projectGoalStore.ts:288-308 | When completion is closed under dependencies, nothing runnable depends on the waiting gate and the two pick the same item. |
| GateIsolation.ClaimMatchesDecision | src/goal/projectGoalStore.ts:279-350 | While nothing runnable depends on the waiting gate, a claim is issued for an item if and only if the decision is to work on it or to replan for its lack of progress. |
| GateIsolation.WorkBehindCancelledItemDiffers | src/goal/projectGoalStore.ts:288-308 | An instance of the other case: work behind a cancelled item whose gate still waits can be claimed, while a turn waits for the user. |
| GoalStall.StallCount | src/goal/goalController.ts:67-140 | From every undisturbed goal whose decision is not `finalize`, `TurnsLeft` idle turns always end stopped; from a steady state no smaller number does. |
| GoalStall.StallBound | src/goal/goalService.ts:601-642 | Ten idle turns always stop such a goal, and nine do unless the first turn replans an item that is not yet in the status it rests in between turns. |
| GoalStall.NewGoalStallsInNine | src/goal/goalController.ts:143-186 | A new goal without a budget is stopped after n idle turns if and only if n is at least nine. |
| GoalStall.FinalizeNeverStops | src/goal/goalController.ts:112-125 | The exception is real: a goal that is asked to finalize is asked again after every idle turn, forever. |
| GoalStall.StallsUnlessFinalizing | src/goal/goalController.ts:67-140 | Ten idle turns stop an unbudgeted goal whose replan audit is not spent exactly when its decision was not `finalize`. |
| GoalStall.FailuresNeverStall | src/goal/goalController.ts:189-218 | Turns that fail or are interrupted never count towards a stall: after any number of them the decision is the same. |
| GoalStall.ResumedIsBlockedIff | src/goal/goalService.ts:677-704 | Resuming keeps the replan audit: the first settlement of a resumed goal blocks it again if and only if it does not complete it and the audit, with the report of that settlement, is spent; it never completes an undisturbed goal without the override. |
| GoalStall.SpentAfterReport | src/goal/goalService.ts:864-884 | A settlement without a report leaves the audit spent exactly if it was; a report makes it spent exactly if it shows no change, the last entry shows none on the same frontier, and the counter stored there is at least two. |
| GoalStall.PlainSettlement | src/goal/goalService.ts:550-669 | A settlement that finds no request waiting leaves the frontier alone and only moves the ledgers. |
| GoalService.NormalizePlan | src/goal/goalService.ts:768-811 | An accepted plan keeps the retained items in front, keeps ids distinct, adds only open items without evidence, and leaves no unknown or self dependency among them. |
| GoalLifecycle.PlanIsNormalizedIff | src/goal/goalService.ts:768-811 | A plan is accepted exactly when it has an item, none is blank, the ids are new and distinct and the dependencies name other known items; its items are then appended in order. |
| GoalLifecycle.PlanDischarges | src/goal/goalService.ts:216-263 | An accepted plan extends or replaces the frontier, drops pending requests and any forced replan, advances the plan revision and leaves open work, so the next decision is not `finalize`. |
| GoalService.ApplyWorkItemRequests | src/goal/goalService.ts:813-859 | The loop over the pending requests, with its early `continue`s, equals the fold `ApplyRequests`. |
| GoalLifecycle.RequestsActPointwise | src/goal/goalService.ts:813-859 | With one request per item, that fold gives each item exactly its own admissible request and leaves every other item alone, whatever the order. |
| GoalLifecycle.StepKeepsOneRequestPerItem | src/goal/goalService.ts:359-400 | Pending requests name distinct items after every operation: a new request replaces the older one for its item. |
| GoalLifecycle.SettlementFollowsRequests | src/goal/goalService.ts:564-635 | After a settlement every item is what its pending request asked for, if its evidence was observed, and otherwise as before; only then, if the recorded receipt is of a failed turn on this item and it is running, it is open again. |
| GoalEdits.SettlementAdvancesPlanIff | src/goal/goalService.ts:622-658 | A new settlement advances the plan revision, by one, if and only if it grants a pending request or records a failed or interrupted turn. |
| GoalLifecycle.UnmetRequestFailsTurn | src/goal/goalService.ts:576-622 | Without an accepted completion, an unmet completion request or an inadmissible item request makes the recorded receipt a failed validation with a reason, which is not counted as delivered; otherwise the receipt is recorded as reported. |
| GoalEdits.FailureIsNamed | src/goal/goalService.ts:572-622 | The reason of a failed validation is what the completion lacks: the references that were not observed, any reference where there are criteria, or a terminal frontier with a reason; or else what the last request made in vain lacks. |
| GoalEdits.AcceptanceIsRecorded | src/goal/goalService.ts:606-622 | An accepted completion is recorded as validated and passed, and completes the goal when its request has a note. |
| GoalLifecycle.DoneIsLeftExactlyBy | src/goal/goalService.ts:813-859 | `done` is not final for an item: short of replacing the goal it is left by exactly a plan that replaces the frontier, a settlement that grants a request for another status, which needs no evidence, and a claim on it that is marked as running. |
| GoalService.CountTrailingRepeatReasons | src/goal/goalService.ts:896-909 | The backward loop counts exactly the trailing block reports with this reason. |
| GoalLifecycle.ThirdReportBlocks | src/goal/goalService.ts:450-491 | The same obstacle reported three times in a row blocks an active goal, and two reports do not. |
| GoalLifecycle.ForcedReplanChangesExactlyBy | src/goal/goalService.ts:294-356 | A forced replan is set only by `forceReplan` or a changed `retarget`, and lifted exactly by an accepted plan or a new settlement that reports a plan change. |
| GoalLifecycle.ReplanRequestDecides | src/goal/goalController.ts:67 | After either request the next decision of an active goal with budget is that replan, with its reason, whatever the frontier looks like. |
| GoalLifecycle.ReasonChangesExactlyBy | src/goal/goalService.ts:216-263 | The no-follow-up reason is dropped by exactly an accepted plan or a changed objective, and only a new settlement can set one. |
| GoalLifecycle.GrantedReasonIsKept | src/goal/goalService.ts:636-668 | The reason recorded is that of the last granted request that gives one; if none does, the goal keeps the one it had. |
| GoalLifecycle.AnswerOpensGate | src/goal/goalService.ts:403-443 | An accepted answer makes the goal active, adds exactly the gate to the completed items, changes no other item, and the goal never waits for that gate again. |
| GoalLifecycle.CompletionIsExact | src/goal/goalService.ts:497-642 | A completion request followed by a new settlement completes an active goal exactly when the cited references are observed, some are cited if there are criteria, every item is finished after the requests are applied, and a no-follow-up reason exists. |
| GoalLifecycle.SettlementConsumes | src/goal/goalService.ts:550-669 | A settlement uses up all pending requests, is remembered under its receipt id, and changes nothing when repeated. |
| GoalLifecycle.RunObservesItsCalls | src/goal/goalController.ts:300-311 | A run adds to the observed references exactly those of its tool calls that succeeded. |
| GoalLifecycle.RunIsChargedOnce | src/goal/goalController.ts:143-186 | A run is charged one turn, its tool calls and its tokens, and settling it again changes nothing. |
| GoalEdits.SettlementCounts | src/goal/goalService.ts:623-656 | A new settlement counts the turn if it is recorded as passed or as validated work, the items that are done beyond those done before, the verified entries of its evidence, and its usage; items and entries are counted by the size of the set of their places. |
| GoalEdits.RunIsReported | src/goal/goalController.ts:143-186 | A run is reported as progress exactly when a call succeeded that does more than read, as a replan with whether the plan has advanced since the decision, and otherwise as no change; its successful calls, in order, are its evidence. |
| GoalLifecycle.SettlementSpendsBudget | src/goal/goalController.ts:264-286 | After a settlement an active goal stops for its budget exactly when what was spent before and now reaches one of the four limits. |
| GoalLifecycle.ExhaustionIsPermanent | src/goal/goalController.ts:59-66 | No operation short of replacing the goal makes an exhausted budget spendable again. |
| GoalRevisions.RevisionNamesTheState | src/goal/goalService.ts:911-923 | Between replacements the revision never falls, and while it stands still the goal has not changed at all. |
| GoalRevisions.RevisionCountsChanges | src/goal/goalService.ts:911-923 | Between replacements the revision is the number of operations that changed the goal. |
| GoalRevisions.NoLostUpdates | src/goal/goalService.ts:911-923 | An update guarded by the revision its caller read is refused, or finds the goal exactly as it was read, whatever ran in between. |
| GoalRevisions.ReplacementPassesTheGuardIff | src/goal/goalService.ts:137-163 | A guarded update prepared for a replaced goal lands on the new one if and only if the revision it names is the number of changes the new goal has seen, and then acts as if it carried no guard. |
| GoalRevisions.ResultIsStored | src/goal/goalService.ts:137-745 | A refused operation leaves the stored goal as it was, and an accepted one stores exactly the goal it reports. |
| GoalRuns.StepKeepsDistinctIds | src/goal/goalService.ts:773-780 | Work-item ids stay distinct under every service and claim operation. |
| DeliveryLedger.DoneIsDelivered | src/goal/goalService.ts:622-654 | Along every run from nothing, ids are distinct and the done items never exceed the completed work items delivered plus the gates answered. |
| DeliveryHistory.TotalsMatchHistory | src/goal/goalService.ts:636-668 | After every run, validated turns, evidence items and consumption are what all settlements so far add up to, however much of that history the goal has forgotten. |
| CompletionSoundness.RunIsVouched | src/goal/goalService.ts:813-859 | Along every run each done item cites a reference that a tool, a user, a receipt or a claim holder supplied. |
| CompletionSoundness.OnlySettlementsComplete | src/goal/goalService.ts:564-642 | No operation but a new settlement makes a goal complete. |
| CompletionSoundness.CompletionsAreSound | src/goal/goalService.ts:564-642 | Along every run a completion without the override comes from a settlement where all items are finished, a no-follow-up reason exists, every cited reference was observed by this goal up to that settlement and some are cited if there are criteria. |
| CompletionSoundness.CompleteIsLeftExactlyBy | src/goal/goalService.ts:432-434 | `complete` is not final: an answered gate reopens it and a late settlement with a spent replan audit blocks it, and nothing else short of replacing the goal changes it. |
| CompletionSoundness.CancelledIsLeftExactlyBy | src/goal/goalService.ts:403-491 | `cancelled` is not final either: short of replacing the goal it is left by exactly an accepted gate answer, an accepted block report, or a new settlement that completes the goal or finds its replan audit spent. |
| UsageLedger.UsageIsConserved | src/goal/goalService.ts:550-563 | Along every run in which replays come within a hundred receipts, consumption is the sum over the distinct receipt ids. |
| UsageLedger.SettlementIsReplayIff | src/goal/goalService.ts:550-563 | A settlement leaves the whole goal untouched, revision included, exactly when its receipt is among the last hundred. |
| UsageLedger.LateReplayIsChargedAgain | src/goal/goalService.ts:654-668 | A replay that comes later is charged a second time. |
| BoundedLogs.RunIsFaithful | src/goal/goalService.ts:656 | Along every run the three truncated logs are the tails of the complete histories. |
| BoundedLogs.TruncationNeverDecides | src/goal/goalService.ts:865-909 | Hence the block threshold, the no-progress replan and the replan-repeat block decided on 20, 100 and 30 entries are those decided on the complete histories. |
| BoundedLogs.ThirdIdleReplanSpends | src/goal/goalService.ts:602-606 | After every run, a settlement finds the replan audit spent exactly when the last three replans of the complete history, its own report included, found the same frontier and changed nothing. |
| EvidenceHistory.EvidenceIsTheLastFifty | src/goal/goalService.ts:588-660 | After every run the stored evidence is exactly the last fifty entries, in order, of everything recorded: the evidence of each new settlement and the note of the completion it accepts, progress notes, and the answers to gates. |
| EvidenceHistory.ObservedAreTheLastFifty | src/goal/goalService.ts:566-570 | A settlement counts a reference as observed if and only if one of the last fifty entries before it cites it, its own evidence does, or its run observed it. |
| GoalTables.ApplyKeepsCoherence | src/goal/projectGoalStore.ts:279-634 | No interleaving of store operations, and of the single statements that renewing, marking, releasing and completing consist of, leaves a claim on an ended or archived goal, a misfiled row, or one token in two rows. |
| ClaimFencing.OwnershipNeverOverlaps | src/goal/projectGoalStore.ts:279-634 | Over every run of operations and single statements with a clock that does not run backwards, the tenures of two tokens on one item are disjoint, and a token has one tenure. |
| ClaimFencing.EndedTokenIsInertForever | src/goal/projectGoalStore.ts:353-634 | A released, completed, handed-off or taken-over token changes nothing for the rest of every run: no operation that presents it, no late write of its lease and no late deletion of its row has an effect. |
| ClaimFencing.ClaimsBelongToOpenGoals | src/goal/projectGoalStore.ts:685-772 | In every run a claim row belongs to a stored goal that is not archived, complete, cancelled or blocked. |
| ClaimFencing.LiveClaimIsSafe | src/goal/projectGoalStore.ts:279-350 | A claim with a live lease is never displaced by another operation or a late statement of one, unless its goal ends. |
| ClaimFencing.HolderTouchesOnlyItsItem | src/goal/projectGoalStore.ts:353-549 | An operation of a claim holder changes no goal but its own and no work item but the one its row names. |
| ClaimLifecycle.NextClaimIsEntitled | src/goal/projectGoalStore.ts:279-350 | `claimNextWork` changes nothing, or issues a fresh token with a lease of at least a second for an unclaimed ready item from which the agent is not excluded. |
| ClaimLifecycle.NamedClaimIsEntitled | src/goal/projectGoalStore.ts:423-506 | `claimWorkItem` does the same for a named item, or hands an agent its own live claim back. |
| ClaimEntitlement.NextClaimIff | src/goal/projectGoalStore.ts:279-350 | For restricted agents too: a claim is issued if and only if the goal is active and some agent work, ready to start and without a live claim, does not exclude the agent and has no role scopes or one in common with it; the claim is for the most urgent such item, and its row, token and lease are given. |
| ClaimEntitlement.NamedClaimIff | src/goal/projectGoalStore.ts:423-506 | An agent gets its own live claim back, is refused one of another, and otherwise gets a claim if and only if the item is agent work ready to start that does not exclude it, and it names no scope, the item has none, or one is common. |
| ClaimEntitlement.HandoffIff | src/goal/projectGoalStore.ts:551-634 | A handoff of a live claim is refused if and only if the item, where it can be found, excludes the receiver or has role scopes none of which the receiver names; otherwise it is logged, the claim is gone, and a receiver holds a new one. |
| ClaimLifecycle.ClaimReleaseRestores | src/goal/projectGoalStore.ts:365-420 | Claiming an open item, running it and releasing it gives back the claim table and, update times aside, the frontier. |
| ClaimLifecycle.CompletedItemStaysUnclaimed | src/goal/projectGoalStore.ts:508-549 | After a live claim is completed, and for every run of store operations and single statements after it that neither writes the item back as unfinished nor marks it as running late, the item stays finished and unclaimed and nobody can claim it. |
| ClaimLifecycle.CompletionRetires | src/goal/projectGoalStore.ts:508-549 | Completing a live claim removes it, finishes the item and counts exactly one delivery. |
| ClaimLifecycle.HandoffTransfersOrRefuses | src/goal/projectGoalStore.ts:551-634 | A handoff to an allowed agent moves the claim under a new token and logs it; a refused one leaves the claim in place. |
| ClaimLifecycle.LateWriteEscapesFenceIff | src/goal/projectGoalStore.ts:365-549 | The writes of marking, releasing and completing come after the read of the claim and are not fenced: whatever has become of token, claim and goal in between, the write changes the tables if and only if the goal is stored and not archived and has the item in a fitting status (any for marking, claimed or running for releasing, anything but done for completing); an ended goal is no exception, and only this goal changes. |
| ClaimLifecycle.LateWriteLeaves | src/goal/projectGoalStore.ts:365-549 | Such a write makes a done item running, makes an item open that another holder has begun meanwhile, or makes the item done, and touches no other item. |
| ClaimLifecycle.StatementsMakeTheOperation | src/goal/projectGoalStore.ts:353-549 | When nothing comes in between, the statements of renewing, marking, releasing and completing add up to the operation as one step. |
| Continuation.IntervalStaysInRange | src/goal/projectGoalStore.ts:167-277 | Whatever is configured, leased and settled, the wake interval lies between its bounds. |
| Continuation.OutcomeSetsInterval | src/goal/projectGoalStore.ts:232-277 | A wake of the owner doubles the interval within its bound and counts one more stall exactly when its outcome is `no_change`, `failed`, `interrupted` or `validation_failed` or an error is given; every other outcome halves it and resets the count. The lease is freed and the next wake is due after the new interval. |
| Continuation.StallsDouble | src/goal/projectGoalStore.ts:248-254 | k wakes in a row that change nothing, fail, are interrupted, fail validation or give an error make the interval min(max, i * 2^k) and count k stalls. |
| Continuation.ProgressHalves | src/goal/projectGoalStore.ts:255-256 | k other wakes in a row, replans and waits included, make the interval max(min, floor(i / 2^k)). |
| Continuation.LeaseEndsExactlyBy | src/goal/projectGoalStore.ts:214-241 | A wake loses its lease exactly by settling, or to another acquisition after the expiry. |
| Continuation.LeaseIsExclusive | src/goal/projectGoalStore.ts:214-241 | Until its lease expires a wake keeps it through every sequence of operations of others, none of which settles anything. |
| Continuation.SupersededOwnerSettlesNothing | src/goal/projectGoalStore.ts:232-241 | A first owner can settle after a second acquisition exactly if its lease had not expired when the second came. |
| GoalContinuation.WokenWhenDue | src/goal/goalContinuation.ts:55-71 | After a settled wake, a scheduled goal that can run is woken exactly when its new interval has passed. |
| GoalContinuation.WokenIff | src/goal/goalContinuation.ts:44-71 | A goal is woken if and only if it is stored and attached, its decision is not to stop, its time has come or is waived, and no lease outlasts the present; the first of these that fails is the reason of the skip. |
| GoalContinuation.ExecutedSpends | src/goal/goalController.ts:143-218 | A turn that its executor settles once, finished or failed, spends one turn of the budget. |
| GoalContinuation.Service.ExecuteTurn | src/goal/goalContinuation.ts:93-140 | One turn runs under its own lease; the continuation row is then settled with the recorded outcome, or with `failed` or `interrupted` and the message if the turn threw, and the lease is free. |
| GoalContinuation.Service.Run | src/goal/goalContinuation.ts:73-147 | The loop ends: with `maxTurns` set it executes at most `maxTurns - consumption.turns` turns, each decided non-stop under the lease of its own owner, and charges exactly those; it goes on after a turn exactly in the foreground, until it is aborted, skipped or fails. |
| CheckpointVault.RecordKeepsValid | src/checkpoint/fileCheckpointService.ts:58-85 | Recording a change keeps the manifests sound and only adds blobs: a stored blob never changes. |
| CheckpointStack.TurnIsTracked | src/checkpoint/fileCheckpointService.ts:58-85 | After any sequence of truthfully recorded edits within the size limit, the manifest describes exactly the difference between the files before and after the turn. |
| CheckpointStack.TrackedRestoreUndoes | src/checkpoint/fileCheckpointService.ts:158-194 | Restoring such a manifest meets no conflict and gives back the files from before the turn. |
| CheckpointStack.TurnRestoresIffWithinLimit | src/checkpoint/fileCheckpointService.ts:254-286 | An unforced restore of a turn succeeds if and only if no edit of it touched content above the size limit, and otherwise changes nothing. |
| CheckpointStack.RestoreIsAllOrNothing | src/checkpoint/fileCheckpointService.ts:158-194 | One unforced restore of files reports a conflict and changes nothing, or restores every recorded path and touches no other. |
| CheckpointEffects.RestoreActsPathByPath | src/checkpoint/fileCheckpointService.ts:158-194 | In every mode, forced or not: with a conflict nothing changes and all conflicts are reported in order with their reasons; otherwise every path whose contents were kept holds what it held before the turn, and every other path, one that was too large to keep included, what it held before the restore. Mode `conversation` touches no file. |
| CheckpointEffects.RestoreConflictsIff | src/checkpoint/fileCheckpointService.ts:165-175 | A conflict is reported if and only if files are to be restored, without force, and some entry was not kept or its content is not the recorded one. |
| CheckpointEffects.RestoreListsPaths | src/checkpoint/fileCheckpointService.ts:176-194 | A successful restore lists exactly the paths of the kept entries, each once and in order. |
| CheckpointEffects.ConversationIsRestoredIff | src/checkpoint/fileCheckpointService.ts:196-212 | Unless there is a conflict, restoring a conversation fails without a recorded conversation or a callback, and otherwise ends as the callback does. |
| CheckpointStack.UndoIsAStack | src/checkpoint/fileCheckpointService.ts:158-252 | Any number of turns, undone from the newest to the oldest, all restore and give back the initial files exactly. |
| CheckpointStack.BothRestoresFilesBeforeFailing | src/checkpoint/fileCheckpointService.ts:196-200 | A restore in mode `both`, forced or not, does to the files what restoring the files alone does; unless there is a conflict it then fails exactly when no conversation is recorded, there is no callback, or the callback rejects. |
| LspFraming.FrontIsStable | src/codeIntel/lspProcess.ts:111-134 | What the head of the buffer is recognised as does not change when more bytes arrive. |
| LspHeaders.ContentIsTakenIff | src/codeIntel/lspProcess.ts:111-134 | A content is taken if and only if the first blank line ends a header that announces its length and that many bytes follow; a header that announces none is skipped. |
| LspHeaders.LengthFoundIff | src/codeIntel/lspProcess.ts:116-119 | The length is that of the first line that begins with `Content-Length:`, in any case, followed by blanks and digits. |
| LspFraming.DrainInTwo | src/codeIntel/lspProcess.ts:111-134 | Draining a concatenation equals draining its parts one after the other, for arbitrary bytes. |
| LspFraming.ChunksDoNotMatter | src/codeIntel/lspProcess.ts:46-49 | However a byte stream is cut into chunks, malformed headers included, the bodies and the rest depend only on the stream. |
| LspFraming.FramingRoundTrip | src/codeIntel/lspProcess.ts:104-134 | Messages framed by `send` and delivered in arbitrary chunks are read back exactly once, in order, with nothing left over. |
| LspFraming.AllHandledIff | src/codeIntel/lspProcess.ts:111-134 | When handling a body may throw out of the loop, every chunking of a stream takes all its bodies if and only if no body but the last one throws. |
| LspFraming.FeedingLosesNothing | src/codeIntel/lspProcess.ts:111-134 | Whether or not bodies throw, and whatever the buffer held before, the bodies taken so far and those still in the buffer are always those of the whole stream, and bodies wait only behind one that threw. |
| LspRestart.RestartSurvivesIff | src/codeIntel/lspProcess.ts:36-58 | `start` keeps the buffer of the last run: whatever the restarted server sends, in whatever chunks, is handled as sent if and only if the buffer holds no complete content, behind an exception for instance, and what is left of it holds no complete header, announces no length and ends with a line. |
| LspFraming.HeaderAnnounces | src/codeIntel/lspProcess.ts:104-109 | The header that `send` writes announces the length that `drain` reads. |
| LspProcess.LspProcess.OnData | src/codeIntel/lspProcess.ts:46-49 | The drain loop ends, leaves the buffer and the request table as the framing functions say, and throws exactly when the last body it took throws while it is handled. |
| LspProcess.HandlingKeepsAccounts | src/codeIntel/lspProcess.ts:136-152 | Whatever arrives, each request is settled at most once and an outcome, once given, stays. |
| LspProcess.HandlingIgnoresChunking | src/codeIntel/lspProcess.ts:111-152 | Two chunkings of one stream settle the same requests in the same way, provided that no body but the last one throws. |
| LspProcess.SentIsHandledIff | src/codeIntel/lspProcess.ts:111-152 | The messages framed by `send` are all handled however they are cut into chunks if and only if none before the last one is `null` or makes its listener throw. |
| LspProcess.NullHoldsBackTheNext | src/codeIntel/lspProcess.ts:120-140 | An input for the other case: behind a `null` body in one chunk a response stays in the buffer and its request stays pending; in a chunk of its own it settles the request. |
| LspProcess.SettledByFirstWithId | src/codeIntel/lspProcess.ts:136-152 | A waiting request is settled exactly when some message carries its id, by the first that does, whether that is a response or not. |
| LspProcess.NotificationsArePassedOn | src/codeIntel/lspProcess.ts:136-153 | The methods of the messages that carry no numeric id, and only those, are passed on to the listener, in the order of arrival. |
| LspProcess.ServerRequestIsTakenForAnswer | src/codeIntel/lspProcess.ts:136-152 | An input for the other case: a request of the server with an id that is waiting resolves the client's own request and is not passed on. |
| Redaction.Redactor.CloneContainer | src/events/processors.ts:41-60 | Filling a registered clone ends, on cyclic graphs too, finishes every newly visited container, and changes nothing that existed before. |
| Redaction.Process | src/events/processors.ts:30-32 | Redacting an event ends, leaves the heap of the input as it was, and yields a redaction of its data. |
| Redaction.ClonesTheVisible | src/events/processors.ts:35-61 | Exactly the containers that can be reached without passing a sensitive field get a clone, and each gets one. |
| Redaction.RedactionMirrors | src/events/processors.ts:35-61 | Clones point to each other exactly as their originals do, sensitive fields aside, so sharing and cycles are preserved. |
| Redaction.CloneOf | src/events/processors.ts:49-61 | Each clone has the slots of its original in order: the replacement under a sensitive key and the image of the value elsewhere; a `__proto__` slot becomes the prototype of the clone, or nothing if it holds no object. |
| Redaction.ClonesShowTheirOriginals | src/events/processors.ts:41-60 | Slot by slot a clone shows the replacement under a sensitive key, the clone of an array or plain object, and everything else as it is; a `__proto__` slot sets the prototype. The result is shown by the same rule. |
| Redaction.ResultLeadsTo | src/events/processors.ts:35-73 | The result reaches exactly the clones and what the visible foreign objects reach. |
| Redaction.RedactionIsSafeIff | src/events/processors.ts:35-73 | Whatever can be reached from the result is a new container or a foreign object and shows no sensitive field in clear, if and only if everything that foreign objects visible in the data lead to is foreign itself and shows none. |
| Redaction.PlainDataIsSafe | src/events/processors.ts:35-73 | Data in which no foreign object is visible is redacted safely. |
| Redaction.ForeignObjectLeaks | src/events/processors.ts:45-49 | An input for the other case: an instance of a class in a field is returned by reference, secret included. |
| JsonValue.CanonicalIndices | src/core/json.ts:97-104 | The test by way of `Number` accepts exactly the printed form of the indices below the length. |
| JsonValue.Walk.IsJsonValueInternal | src/core/json.ts:39-95 | The walk ends, restores `ancestors` on every exit, and accepts exactly if every path from the value is acyclic, avoids the ancestors and ends in sound nodes. |
| JsonValue.Walk.CheckArray | src/core/json.ts:62-72 | The array loop and the test of the own keys accept exactly arrays without holes and without other keys, all of whose elements are accepted. |
| JsonValue.Walk.CheckObject | src/core/json.ts:74-91 | The property loop accepts exactly plain objects with enumerable string-keyed data properties, all of whose values are accepted. |
| JsonValue.IsJsonValue | src/core/json.ts:20-22 | The check accepts exactly if every path from the value is acyclic and ends in valid leaves; sharing is allowed. |
| JsonTerms.AcceptedIff | src/core/json.ts:39-104 | A value is accepted if and only if it is `null`, a boolean, a string, a finite number or an object, and every route from it meets no object twice and ends in an array without holes, symbols and other keys or in a plain object of enumerable, string-keyed data properties, all of presentable values. |
| JsonValue.JsonIsATree | src/core/json.ts:12-22 | A value is accepted if and only if a finite tree writes it out in full, and that tree is unique. |
| JsonValue.PrintsWithoutLossIff | src/core/json.ts:12-73 | The tree of an accepted value survives being printed and read back if and only if the value reaches no negative zero and no node that inherits a `toJSON` which returns something else, along nodes that are printed as they are. |
| JsonValue.OnlyNegativeZeroIsLost | src/core/json.ts:12-51 | Where nothing inherits a `toJSON`, the tree survives if and only if no negative zero can be reached. |
| SandboxLifecycle.RunIsSafe | src/computer/e2bComputerUse.ts:233-329 | Every interleaving of starts, closes, creations, kills, timeouts and retries keeps the protocol invariant. |
| SandboxLifecycle.NoSandboxIsLost | src/computer/e2bComputerUse.ts:233-329 | On every run at most one creation is in flight, none beside a handle, and the sandboxes whose kill was not acknowledged are exactly the retained handle. |
| SandboxLifecycle.CleanupReportsTruthfully | src/computer/e2bComputerUse.ts:290-319 | A cleanup that reports success has killed its sandbox; one that gives up retains the handle. |
| SandboxLifecycle.CleanupEnds | src/computer/e2bComputerUse.ts:265-319 | In every run, whatever else happens and however often `close` is called, each cleanup that is begun takes at most seven steps after its first suspension; a close that joins one adds none. |
| SandboxRuns.KillsAreTriedThrice | src/computer/e2bComputerUse.ts:290-319 | A kill is tried three times: after fewer failures an acknowledged one ends the cleanup well and leaves no sandbox, and the third failure ends it badly with the handle kept. |
| SandboxRuns.CleanupIsNeverStuck | src/computer/e2bComputerUse.ts:265-319 | In every reachable state a running cleanup can go on, and exactly the steps of its own stage are possible. |
| ProjectSessions.SelectProjectSessions | src/config/projectSessionDirectory.ts:220-262 | The sweeps with their `changed` flag end and select, in entry order, exactly the least fixed point of the ownership rule. |
| ProjectSessions.OwnedIsLeast | src/config/projectSessionDirectory.ts:238-260 | `Owned` is closed under the rule and inside every set of entries that is. |
| ProjectSessions.SelectedIff | src/config/projectSessionDirectory.ts:214-262 | An entry is selected if and only if it is in every set that holds the sessions whose directories name the project and the children of its members that name no directory or declare their worktree. |
| ProjectSessions.OwnedHasChain | src/config/projectSessionDirectory.ts:238-260 | Every selected entry has a finite chain of distinct selected ancestors up to one that names the project. |
| ProjectSessions.UnownedIffUnfounded | src/config/projectSessionDirectory.ts:238-260 | An entry is left out exactly when it belongs to a group that can only vouch for itself, mutual parents for instance. |
| ProjectSessions.OrderDoesNotMatter | src/config/projectSessionDirectory.ts:220-262 | Reordering or repeating the entries selects the same ones. |
| ProjectSessions.UniquelySelectedIds | src/config/projectSessionDirectory.ts:264-282 | The result holds exactly the ids carried by some entry all of whose carriers are selected, where an entry may carry several ids or none. |
| SandboxLifecycle.Toolkit.Replay | src/computer/e2bComputerUse.ts:233-329 | Any interleaving of events, driven through the methods of the toolkit, ends in the state of that run and leaves exactly the handle alive. |
| GoalLifecycle.ResumeRestores | src/goal/goalService.ts:677-704 | Pausing and resuming gives back the goal, revision and time aside; resuming a blocked goal also clears its block audit and nothing else. |
| ClaimLifecycle.RenewalExtends | src/goal/projectGoalStore.ts:353-363 | Renewing a live claim extends its own lease and nothing else; an expired claim cannot be renewed. |
| Continuation.ReconfiguringClamps | src/goal/projectGoalStore.ts:167-212 | Whatever bounds are given, inverted ones included, reconfiguring sets each bound to the nearest value in its range and the interval to the nearest value between them, keeps the lease and the stall count, and repeats without effect. |
| GoalFrontier.FirstPlannedPrecedes | src/goal/goalService.ts:781-784 | Without explicit priorities the first planned item precedes the others. |
| GoalFrontier.PlannedItemIsActionableIff | src/goal/goalService.ts:768-811 | A planned item with completed dependencies is agent work or a waiting gate, except a user item given another class, which is left to no one. |
| ClaimFencing.DeadTokenChangesNothing | src/goal/projectGoalStore.ts:353-420 | An operation that presents a token without a row changes nothing. |
| GoalLifecycle.OnlyAgentWorkBegins | src/goal/goalService.ts:266-291 | Beginning runs exactly unfinished, undeferred agent work, changes no other item, and repeats without effect. |
| GoalContinuation.OutcomeIsTheRecordedOne | src/goal/goalContinuation.ts:114-119 | A wake settles with the outcome its run was recorded with, which a failed validation or an accepted completion may have changed. |
| ProjectSessions.ChildFollowsParents | src/config/projectSessionDirectory.ts:238-260 | A child of selected entries is selected unless it names only other directories and does not use the worktree it declares. |
| GoalLifecycle.RevisionDoesNotSteer | src/goal/goalService.ts:707-745 | Revising the wording keeps the next decision as it was, and blank criteria leave the old criteria in force. |
| JsonValue.NegativeZeroIsLost | src/core/json.ts:39-51 | An input for the other case: negative zero is accepted and read back as zero. |
| JsonValue.InheritedMethodIsPrinted | src/core/json.ts:62-72 | An input for the other case: an empty array that inherits a `toJSON` is accepted, and what the method returns is read back in its place. |
| GoalRevisions.Service.Update | src/goal/goalService.ts:137-745 | The service object over its port performs every operation as one atomic step of the stored goal. |
| GoalRevisions.Service.Block | src/goal/goalService.ts:450-491 | The imperative body of `block`, counting loop included, realises the specified step. |
| GoalRevisions.Service.Settle | src/goal/goalService.ts:550-669 | The imperative body of `settleTurn`, request loop included, realises the specified step. |
| ProjectGoalStore.Store.UpdateSnapshot | src/goal/projectGoalStore.ts:726-772 | The transaction applies the update to the current snapshot and purges the claims of ended goals, as specified. |
| ProjectGoalStore.Store.ClaimNextWork | src/goal/projectGoalStore.ts:279-350 | The claiming transaction, with its search over the claim rows, realises the specified step. |
| ProjectGoalStore.Store.ClaimWorkItem | src/goal/projectGoalStore.ts:423-506 | The claim of a named item realises the specified step. |
| ProjectGoalStore.Store.RenewWorkClaim | src/goal/projectGoalStore.ts:353-363 | The read and the statement after it, nothing coming in between, realise the specified step and report success exactly for a live row. |
| ProjectGoalStore.Store.MarkClaimRunning | src/goal/projectGoalStore.ts:365-387 | The read and the statement after it, nothing coming in between, realise the specified step, and report success exactly when the token has a live row and the goal still has the item. |
| ProjectGoalStore.Store.ReleaseWorkClaim | src/goal/projectGoalStore.ts:389-420 | The read, the deletion and the rewriting of the item, nothing coming in between, realise the specified step, and report success exactly when the token has a row, expired or not. |
| ProjectGoalStore.Store.CompleteWorkClaim | src/goal/projectGoalStore.ts:508-549 | The read, the rewriting of the item and the deletion, nothing coming in between, realise the specified step, and report success exactly when evidence is given and the token has a live row on an unfinished item; the token is then gone. |
| ProjectGoalStore.Store.WriteItem | src/goal/projectGoalStore.ts:371-385 | One statement: rewrites the item in the snapshot as it is now, reports whether there was one to change, and keeps the tables coherent at whatever moment it runs. |
| ProjectGoalStore.Store.DeleteClaim | src/goal/projectGoalStore.ts:394-395 | One statement: deletes the row of the token, reports whether there was one, and keeps the tables coherent at whatever moment it runs. |
| ProjectGoalStore.Store.WriteLease | src/goal/projectGoalStore.ts:358-361 | One statement: moves the lease of the row of the token, expired or not, and keeps the tables coherent at whatever moment it runs. |
| ProjectGoalStore.Store.HandoffWork | src/goal/projectGoalStore.ts:551-634 | The handoff realises the specified step. |
| ProjectGoalStore.Store.AcquireContinuationLease | src/goal/projectGoalStore.ts:214-230 | Acquiring the continuation lease realises the specified step and reports whether it was free. |
| ProjectGoalStore.Store.SettleContinuation | src/goal/projectGoalStore.ts:232-277 | Settling a wake realises the specified step. |
| FileCheckpointService.Service.BeginTurn | src/checkpoint/fileCheckpointService.ts:312-340 | Beginning a turn returns the open checkpoint of this session and turn, a new one or the one already open, and throws exactly when the turn belongs to another session; the manifests and blobs stay sound. |
| FileCheckpointService.Service.RecordChange | src/checkpoint/fileCheckpointService.ts:58-85 | Merging a change into the entry of its path, with its blobs, keeps the vault sound and returns the checkpoint it went into, unless the turn belongs to another session, when it throws. |
| FileCheckpointService.Service.SealTurn | src/checkpoint/fileCheckpointService.ts:87-103 | Sealing returns the stored manifest with the given status and forgets the turn, returns nothing for a turn that is not open, and throws exactly for a turn of another session. |
| FileCheckpointService.Service.FindConflicts | src/checkpoint/fileCheckpointService.ts:214-252 | The loop over the entries returns exactly the paths whose present content is not the recorded one. |
| FileCheckpointService.Service.RestoreFiles | src/checkpoint/fileCheckpointService.ts:173-194 | The loop over the entries leaves the files as specified and lists the restored paths. |
| FileCheckpointService.Service.Restore | src/checkpoint/fileCheckpointService.ts:158-212 | A restore, in every mode, forced or not, ends in the specified files and outcome, a rejecting conversation callback included. |
| GoalContinuation.Service.DecideWakeNow | src/goal/goalContinuation.ts:44-71 | The wake decision reads the store and returns what `DecideWake` says. |
| LspProcess.LspProcess.Request | src/codeIntel/lspProcess.ts:60-76 | A request gets an id that was never used and becomes pending. |
| LspProcess.LspProcess.OnTimeout | src/codeIntel/lspProcess.ts:64-67 | A request that times out leaves the table, so a late answer to it settles nothing. |
| LspProcess.LspProcess.OnExit | src/codeIntel/lspProcess.ts:54-57 | When the server exits every pending request is rejected and none stays pending. |
| SandboxLifecycle.Toolkit.StartSandbox | src/computer/e2bComputerUse.ts:233-254 | A start that need not wait leaves a handle or a pending creation, creates nothing beside a handle, and keeps the invariant. |
| SandboxLifecycle.Toolkit.ResumeStart | src/computer/e2bComputerUse.ts:233-254 | A start that waited does the same if the cleanup succeeded, and begins no creation beside a handle or after a failed cleanup. |
| SandboxLifecycle.Toolkit.OnCreated | src/computer/e2bComputerUse.ts:244-247 | A created sandbox displaces no handle and is then the only one running, with no creation in flight. |
| SandboxLifecycle.Toolkit.OnCreationFailed | src/computer/e2bComputerUse.ts:244-250 | A failed creation leaves nothing running and nothing in flight. |
| SandboxLifecycle.Toolkit.OnCreationSettled | src/computer/e2bComputerUse.ts:248-250 | A settled creation is no longer pending, and settling never forgets a creation that is in flight. |
| SandboxLifecycle.Toolkit.CloseSandbox | src/computer/e2bComputerUse.ts:321-329 | A second close joins the first; a close that ends at once had nothing running or in flight, and otherwise it takes up exactly the sandbox that runs. |
| SandboxLifecycle.Toolkit.OnAwaitSucceeded | src/computer/e2bComputerUse.ts:265-274 | The cleanup goes on to kill the one running sandbox, which is the handle. |
| SandboxLifecycle.Toolkit.OnAwaitFailed | src/computer/e2bComputerUse.ts:275-287 | A cleanup that ends after a failed wait leaves no sandbox running; otherwise it takes up the one that runs. |
| SandboxLifecycle.Toolkit.OnKillAcknowledged | src/computer/e2bComputerUse.ts:302-304 | An acknowledged kill, always of the one running sandbox, leaves nothing running, in flight or pending. |
| SandboxLifecycle.Toolkit.OnKillFailed | src/computer/e2bComputerUse.ts:305-319 | A failed kill keeps its sandbox as the handle, and ends the cleanup exactly at the third attempt. |
| SandboxLifecycle.Toolkit.OnDelayOver | src/computer/e2bComputerUse.ts:305-319 | The next attempt is on the sandbox that still runs, and there are at most three. |
| SandboxLifecycle.Toolkit.OnCloseSettled | src/computer/e2bComputerUse.ts:324-326 | A settled cleanup leaves exactly what runs as the handle, and the next close starts afresh. |
| GoalEdits.CreateStores | src/goal/goalService.ts:137-163 | A typed objective makes a new active goal with the given criteria and budget, zero counters, empty logs and one open item; a blank one changes nothing. |
| GoalEdits.PlanStores | src/goal/goalService.ts:216-263 | A plan is accepted exactly on the stated conditions; the items then follow the retained ones in order, each with the fields asked for or their defaults, role scopes and exclusions included. |
| GoalEdits.DependenciesAreKnownIff | src/goal/goalService.ts:768-811 | Dependencies are known exactly when no item depends on itself or on an id that no item will have. |
| GoalEdits.ItemRequestStores | src/goal/goalService.ts:359-400 | A request with a typed note for an item of the goal waits behind the others, in place of an older one, with the status, evidence, reason and condition asked for. |
| GoalEdits.CompletionRequestStores | src/goal/goalService.ts:497-541 | A completion request with a typed note waits with its note and its references, each once. |
| GoalEdits.AnswerStores | src/goal/goalService.ts:403-443 | A typed answer to a gate makes it done on the reference of the user, and is refused for everything else. |
| GoalEdits.BlockStores | src/goal/goalService.ts:450-491 | A typed reason is recorded with its turn and count; the third report in a row that gives it blocks the goal, any other leaves it active. |
| GoalEdits.ProgressStores | src/goal/goalService.ts:171-213 | A typed note of an active goal is the last entry of its evidence afterwards. |
| GoalEdits.TransitionStores | src/goal/goalService.ts:677-704 | A goal that is neither complete nor cancelled takes the status asked for, and resuming from a block forgets its audit. |
| GoalEdits.RetargetStores | src/goal/goalService.ts:322-356 | A typed objective that differs is stored without the space around it, forces a replan and drops the no-follow-up reason. |
| GoalEdits.ForceReplanStores | src/goal/goalService.ts:294-314 | An active goal is made to replan for the reason given, or by the wish of the operator. |
| GoalEdits.ReviseStores | src/goal/goalService.ts:707-745 | The wording is revised unless the revision has moved or no objective would be left. |
| Continuation.LeaseIsTakenIff | src/goal/projectGoalStore.ts:214-230 | A lease is taken exactly when none outlasts the present, and then runs for the time asked for. |
| Continuation.FirstConfiguration | src/goal/projectGoalStore.ts:167-212 | A first configuration starts at the lower bound, free and without a history. |
| ClaimEntitlement.ExpiredHandoffIsRefused | src/goal/projectGoalStore.ts:551-575 | A token without a live claim hands nothing off. |
| CheckpointEffects.FirstChangeIsRecorded | src/checkpoint/fileCheckpointService.ts:254-286 | The first change of a path is recorded with the digests and sizes of both contents, which are kept exactly when both fit the limit. |
| CheckpointEffects.LaterChangeIsMerged | src/checkpoint/fileCheckpointService.ts:254-286 | A later change keeps the before side and replaces the after side; an entry that was not kept once stays so. |
| CheckpointEffects.ChangesAreCounted | src/checkpoint/fileCheckpointService.ts:58-103 | The revision of a checkpoint counts its changes, a begun turn starts without any, and sealing gives the manifest its status and forgets the turn. |
| CheckpointEffects.ForeignTurnsAreRefused | src/checkpoint/fileCheckpointService.ts:127-134 | A turn that is open under another session is refused by every operation. |
| CheckpointEffects.OnlyOwnCheckpointsRestore | src/checkpoint/fileCheckpointService.ts:127-134 | A checkpoint of another session, or none, is not found, and nothing is touched. |
| JsonValue.FieldsKeepTheirNames | src/core/json.ts:34-37 | The fields that printing keeps are those that print something, in order and each under its own name. |
| SandboxRuns.StartCreatesIff | src/computer/e2bComputerUse.ts:233-254 | A start creates a sandbox exactly when there is a key, no cleanup, no handle and no pending creation. |
| SandboxRuns.WaitingStartCreatesIff | src/computer/e2bComputerUse.ts:233-254 | A start that waited does the same after a cleanup that succeeded. |
| SandboxRuns.CloseTakesUp | src/computer/e2bComputerUse.ts:265-329 | A close joins a running cleanup, and otherwise takes up the handle, the pending creation, or nothing. |
| SandboxRuns.CreationsSettleOnce | src/computer/e2bComputerUse.ts:240-252 | An answered creation settles exactly once and is then no longer pending. |
| SandboxRuns.AwaitedSandboxIsKilled | src/computer/e2bComputerUse.ts:265-274 | A creation the cleanup waits for is taken up exactly when it has settled with a sandbox. |
| SandboxRuns.FailedWaitEnds | src/computer/e2bComputerUse.ts:275-287 | A wait that fails takes up a handle that is there, ends if the creation is over, and otherwise gives up. |
| GoalEdits.BeginStores | src/goal/goalService.ts:266-291 | Agent work that is open or claimed is made to run; running work runs on, and everything else is refused. |
| ClaimEntitlement.WritesAreExact | src/goal/projectGoalStore.ts:365-549 | A write of a claim holder changes exactly the items with the id that are in a fitting status; completing counts one delivery and advances the plan, and without such an item nothing changes. |
| ClaimEntitlement.SnapshotStores | src/goal/projectGoalStore.ts:726-772 | A goal loses its claims exactly when it is archived, or stored as complete, cancelled or blocked; no other claim is touched. |
| ClaimEntitlement.RenewalStores | src/goal/projectGoalStore.ts:353-363 | Renewing a live claim starts its lease anew, for at least a second and fifteen minutes by default, and changes nothing else. |
| ClaimEntitlement.MarkingStores | src/goal/projectGoalStore.ts:365-387 | Marking a live claim makes its item run and keeps the claim. |
| ClaimEntitlement.ReleaseStores | src/goal/projectGoalStore.ts:389-420 | Releasing a claim, live or not, removes it and opens its item again if that is claimed or running. |
| ClaimEntitlement.CompletingStores | src/goal/projectGoalStore.ts:508-549 | Completing a live claim with evidence finishes its item; the claim goes exactly when the item was not done already. |
| ClaimEntitlement.ExpiredClaimOnlyReleases | src/goal/projectGoalStore.ts:353-387 | A claim whose lease is over can be neither renewed, marked nor completed. |
| ClaimEntitlement.CompletionNeedsEvidence | src/goal/projectGoalStore.ts:508-510 | A claim is not completed without evidence. |
| GoalEdits.SettlementTouches | src/goal/goalService.ts:644-668 | A new settlement takes its time from the receipt, uses up the pending requests, and changes nothing but the counters, logs, items and plan fields it is about. |
| GoalEdits.FailureIsReported | src/goal/goalController.ts:189-218 | A failed or interrupted turn of an active goal is settled as one turn without calls and evidence, with at most 500 characters of its message. |

## Left out

- SQLite, WAL mode, JSON columns and file-system calls: tables, rows and files are maps, and each transaction is one step.
- ProjectGoalStore.Store.RenewWorkClaim: one step, although the source reads and updates the claim in separate statements; `WriteLease` is the second one on its own.
- ProjectGoalStore.Store.MarkClaimRunning: one step, although the source reads the claim and writes the goal separately; `WriteItem` is the write on its own.
- ProjectGoalStore.Store.ReleaseWorkClaim: one step, although the source reads the claim, deletes it and writes the goal separately; `DeleteClaim` and `WriteItem` are these on their own.
- ProjectGoalStore.Store.CompleteWorkClaim: one step, although the source reads the claim, writes the goal and deletes the claim separately; `WriteItem` and `DeleteClaim` are these on their own. The run theorems of `ClaimFencing` and `ClaimLifecycle` admit the single statements anywhere in a run.
- `normalizeGoal`: goals are assumed to be well formed, so reading back a stored goal is the identity.
- Session attachment is a map from goals to the attached session; the event log, summaries, histories, handoff listings and legacy import are not part of this model.
- Messages of refusals and errors: a refusal is one of the reasons of a datatype.
- `isExploratoryTool`: whether a tool only reads is a field of the tool call.
- `settleTurn` takes the time of a receipt from the receipt; the fallback to the present for a receipt without one is not modelled.
- Ordering of ISO timestamps by `localeCompare` is the order of the logical clock.
- GoalStall.StallBound: the set of items held by other agents is fixed over the idle turns, and the executing runtime (`src/runtime/agentClient.ts:2620-2676`) is reduced to decide, begin, settle, release; its retry after a lost claim race is not modelled.
- GoalContinuation.Service.Run: other wakes, claims and service calls do not act between the turns of the loop, only the executor; the store itself is open to every interleaving in `ClaimFencing`.
- Prompt texts, `/goal` commands, GUI timers and the non-atomic fallback ports.
- Checkpoint listing and previews, corrupt manifests, path escapes, symbolic links and `realpath`; a path is its rank in collation order, and content is a byte sequence that is read and written atomically. A restore that fails between two files is not modelled.
- `JSON.parse` of a message body is a parameter, and which messages make their listener throw is a parameter too; a `Content-Length` beyond the safe integers, writing to the child process and its start are not modelled.
- The regular expressions of `isSensitiveKey`: the test of a key is a pure predicate, so the position that a global expression remembers between tests is not captured. Nor are getters, the extra properties of arrays, and the exception for a `__proto__` field whose value would close a cycle of prototypes.
- Array elements that are accessors, and proxies, in `isJsonValue`; `Number` is a parameter that reads back printed safe integers.
- `requireStartedSandbox`, the tools on top of the sandbox, an exception thrown synchronously by the factory, and a kill that is acknowledged only after its attempt timed out, which the code does not notice either.
- Reading and migrating the session files; an entry is what `asSessionFile` yields, and path normalisation is a function parameter.
- Cost counters in floating point, real clocks and UUID generation.
