/**
 * The continuation service: deciding whether a goal may be woken, and the loop
 * that runs one turn, or turn after turn in the foreground, each under its own
 * lease on the continuation row.
 */
module GoalContinuation {
  import opened Text
  import opened GoalTypes
  import opened GoalController
  import opened GoalService
  import opened GoalTables
  import opened ProjectGoalStore
  import C = Continuation

  datatype SkipReason = NoGoal | NoSession | Stopped | NotDue | Leased

  datatype WakeDecision =
    | WakeUp(sessionId: Id, decision: Decision)
    | Skip(reason: SkipReason)

  /** Whether the goal may be woken now; a forced wake ignores the schedule but not the lease. */
  ghost function DecideWake(goals: map<Id, GoalRow>, row: Option<C.ContinuationRow>, session: Option<Id>,
                            goalId: Id, force: bool, now: Time): WakeDecision {
    var goal := ReadSnapshot(goals, goalId);
    if goal.None? then Skip(NoGoal)
    else if row.None? || session.None? then Skip(NoSession)
    else
      var decision := Decide(goal, {});
      if decision.Stop? then Skip(Stopped)
      else if !force && row.value.mode.Scheduled? && row.value.nextWakeAt.Some? && row.value.nextWakeAt.value > now
          then Skip(NotDue)
      else if C.LeaseHeld(row.value, now) then Skip(Leased)
      else WakeUp(session.value, decision)
  }

  predicate IsStored(goals: map<Id, GoalRow>, goalId: Id) {
    goalId in goals && !goals[goalId].archived
  }

  predicate IsDueBy(row: C.ContinuationRow, now: Time) {
    row.mode == C.Scheduled && row.nextWakeAt.Some? ==> row.nextWakeAt.value <= now
  }

  predicate IsLeasedAt(row: C.ContinuationRow, now: Time) {
    row.leaseOwner != None && row.leaseExpiresAt.Some? && now < row.leaseExpiresAt.value
  }

  /**
   * A goal is woken exactly when it is stored and attached to a session, its decision
   * is not to stop, its time has come or is waived, and no wake holds its lease; the
   * first of these that fails is the reason given.
   */
  lemma WokenIff(goals: map<Id, GoalRow>, row: Option<C.ContinuationRow>, session: Option<Id>, goalId: Id,
                 force: bool, now: Time)
    ensures var wake := DecideWake(goals, row, session, goalId, force, now);
      if !IsStored(goals, goalId) then wake == Skip(NoGoal)
      else if row == None || session == None then wake == Skip(NoSession)
      else
        var decision := Decide(Some(goals[goalId].goal), {});
        if decision.Stop? then wake == Skip(Stopped)
        else if !force && !IsDueBy(row.value, now) then wake == Skip(NotDue)
        else if IsLeasedAt(row.value, now) then wake == Skip(Leased)
        else wake == WakeUp(session.value, decision)
  {
    hide Decide;
  }

  /** Once a wake has settled, a scheduled goal that can run is woken exactly when its interval has passed. */
  lemma WokenWhenDue(goals: map<Id, GoalRow>, row: C.ContinuationRow, session: Id, goalId: Id, owner: Id,
                     outcome: Outcome,
                     error: Option<string>, settledAt: Time, now: Time)
    requires row.leaseOwner == Some(owner) && row.mode.Scheduled?
    requires ReadSnapshot(goals, goalId).Some? && !Decide(ReadSnapshot(goals, goalId), {}).Stop?
    ensures var settled := C.Settle(row, owner, outcome, error, settledAt);
            DecideWake(goals, Some(settled), Some(session), goalId, false, now)
            == if now >= settledAt + settled.currentInterval * 1000
                then WakeUp(session, Decide(ReadSnapshot(goals, goalId), {}))
               else Skip(NotDue)
  {
    hide Decide;
  }

  /** What became of a turn that the executor was given. */
  datatype TurnResult =
    | Finished(result: RunResult)
    | Threw(runId: Id, interrupted: bool, message: string)

  /** Everything the loop reads from outside, per iteration. */
  datatype Environment = Environment(
    owner: nat -> Id,
    result: nat -> TurnResult,
    aborted: nat -> bool,
    startedAt: nat -> Time,
    settledAt: nat -> Time)

  datatype RunReport = RunReport(turns: nat, skipped: Option<SkipReason>, failed: bool)

  /** A turn that was executed, with the continuation row as it stood meanwhile. */
  datatype LoggedTurn = LoggedTurn(decision: Decision, owner: Id, row: C.ContinuationRow)

  function ResultId(r: TurnResult): Id {
    "goal-turn:" + if r.Finished? then r.result.runId else r.runId
  }

  /** The results from `from` on carry ids the goal does not retain, all different. */
  predicate FreshResults(goal: Goal, env: Environment, from: nat, n: nat) {
    && (forall i | from <= i < n :: !HasReceipt(goal.turnReceipts, ResultId(env.result(i))))
    && (forall i, j | from <= i < n && i < j < n :: ResultId(env.result(i)) != ResultId(env.result(j)))
  }

  /** The executor begins the selected item and settles the run, finished or not. */
  function Executed(goal: Goal, decision: Decision, outcome: TurnResult, startedAt: Time, at: Time): Option<Goal> {
    var works := decision.Run? && decision.workItemId.Some?;
    var begun := if works then BeginWorkItem(Some(goal), decision.workItemId.value, startedAt).next else Some(goal);
    if outcome.Finished? then SettleGoalRun(begun, outcome.result, decision)
    else SettleGoalRunFailure(begun, outcome.runId, if decision.Run? then decision.workItemId else None,
                              outcome.interrupted, Some(outcome.message), at)
  }

  lemma SettledSpends(goal: Goal, input: SettleInput)
    requires !HasReceipt(goal.turnReceipts, input.receipt.id)
    ensures var next := SettleTurn(Some(goal), input).next;
      && next.Some? && next.value.budget == goal.budget
      && next.value.consumption.turns == goal.consumption.turns + input.receipt.usage.turns
      && forall id :: HasReceipt(next.value.turnReceipts, id) ==>
          HasReceipt(goal.turnReceipts, id) || id == input.receipt.id
  {
    hide ApplyRequests, CompletionAccepted, CompletionFailure, SettleReplanAudit, CountDone, LastN;
    var applied := ApplyRequests(goal, ObservedRefs(goal, input), input.receipt.at);
    var receipt := EffectiveReceipt(goal, input, applied);
    var next := Settled(goal, input, applied);
    forall r | r in next.turnReceipts
      ensures r in goal.turnReceipts || r.id == input.receipt.id
    {
      KeptElement(goal.turnReceipts + [receipt], TURN_RECEIPT_RETAIN, r);
    }
  }

  lemma KeptElement<T>(s: seq<T>, n: nat, x: T)
    requires x in LastN(s, n)
    ensures x in s
  {
  }

  lemma BeginSpendsNothing(goal: Goal, id: Id, at: Time)
    ensures var next := BeginWorkItem(Some(goal), id, at).next;
      && next.Some? && next.value.budget == goal.budget && next.value.consumption == goal.consumption
      && next.value.turnReceipts == goal.turnReceipts && next.value.status == goal.status
  {
  }

  /** A turn that the executor settles once spends one turn of the budget. */
  lemma ExecutedSpends(goal: Goal, decision: Decision, outcome: TurnResult, startedAt: Time, at: Time)
    requires goal.status.Active? && !HasReceipt(goal.turnReceipts, ResultId(outcome))
    ensures var next := Executed(goal, decision, outcome, startedAt, at);
      && next.Some? && next.value.budget == goal.budget
      && next.value.consumption.turns == goal.consumption.turns + 1
      && forall id :: HasReceipt(next.value.turnReceipts, id) ==>
          HasReceipt(goal.turnReceipts, id) || id == ResultId(outcome)
  {
    hide SettleTurn, BeginWorkItem, HasReceipt;
    var works := decision.Run? && decision.workItemId.Some?;
    if works {
      BeginSpendsNothing(goal, decision.workItemId.value, startedAt);
    }
    var begun := if works then BeginWorkItem(Some(goal), decision.workItemId.value, startedAt).next.value else goal;
    if outcome.Finished? {
      SettledSpends(begun, RunSettlement(begun, outcome.result, decision));
    } else {
      var receipt := Receipt(ResultId(outcome), outcome.runId, if decision.Run? then decision.workItemId else None, at,
                             if outcome.interrupted then Interrupted else Failed, [],
                             Validation(NotApplicable, Some(Reported(Clip(outcome.message, 500)))), Usage(1, 0, 0));
      SettledSpends(begun, SettleInput(receipt, [], [], false, None));
    }
  }

  /** The receipt of the run, or else the last one, names the outcome. */
  function OutcomeOf(goal: Goal, runId: Id): Outcome {
    var i := ReceiptIndex(goal.turnReceipts, runId);
    if i < |goal.turnReceipts| then goal.turnReceipts[i].outcome
    else if goal.turnReceipts != [] then goal.turnReceipts[|goal.turnReceipts| - 1].outcome
    else NoChange
  }

  function ReceiptIndex(receipts: seq<Receipt>, runId: Id): (i: nat)
    ensures i <= |receipts| && (i < |receipts| ==> receipts[i].runId == runId)
  {
    if receipts == [] || receipts[0].runId == runId then 0 else 1 + ReceiptIndex(receipts[1..], runId)
  }

  lemma {:induction false} LastReceiptIsFound(receipts: seq<Receipt>, runId: Id)
    requires receipts != [] && receipts[|receipts| - 1].runId == runId
    requires forall i :: 0 <= i < |receipts| - 1 ==> receipts[i].runId != runId
    ensures ReceiptIndex(receipts, runId) == |receipts| - 1
  {
    if |receipts| > 1 {
      LastReceiptIsFound(receipts[1..], runId);
    }
  }

  /** The outcome that a wake settles with is the one its own run was recorded with, not the one it reported. */
  lemma OutcomeIsTheRecordedOne(goal: Goal, result: RunResult, decision: Decision)
    requires goal.status.Active? && !HasReceipt(goal.turnReceipts, "goal-turn:" + result.runId)
    requires forall r :: r in goal.turnReceipts ==> r.runId != result.runId
    ensures SettleGoalRun(Some(goal), result, decision).Some?
    ensures var input := RunSettlement(goal, result, decision);
            OutcomeOf(SettleGoalRun(Some(goal), result, decision).value, result.runId)
            == EffectiveReceipt(goal, input, ApplyRequests(goal, ObservedRefs(goal, input), input.receipt.at)).outcome
  {
    hide ApplyRequests, ObservedRefs, CompletionAccepted, CompletionFailure, SettleReplanAudit, CountDone,
         CountVerified, Reopen, ToolEvidence, ToolRefs;
    var input := RunSettlement(goal, result, decision);
    var receipt := EffectiveReceipt(goal, input, ApplyRequests(goal, ObservedRefs(goal, input), input.receipt.at));
    var kept := LastN(goal.turnReceipts + [receipt], TURN_RECEIPT_RETAIN);
    LastIsOwn(goal.turnReceipts, receipt);
    LastReceiptIsFound(kept, result.runId);
  }

  lemma LastIsOwn(receipts: seq<Receipt>, own: Receipt)
    requires forall r :: r in receipts ==> r.runId != own.runId
    ensures var kept := LastN(receipts + [own], TURN_RECEIPT_RETAIN);
            && kept != [] && kept[|kept| - 1] == own
            && forall i :: 0 <= i < |kept| - 1 ==> kept[i].runId != own.runId
  {
  }

  function TurnsAffordable(goal: Goal, limit: nat): nat {
    if goal.consumption.turns >= limit then 0 else limit - goal.consumption.turns
  }

  lemma RunningIsAffordable(goal: Goal, limit: nat)
    requires goal.budget.Some? && goal.budget.value.maxTurns == Some(limit)
    ensures !Decide(Some(goal), {}).Stop? ==> goal.status.Active? && goal.consumption.turns < limit
  {
  }

  lemma FirstIsFresh(goal: Goal, env: Environment, i: nat, n: nat)
    requires i < n && FreshResults(goal, env, i, n)
    ensures !HasReceipt(goal.turnReceipts, ResultId(env.result(i)))
  {
  }

  lemma LaterResultsStayFresh(goal: Goal, next: Goal, env: Environment, i: nat, n: nat)
    requires i < n && FreshResults(goal, env, i, n)
    requires forall id :: HasReceipt(next.turnReceipts, id) ==>
        HasReceipt(goal.turnReceipts, id) || id == ResultId(env.result(i))
    ensures FreshResults(next, env, i + 1, n)
  {
  }

  /** What one pass of the loop did. */
  datatype Attempt =
    | Skipped(reason: SkipReason)
    | Taken(next: Goal, logged: LoggedTurn, foreground: bool, threw: bool)

  predicate InForeground(modeOverride: Option<C.WakeMode>, row: C.ContinuationRow) {
    if modeOverride.Some? then modeOverride.value.Foreground? else row.mode.Foreground?
  }

  /** The foreground is asked for, or is the mode of the goal and nothing else is asked for. */
  predicate RunsOn(modeOverride: Option<C.WakeMode>, row: C.ContinuationRow) {
    modeOverride == Some(C.Foreground) || (modeOverride == None && row.mode == C.Foreground)
  }

  predicate TurnTaken(goal: Goal, a: Attempt, env: Environment, i: nat, n: nat)
    requires a.Taken?
  {
    && a.next.budget == goal.budget && a.next.consumption.turns == goal.consumption.turns + 1
    && !a.logged.decision.Stop? && a.logged.row.leaseOwner == Some(a.logged.owner)
    && FreshResults(a.next, env, i + 1, n)
  }

  class Service {
    const store: Store

    constructor (store: Store)
      ensures this.store == store
    {
      this.store := store;
    }

    method DecideWakeNow(goalId: Id, force: bool, now: Time) returns (d: WakeDecision)
      ensures d == DecideWake(store.goals,
        if goalId in store.continuations then Some(store.continuations[goalId]) else None,
        if goalId in store.sessions then Some(store.sessions[goalId]) else None, goalId, force, now)
    {
      var goal := ReadSnapshot(store.goals, goalId);
      if goal.None? {
        return Skip(NoGoal);
      }
      if goalId !in store.continuations || goalId !in store.sessions {
        return Skip(NoSession);
      }
      var row := store.continuations[goalId];
      var decision := DecideGoalExecution(goal, {});
      if decision.Stop? {
        return Skip(Stopped);
      }
      if !force && row.mode.Scheduled? && row.nextWakeAt.Some? && row.nextWakeAt.value > now {
        return Skip(NotDue);
      }
      if C.LeaseHeld(row, now) {
        return Skip(Leased);
      }
      d := WakeUp(store.sessions[goalId], decision);
    }

    /** One turn under the lease of `owner`: execute, store, settle the continuation. */
    method ExecuteTurn(goalId: Id, goal: Goal, decision: Decision, owner: Id, outcome: TurnResult,
                       startedAt: Time, settledAt: Time, aborted: bool) returns (logged: LoggedTurn)
      requires store.Valid() && ReadSnapshot(store.goals, goalId) == Some(goal) && goal.status.Active?
      requires goalId in store.continuations && store.continuations[goalId].leaseOwner == Some(owner)
      requires Executed(goal, decision, outcome, startedAt, settledAt).Some?
      modifies store`goals, store`claims, store`continuations
      ensures store.Valid()
      ensures ReadSnapshot(store.goals, goalId) == Executed(goal, decision, outcome, startedAt, settledAt)
      ensures goalId in store.continuations && store.continuations[goalId].leaseOwner.None?
      ensures store.continuations[goalId].mode == old(store.continuations[goalId].mode)
      ensures logged == LoggedTurn(decision, owner, old(store.continuations[goalId]))
      ensures var reported := if outcome.Finished?
          then OutcomeOf(ReadSnapshot(store.goals, goalId).value, outcome.result.runId)
          else if aborted then Interrupted else Failed;
        store.continuations[goalId] == C.Settle(old(store.continuations[goalId]), owner, reported,
          if outcome.Finished? then None else Some(outcome.message), settledAt)
    {
      hide Executed;
      var next := Executed(goal, decision, outcome, startedAt, settledAt);
      store.UpdateSnapshot(goalId, next);
      logged := LoggedTurn(decision, owner, store.continuations[goalId]);
      if outcome.Finished? {
        store.SettleContinuation(goalId, owner, OutcomeOf(next.value, outcome.result.runId), None, settledAt);
      } else {
        store.SettleContinuation(
            goalId, owner, if aborted then Interrupted else Failed, Some(outcome.message), settledAt);
      }
    }

    /** Decide, take the lease, execute; a skipped wake leaves everything as it was. */
    method AttemptTurn(goalId: Id, modeOverride: Option<C.WakeMode>, force: bool, env: Environment, i: nat,
                       goal: Goal, limit: nat, ghost n: nat) returns (a: Attempt)
      requires store.Valid() && ReadSnapshot(store.goals, goalId) == Some(goal)
      requires goal.budget.Some? && goal.budget.value.maxTurns == Some(limit)
      requires n == i + TurnsAffordable(goal, limit) && FreshResults(goal, env, i, n)
      modifies store`goals, store`claims, store`continuations
      ensures store.Valid()
      ensures a.Skipped? ==> store.goals == old(store.goals) && store.continuations == old(store.continuations)
      ensures a.Taken? ==> i < n && TurnTaken(goal, a, env, i, n)
      ensures a.Taken? ==> ReadSnapshot(store.goals, goalId) == Some(a.next)
      ensures a.Taken? ==> goalId in store.continuations && store.continuations[goalId].leaseOwner.None?
      ensures a.Taken? ==> goalId in old(store.continuations)
      ensures a.Taken? ==> a.foreground == InForeground(modeOverride, store.continuations[goalId])
      ensures a.Taken? ==> store.continuations[goalId].mode == old(store.continuations[goalId].mode)
    {
      hide Executed, Decide, HasReceipt, FreshResults, Coherent;
      var wake := DecideWakeNow(goalId, force, env.startedAt(i));
      if wake.Skip? {
        return Skipped(wake.reason);
      }
      RunningIsAffordable(goal, limit);
      var foreground := InForeground(modeOverride, store.continuations[goalId]);
      var owner := env.owner(i);
      var acquired := store.AcquireContinuationLease(goalId, owner, env.startedAt(i), 15 * 60_000);
      if !acquired {
        return Skipped(Leased);
      }
      var outcome := env.result(i);
      FirstIsFresh(goal, env, i, n);
      ExecutedSpends(goal, wake.decision, outcome, env.startedAt(i), env.settledAt(i));
      var logged := ExecuteTurn(
          goalId, goal, wake.decision, owner, outcome, env.startedAt(i), env.settledAt(i), env.aborted(i + 1));
      var next := ReadSnapshot(store.goals, goalId).value;
      LaterResultsStayFresh(goal, next, env, i, n);
      a := Taken(next, logged, foreground, outcome.Threw?);
    }

    /**
     * Runs one turn, or in the foreground as many as the goal allows. With a limit on turns and an executor
     * that settles every turn once, the loop ends, the limit is never exceeded, and every turn runs while the
     * continuation row names its own lease, which is free again when the loop is left.
     */
    method Run(goalId: Id, modeOverride: Option<C.WakeMode>, force: bool, env: Environment, goal: Goal, limit: nat)
        returns (report: RunReport, log: seq<LoggedTurn>)
      requires store.Valid()
      requires ReadSnapshot(store.goals, goalId) == Some(goal)
      requires goal.budget.Some? && goal.budget.value.maxTurns == Some(limit)
      requires FreshResults(goal, env, 0, TurnsAffordable(goal, limit))
      modifies store`goals, store`claims, store`continuations
      ensures store.Valid()
      ensures |log| <= TurnsAffordable(goal, limit)
      ensures report.turns == if report.failed then |log| - 1 else |log|
      ensures var after := ReadSnapshot(store.goals, goalId);
        && after.Some? && after.value.budget == goal.budget
        && after.value.consumption.turns == goal.consumption.turns + |log|
      ensures forall t :: t in log ==> !t.decision.Stop? && t.row.leaseOwner == Some(t.owner)
      ensures log != [] ==> goalId in store.continuations && store.continuations[goalId].leaseOwner.None?
      ensures log == [] ==> store.goals == old(store.goals) && store.continuations == old(store.continuations)
      ensures report.skipped.Some? || report.failed || env.aborted(|log|) || |log| == 1
      ensures |log| > 1 ==> RunsOn(modeOverride, store.continuations[goalId])
      ensures report.skipped.Some? || report.failed || env.aborted(|log|)
        || (goalId in store.continuations && !RunsOn(modeOverride, store.continuations[goalId]))
    {
      hide FreshResults, Coherent, HasReceipt;
      var turns := 0;
      log := [];
      var current := goal;
      ghost var n := TurnsAffordable(goal, limit);
      while !env.aborted(turns)
        invariant store.Valid()
        invariant ReadSnapshot(store.goals, goalId) == Some(current)
        invariant current.budget == goal.budget && current.consumption.turns == goal.consumption.turns + turns
        invariant turns == |log| <= n
        invariant FreshResults(current, env, turns, n)
        invariant forall t :: t in log ==> !t.decision.Stop? && t.row.leaseOwner == Some(t.owner)
        invariant log != [] ==> goalId in store.continuations && store.continuations[goalId].leaseOwner.None?
        invariant log != [] ==> InForeground(modeOverride, store.continuations[goalId])
        invariant log == [] ==> store.goals == old(store.goals) && store.continuations == old(store.continuations)
        decreases n - turns
      {
        var a := AttemptTurn(goalId, modeOverride, force || turns > 0, env, turns, current, limit, n);
        if a.Skipped? {
          return RunReport(turns, Some(a.reason), false), log;
        }
        log := log + [a.logged];
        current := a.next;
        if a.threw {
          return RunReport(turns, None, true), log;
        }
        turns := turns + 1;
        if !a.foreground {
          break;
        }
      }
      report := RunReport(turns, None, false);
    }
  }
}
