/**
 * Delivery counters against the frontier: along every run, finished work is
 * covered by what was validated as delivered and by the gates users answered.
 */
module DeliveryLedger {
  import opened Text
  import opened GoalTypes
  import opened GoalController
  import opened GoalService
  import opened ClaimMutations
  import opened GoalRuns

  /** A goal and the number of gate answers it has accepted since its creation. */
  datatype Ledger = Ledger(goal: Option<Goal>, answered: nat)

  function LedgerStep(l: Ledger, op: GoalOp): Ledger {
    Ledger(GoalStep(l.goal, op),
           if IsCreate(op) then 0
           else if op.Service? && op.op.AnswerGateOp? && IsAccepted(l.goal, op) then l.answered + 1
           else l.answered)
  }

  predicate Covered(l: Ledger) {
    l.goal.Some? ==>
      && DistinctIds(l.goal.value.workItems)
      && CountDone(l.goal.value.workItems) <= l.goal.value.delivery.completedWorkItems + l.answered
  }

  // ---------------------------------------------------------------------------
  // Counting done items
  // ---------------------------------------------------------------------------

  /** Item `k` of `b` may be newly done; every other done item of `b` was done in `a`. */
  predicate DoneExceptAt(a: seq<WorkItem>, b: seq<WorkItem>, k: int) {
    |a| == |b| && forall i :: 0 <= i < |a| && i != k && b[i].status.Done? ==> a[i].status.Done?
  }

  lemma {:induction false} AtMostOneMoreDone(a: seq<WorkItem>, b: seq<WorkItem>, k: int)
    requires DoneExceptAt(a, b, k)
    ensures CountDone(b) <= CountDone(a) + if 0 <= k < |a| then 1 else 0
  {
    if a != [] {
      var n := |a| - 1;
      AtMostOneMoreDone(a[..n], b[..n], k);
    }
  }

  lemma {:induction false} AppendingOpenItems(retained: seq<WorkItem>, items: seq<WorkItem>)
    requires retained <= items
    requires forall i :: |retained| <= i < |items| ==> !items[i].status.Done?
    ensures CountDone(items) == CountDone(retained)
    decreases |items|
  {
    if |retained| < |items| {
      AppendingOpenItems(retained, items[..|items| - 1]);
    } else {
      assert items == retained;
    }
  }

  // ---------------------------------------------------------------------------
  // Steps
  // ---------------------------------------------------------------------------

  lemma PlanIsCovered(goal: Goal, input: PlanInput, at: Time)
    ensures var next := Plan(Some(goal), input, at).next.value;
      && CountDone(next.workItems) <= CountDone(goal.workItems)
      && next.delivery == goal.delivery
  {
    hide NormalizePlan, LastN, CountDone, Fingerprint;
    var retained := if input.replace then [] else goal.workItems;
    NothingIsDone();
    var planned := NormalizePlan(input.items, retained, at);
    if planned.Some? {
      AppendingOpenItems(retained, planned.value);
    }
  }

  lemma NothingIsDone()
    ensures CountDone([]) == 0
  {
  }

  lemma BeginIsCovered(goal: Goal, id: Id, at: Time)
    ensures var next := BeginWorkItem(Some(goal), id, at).next.value;
      && CountDone(next.workItems) <= CountDone(goal.workItems)
      && next.delivery == goal.delivery
  {
    var next := BeginWorkItem(Some(goal), id, at).next.value;
    AtMostOneMoreDone(goal.workItems, next.workItems, -1);
  }

  lemma AnswerIsCovered(goal: Goal, id: Id, answer: string, at: Time)
    ensures var step := AnswerUserGate(Some(goal), id, answer, at);
      && step.next.Some? && step.next.value.delivery == goal.delivery
      && CountDone(step.next.value.workItems) <= CountDone(goal.workItems) + if step.result.Accepted? then 1 else 0
  {
    var step := AnswerUserGate(Some(goal), id, answer, at);
    if step.result.Accepted? {
      AtMostOneMoreDone(goal.workItems, step.next.value.workItems, IndexOfId(goal.workItems, id));
    }
  }

  lemma SettledIsCovered(goal: Goal, input: SettleInput, applied: Applied)
    ensures var next := Settled(goal, input, applied);
      next.delivery.completedWorkItems - goal.delivery.completedWorkItems
          >= CountDone(next.workItems) - CountDone(goal.workItems)
  {
  }

  lemma HoldingIsCovered(goal: Goal, id: Id, at: Time)
    ensures CountDone(MarkRunning(goal, id, at).workItems) <= CountDone(goal.workItems)
    ensures CountDone(ReleaseItem(goal, id, at).workItems) <= CountDone(goal.workItems)
    ensures MarkRunning(goal, id, at).delivery == goal.delivery && ReleaseItem(goal, id, at).delivery == goal.delivery
  {
    hide CountDone;
    AtMostOneMoreDone(goal.workItems, MarkRunning(goal, id, at).workItems, -1);
    AtMostOneMoreDone(goal.workItems, ReleaseItem(goal, id, at).workItems, -1);
  }

  lemma CompletingIsCovered(goal: Goal, id: Id, refs: seq<string>, at: Time)
    requires DistinctIds(goal.workItems)
    ensures var next := CompleteItem(goal, id, refs, at);
      next.delivery.completedWorkItems - goal.delivery.completedWorkItems
          >= CountDone(next.workItems) - CountDone(goal.workItems)
  {
    hide CountDone, UniqueStrings;
    if CanComplete(goal, id) {
      var k :| 0 <= k < |goal.workItems| && goal.workItems[k].id == id;
      AtMostOneMoreDone(goal.workItems, CompleteItem(goal, id, refs, at).workItems, k);
    }
  }

  lemma ServiceStepIsCovered(l: Ledger, op: GoalOp)
    requires Covered(l) && op.Service? && l.goal.Some?
    ensures var next := LedgerStep(l, op);
      next.goal.Some? ==>
          CountDone(next.goal.value.workItems) <= next.goal.value.delivery.completedWorkItems + next.answered
  {
    hide Plan, BeginWorkItem, AnswerUserGate, Settled, ApplyRequests, CountDone;
    var goal := l.goal.value;
    var service := op.op;
    if IsQuiet(service) {
      hide Perform;
      QuietKeepsLedgers(l.goal, service, op.at);
    } else {
      match service
      case CreateGoal(objective, criteria, budget) => NewGoalHasNothingDone(objective, criteria, budget, op.at);
      case ClearGoal =>
      case PlanOp(plan) => PlanIsCovered(goal, plan, op.at);
      case BeginOp(id) => BeginIsCovered(goal, id, op.at);
      case AnswerGateOp(id, answer) => AnswerIsCovered(goal, id, answer, op.at);
      case SettleOp(input) =>
          SettledIsCovered(goal, input, ApplyRequests(goal, ObservedRefs(goal, input), input.receipt.at));
    }
  }

  lemma NewGoalHasNothingDone(objective: string, criteria: Option<string>, budget: Option<Budget>, at: Time)
    ensures CountDone(Create(objective, criteria, budget, at).workItems) == 0
  {
    assert Create(objective, criteria, budget, at).workItems[..0] == [];
  }

  lemma StepIsCovered(l: Ledger, op: GoalOp)
    requires Covered(l)
    ensures Covered(LedgerStep(l, op))
  {
    StepKeepsDistinctIds(l.goal, op);
    if l.goal.Some? {
      if op.Service? {
        hide GoalStep, CountDone;
        ServiceStepIsCovered(l, op);
      } else {
        hide MarkRunning, ReleaseItem, CompleteItem, CountDone;
        HoldingIsCovered(l.goal.value, op.itemId, op.at);
        CompletingIsCovered(l.goal.value, op.itemId, if op.ClaimCompletes? then UniqueStrings(op.refs) else [], op.at);
      }
    } else if IsCreate(op) {
      NewGoalHasNothingDone(op.op.objective, op.op.criteria, op.op.budget, op.at);
    }
  }

  function LedgerRun(l: Ledger, ops: seq<GoalOp>): Ledger
    decreases |ops|
  {
    if ops == [] then l else LedgerRun(LedgerStep(l, ops[0]), ops[1..])
  }

  /** Along every run from nothing, ids are distinct and done items never exceed deliveries plus answered gates. */
  lemma {:induction false} DoneIsDelivered(l: Ledger, ops: seq<GoalOp>)
    requires Covered(l)
    ensures Covered(LedgerRun(l, ops))
    decreases |ops|
  {
    if ops != [] {
      StepIsCovered(l, ops[0]);
      DoneIsDelivered(LedgerStep(l, ops[0]), ops[1..]);
    }
  }
}
