/** Runs of one goal under the service mutations and the claim mutations of the store. */
module GoalRuns {
  import opened Text
  import opened GoalTypes
  import opened GoalController
  import opened GoalService
  import opened ClaimMutations

  datatype GoalOp =
    | Service(op: ServiceOp, at: Time)
    | ClaimRuns(itemId: Id, at: Time)
    | ClaimReleases(itemId: Id, at: Time)
    | ClaimCompletes(itemId: Id, refs: seq<string>, at: Time)

  function GoalStep(current: Option<Goal>, op: GoalOp): Option<Goal> {
    match op
    case Service(service, at) => Perform(current, service, at).next
    case ClaimRuns(id, at) => if current.None? then None else Some(MarkRunning(current.value, id, at))
    case ClaimReleases(id, at) => if current.None? then None else Some(ReleaseItem(current.value, id, at))
    case ClaimCompletes(id, refs, at) =>
      if current.None? then None
      else if UniqueStrings(refs) == [] then current
      else Some(CompleteItem(current.value, id, UniqueStrings(refs), at))
  }

  predicate IsCreate(op: GoalOp) {
    op.Service? && op.op.CreateGoal? && !IsBlank(op.op.objective)
  }

  /** A settlement that the goal accepts as new. */
  predicate IsNewSettlement(current: Option<Goal>, op: GoalOp) {
    op.Service? && op.op.SettleOp? && current.Some?
        && !HasReceipt(current.value.turnReceipts, op.op.settlement.receipt.id)
  }

  /** The service accepts the operation, so its effect is stored. */
  predicate IsAccepted(current: Option<Goal>, op: GoalOp) {
    op.Service? && Perform(current, op.op, op.at).result.Accepted?
  }

  // ---------------------------------------------------------------------------
  // Identity of work items
  // ---------------------------------------------------------------------------

  predicate SameIds(a: seq<WorkItem>, b: seq<WorkItem>) {
    |a| == |b| && forall i :: 0 <= i < |a| ==> a[i].id == b[i].id
  }

  lemma RequestKeepsIds(a: Applied, request: ItemRequest, observed: set<string>, at: Time)
    ensures SameIds(a.workItems, ApplyRequest(a, request, observed, at).workItems)
  {
    hide Missing, UniqueStrings;
  }

  lemma {:induction false} AppliedKeepsIds(a: Applied, requests: seq<ItemRequest>, observed: set<string>, at: Time,
                                           k: nat)
    requires k <= |requests|
    ensures SameIds(a.workItems, ApplyPrefix(a, requests, observed, at, k).workItems)
  {
    if k > 0 {
      hide ApplyRequest;
      AppliedKeepsIds(a, requests, observed, at, k - 1);
      RequestKeepsIds(ApplyPrefix(a, requests, observed, at, k - 1), requests[k - 1], observed, at);
    }
  }

  lemma SettledKeepsIds(goal: Goal, input: SettleInput)
    ensures SameIds(
        goal.workItems,
        Settled(goal, input, ApplyRequests(goal, ObservedRefs(goal, input), input.receipt.at)).workItems)
  {
    AppliedKeepsIds(
        Unapplied(goal), goal.workItemRequests, ObservedRefs(goal, input), input.receipt.at, |goal.workItemRequests|);
  }

  // ---------------------------------------------------------------------------
  // Most mutations touch neither the frontier nor the ledgers
  // ---------------------------------------------------------------------------

  predicate IsQuiet(op: ServiceOp) {
    || op.ProgressOp? || op.ForceReplanOp? || op.RetargetOp? || op.RequestUpdateOp? || op.BlockOp?
    || op.RequestCompletionOp? || op.TransitionOp? || op.ReviseOp?
  }

  predicate SameLedgers(a: Goal, b: Goal) {
    && a.workItems == b.workItems && a.delivery == b.delivery && a.consumption == b.consumption
    && a.turnReceipts == b.turnReceipts && a.replanAudit == b.replanAudit
    && EvidenceRefs(a.evidence) >= EvidenceRefs(b.evidence)
    && (b.status.Complete? <==> a.status.Complete?)
  }

  lemma ProgressAddsNoRef(current: Option<Goal>, note: string, expected: Option<nat>, at: Time)
    ensures var next := RecordProgress(current, note, expected, at).next;
      (next.Some? <==> current.Some?) && (current.Some? ==> SameLedgers(current.value, next.value))
  {
  }

  lemma QuietKeepsLedgers(current: Option<Goal>, op: ServiceOp, at: Time)
    requires IsQuiet(op)
    ensures Perform(current, op, at).next.Some? <==> current.Some?
    ensures current.Some? ==> SameLedgers(current.value, Perform(current, op, at).next.value)
  {
    hide LastN, UniqueStrings, WithoutRequestsFor, RecordProgress, EvidenceRefs, SettleTurn, Plan, AnswerUserGate,
         BeginWorkItem, CreateStep;
    if op.ProgressOp? {
      ProgressAddsNoRef(current, op.note, op.expectedRevision, at);
    }
  }

  lemma QuietKeepsBlockAudit(current: Option<Goal>, op: ServiceOp, at: Time)
    requires IsQuiet(op) && !op.BlockOp? && !op.TransitionOp? && current.Some?
    ensures Perform(current, op, at).next.Some?
        && Perform(current, op, at).next.value.blockAudit == current.value.blockAudit
  {
    hide LastN, UniqueStrings, SettleTurn, Plan, AnswerUserGate, BeginWorkItem, CreateStep;
  }

  /** Work-item ids stay distinct along every run. */
  lemma StepKeepsDistinctIds(current: Option<Goal>, op: GoalOp)
    requires current.Some? ==> DistinctIds(current.value.workItems)
    ensures var next := GoalStep(current, op); next.Some? ==> DistinctIds(next.value.workItems)
  {
    if op.Service? {
      hide SettleTurn, Plan, LastN, UniqueStrings;
      var service := op.op;
      if IsQuiet(service) {
        hide Perform;
        QuietKeepsLedgers(current, service, op.at);
      } else if service.SettleOp? {
        SettlementKeepsDistinctIds(current, service.settlement);
      } else if service.PlanOp? {
        PlanKeepsDistinctIds(current, service.plan, op.at);
      } else {
      }
    }
  }

  lemma SettlementKeepsDistinctIds(current: Option<Goal>, input: SettleInput)
    requires current.Some? ==> DistinctIds(current.value.workItems)
    ensures var next := SettleTurn(current, input).next; next.Some? ==> DistinctIds(next.value.workItems)
  {
    if current.Some? {
      hide Settled;
      SettledKeepsIds(current.value, input);
    }
  }

  lemma PlanKeepsDistinctIds(current: Option<Goal>, input: PlanInput, at: Time)
    requires current.Some? ==> DistinctIds(current.value.workItems)
    ensures var next := Plan(current, input, at).next; next.Some? ==> DistinctIds(next.value.workItems)
  {
  }
}
