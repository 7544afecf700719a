/** What one service operation does to the next: requests, forced replans, steering, gates and completion. */
module GoalLifecycle {
  import opened Text
  import opened GoalTypes
  import opened GoalController
  import opened GoalService
  import opened ClaimMutations
  import opened GoalRuns
  import opened BoundedLogs
  import opened DeliveryHistory

  // ---------------------------------------------------------------------------
  // Work-item requests
  // ---------------------------------------------------------------------------

  predicate OneRequestPerItem(requests: seq<ItemRequest>) {
    forall i, j :: 0 <= i < j < |requests| ==> requests[i].workItemId != requests[j].workItemId
  }

  /** A request to finish an item needs evidence, all of it observed. */
  predicate IsAdmissible(request: ItemRequest, observed: set<string>) {
    request.status.Done? ==> request.evidenceRefs != [] && forall r :: r in request.evidenceRefs ==> r in observed
  }

  function Requested(item: WorkItem, request: ItemRequest, at: Time): WorkItem {
    item.(status := request.status,
          evidenceRefs := UniqueStrings(item.evidenceRefs + request.evidenceRefs),
          updatedAt := at,
          resumeWhen := if request.resumeWhen.Some? && request.resumeWhen.value != "" then request.resumeWhen
              else item.resumeWhen)
  }

  /** The latest pending request for an item. */
  function PendingFor(requests: seq<ItemRequest>, id: Id): (r: Option<ItemRequest>)
    ensures r.None? <==> forall x :: x in requests ==> x.workItemId != id
    ensures r.Some? ==> r.value in requests && r.value.workItemId == id
  {
    if requests == [] then None
    else if requests[|requests| - 1].workItemId == id then Some(requests[|requests| - 1])
    else PendingFor(requests[..|requests| - 1], id)
  }

  function Granted(item: WorkItem, pending: Option<ItemRequest>, observed: set<string>, at: Time): WorkItem {
    if pending.Some? && IsAdmissible(pending.value, observed) then Requested(item, pending.value, at) else item
  }

  lemma OneRequestTouchesOne(a: Applied, request: ItemRequest, observed: set<string>, at: Time, i: nat)
    requires DistinctIds(a.workItems) && i < |a.workItems|
    ensures var b := ApplyRequest(a, request, observed, at);
            && |b.workItems| == |a.workItems|
            && b.workItems[i] == if request.workItemId == a.workItems[i].id
                then Granted(a.workItems[i], Some(request), observed, at)
                                 else a.workItems[i]
  {
    hide UniqueStrings, FindIndex;
    var k := IndexOfId(a.workItems, request.workItemId);
  }

  lemma SameIdsStayDistinct(a: seq<WorkItem>, b: seq<WorkItem>)
    requires SameIds(a, b) && DistinctIds(a)
    ensures DistinctIds(b)
  {
  }

  /** Item by item, the loop over the requests grants the item's own request or leaves the item alone. */
  lemma {:induction false} RequestsActPointwise(a: Applied, requests: seq<ItemRequest>, observed: set<string>,
                                                at: Time, k: nat, i: nat)
    requires DistinctIds(a.workItems) && OneRequestPerItem(requests)
    requires k <= |requests| && i < |a.workItems|
    ensures var items := ApplyPrefix(a, requests, observed, at, k).workItems;
            && |items| == |a.workItems|
            && items[i] == Granted(a.workItems[i], PendingFor(requests[..k], a.workItems[i].id), observed, at)
  {
    hide Requested, IsAdmissible, ApplyRequest, SameIds, FindIndex;
    if k > 0 {
      RequestsActPointwise(a, requests, observed, at, k - 1, i);
      var before := ApplyPrefix(a, requests, observed, at, k - 1);
      AppliedKeepsIds(a, requests, observed, at, k - 1);
      IdsAgree(a.workItems, before.workItems, i);
      SameIdsStayDistinct(a.workItems, before.workItems);
      OneRequestTouchesOne(before, requests[k - 1], observed, at, i);
      assert requests[..k][..k - 1] == requests[..k - 1];
      if requests[k - 1].workItemId == a.workItems[i].id {
        NonePendingBefore(requests, k - 1);
      }
    }
  }

  lemma NonePendingBefore(requests: seq<ItemRequest>, k: nat)
    requires OneRequestPerItem(requests) && k < |requests|
    ensures PendingFor(requests[..k], requests[k].workItemId).None?
  {
  }

  lemma IdsAgree(a: seq<WorkItem>, b: seq<WorkItem>, i: nat)
    requires SameIds(a, b) && i < |a|
    ensures i < |b| && b[i].id == a[i].id
  {
  }

  /** Pending requests name distinct items, along every run. */
  lemma StepKeepsOneRequestPerItem(current: Option<Goal>, op: GoalOp)
    requires current.Some? ==> OneRequestPerItem(current.value.workItemRequests)
    ensures var next := GoalStep(current, op); next.Some? ==> OneRequestPerItem(next.value.workItemRequests)
  {
    hide LastN, UniqueStrings, NormalizePlan, ApplyRequests, TrailingRepeats, Fingerprint, Trim, UserRef, HasReceipt,
         EffectiveReceipt, CompletionAccepted, SettleReplanAudit, Reopen, CountDone,
             CountVerified, WithoutRequestsFor, MapItem, FindIndex;
    if op.Service? && op.op.RequestUpdateOp? && current.Some? {
      RequestReplacesOwn(current.value.workItemRequests, op.op.request.workItemId);
    }
  }

  lemma {:induction false} RequestReplacesOwn(requests: seq<ItemRequest>, id: Id)
    requires OneRequestPerItem(requests)
    ensures OneRequestPerItem(WithoutRequestsFor(requests, id))
  {
    if requests != [] {
      RequestReplacesOwn(requests[1..], id);
      assert forall x :: x in WithoutRequestsFor(requests[1..], id) ==> x.workItemId != requests[0].workItemId;
    }
  }

  /** An item that was running in a turn recorded as failed or interrupted goes back to the open frontier. */
  function AfterTurn(item: WorkItem, recorded: Receipt, at: Time): WorkItem {
    if item.status.Running? && recorded.workItemId == Some(item.id) && IsFailureOutcome(recorded.outcome)
    then item.(status := Open, updatedAt := at) else item
  }

  /**
   * A settlement gives every item exactly what its pending request asked for, if
   * the evidence was observed, and otherwise leaves it; then it reopens the item
   * that was running in the turn, if the turn is recorded as failed.
   */
  lemma SettlementFollowsRequests(goal: Goal, input: SettleInput, i: nat)
    requires DistinctIds(goal.workItems) && OneRequestPerItem(goal.workItemRequests) && i < |goal.workItems|
    requires !HasReceipt(goal.turnReceipts, input.receipt.id)
    ensures SettleTurn(Some(goal), input).next.Some? && SettleTurn(Some(goal), input).next.value.turnReceipts != []
    ensures var next := SettleTurn(Some(goal), input).next.value;
            var pending := PendingFor(goal.workItemRequests, goal.workItems[i].id);
            && |next.workItems| == |goal.workItems|
            && next.workItems[i]
                == AfterTurn(Granted(goal.workItems[i], pending, ObservedRefs(goal, input), input.receipt.at),
                             next.turnReceipts[|next.turnReceipts| - 1], input.receipt.at)
  {
    var observed, at := ObservedRefs(goal, input), input.receipt.at;
    var n := |goal.workItemRequests|;
    RequestsActPointwise(Unapplied(goal), goal.workItemRequests, observed, at, n, i);
    assert goal.workItemRequests[..n] == goal.workItemRequests;
    hide Settled, ObservedRefs, ApplyPrefix, PendingFor, Granted, AfterTurn;
    SettledItemIs(goal, input, ApplyRequests(goal, observed, at), i);
  }

  lemma SettledItemIs(goal: Goal, input: SettleInput, applied: Applied, i: nat)
    requires i < |applied.workItems|
    ensures |Settled(goal, input, applied).workItems| == |applied.workItems|
    ensures Settled(goal, input, applied).turnReceipts != []
    ensures var next := Settled(goal, input, applied);
            next.workItems[i]
                == AfterTurn(applied.workItems[i], next.turnReceipts[|next.turnReceipts| - 1], input.receipt.at)
  {
    hide CountDone, CountVerified, SettleReplanAudit, EffectiveReceipt, CompletionAccepted;
  }

  // ---------------------------------------------------------------------------
  // Leaving `done`
  // ---------------------------------------------------------------------------

  predicate HasDone(goal: Goal, id: Id) {
    exists x :: x in goal.workItems && x.id == id && x.status.Done?
  }

  /** The new settlement grants a pending request for another status. */
  predicate GrantsOtherStatus(goal: Goal, op: GoalOp, id: Id) {
    && IsNewSettlement(Some(goal), op)
    && var pending := PendingFor(goal.workItemRequests, id);
       pending.Some? && !pending.value.status.Done?
  }

  predicate ReplacesFrontier(goal: Goal, op: GoalOp) {
    op.Service? && op.op.PlanOp? && op.op.plan.replace && IsAccepted(Some(goal), op)
  }

  lemma DoneAt(goal: Goal, id: Id, i: nat)
    requires DistinctIds(goal.workItems) && i < |goal.workItems| && goal.workItems[i].id == id
    ensures HasDone(goal, id) <==> goal.workItems[i].status.Done?
  {
  }

  /** The item is still at its place, and done or not as said. */
  predicate StandsDone(goal: Goal, next: Option<Goal>, i: nat, done: bool)
    requires i < |goal.workItems|
  {
    && next.Some? && i < |next.value.workItems| && next.value.workItems[i].id == goal.workItems[i].id
    && next.value.workItems[i].status.Done? == done
  }

  lemma PlansKeepDone(goal: Goal, op: GoalOp, i: nat)
    requires i < |goal.workItems| && goal.workItems[i].status.Done?
    requires op.Service? && (op.op.PlanOp? || op.op.BeginOp? || op.op.AnswerGateOp?) && !ReplacesFrontier(goal, op)
    ensures StandsDone(goal, GoalStep(Some(goal), op), i, true)
  {
    hide LastN, UniqueStrings, SettleTurn, Trim, Fingerprint, UserRef, PlanPrefix, DependenciesKnown, DistinctIds;
  }

  lemma ClaimsKeepDone(goal: Goal, op: GoalOp, i: nat)
    requires i < |goal.workItems| && goal.workItems[i].status.Done? && !op.Service?
    ensures StandsDone(goal, GoalStep(Some(goal), op), i, !(op.ClaimRuns? && op.itemId == goal.workItems[i].id))
  {
    hide UniqueStrings;
    assert goal.workItems[i] in goal.workItems;
  }

  lemma OthersKeepDone(goal: Goal, op: GoalOp, i: nat)
    requires i < |goal.workItems| && goal.workItems[i].status.Done?
    requires !IsCreate(op) && !(op.Service? && (op.op.ClearGoal? || op.op.SettleOp?)) && !ReplacesFrontier(goal, op)
    ensures StandsDone(goal, GoalStep(Some(goal), op), i, !(op.ClaimRuns? && op.itemId == goal.workItems[i].id))
  {
    if !op.Service? {
      hide GoalStep;
      ClaimsKeepDone(goal, op, i);
    } else if IsQuiet(op.op) {
      hide Perform;
      QuietKeepsLedgers(Some(goal), op.op, op.at);
    } else if op.op.PlanOp? || op.op.BeginOp? || op.op.AnswerGateOp? {
      hide GoalStep;
      PlansKeepDone(goal, op, i);
    }
  }

  lemma SettlementLeavesDone(goal: Goal, op: GoalOp, i: nat)
    requires DistinctIds(goal.workItems) && OneRequestPerItem(goal.workItemRequests)
    requires i < |goal.workItems| && goal.workItems[i].status.Done? && op.Service? && op.op.SettleOp?
    ensures StandsDone(goal, GoalStep(Some(goal), op), i, !GrantsOtherStatus(goal, op, goal.workItems[i].id))
  {
    var input := op.op.settlement;
    if !HasReceipt(goal.turnReceipts, input.receipt.id) {
      hide Settled, ApplyRequests, ObservedRefs, UniqueStrings, PendingFor;
      SettlementFollowsRequests(goal, input, i);
    }
  }

  /** A new frontier holds no item that is done. */
  lemma ReplacedFrontierIsOpen(goal: Goal, op: GoalOp, id: Id)
    requires ReplacesFrontier(goal, op)
    ensures GoalStep(Some(goal), op).Some? && !HasDone(GoalStep(Some(goal), op).value, id)
  {
    hide LastN, Trim, Fingerprint;
  }

  /**
   * An item is not done for good: short of replacing the goal it leaves `done` by a
   * plan that replaces the frontier, by a settlement that grants a request for
   * another status, which needs no evidence, and by a claim that is marked as
   * running, and by nothing else.
   */
  lemma DoneIsLeftExactlyBy(goal: Goal, op: GoalOp, i: nat)
    requires DistinctIds(goal.workItems) && OneRequestPerItem(goal.workItemRequests)
    requires i < |goal.workItems| && goal.workItems[i].status.Done?
    requires !IsCreate(op) && !(op.Service? && op.op.ClearGoal?)
    ensures GoalStep(Some(goal), op).Some?
    ensures !HasDone(GoalStep(Some(goal), op).value, goal.workItems[i].id) <==>
      || ReplacesFrontier(goal, op)
      || GrantsOtherStatus(goal, op, goal.workItems[i].id)
      || (op.ClaimRuns? && op.itemId == goal.workItems[i].id)
  {
    hide GoalStep, DistinctIds, PendingFor, HasDone;
    var id := goal.workItems[i].id;
    if ReplacesFrontier(goal, op) {
      ReplacedFrontierIsOpen(goal, op, id);
    } else {
      if op.Service? && op.op.SettleOp? {
        SettlementLeavesDone(goal, op, i);
      } else {
        OthersKeepDone(goal, op, i);
      }
      StepKeepsDistinctIds(Some(goal), op);
      DoneAt(GoalStep(Some(goal), op).value, id, i);
    }
  }

  // ---------------------------------------------------------------------------
  // Forced replans
  // ---------------------------------------------------------------------------

  /** A plan the service accepts, or a new settlement that reports a changed plan. */
  predicate DischargesReplan(goal: Goal, op: GoalOp) {
    && op.Service?
    && (|| (op.op.PlanOp? && IsAccepted(Some(goal), op))
        || (IsNewSettlement(Some(goal), op) && op.op.settlement.replan.Some?
            && op.op.settlement.replan.value.deltaRecorded))
  }

  predicate RequestsReplan(goal: Goal, op: GoalOp) {
    && op.Service? && IsAccepted(Some(goal), op)
    && (op.op.ForceReplanOp? || (op.op.RetargetOp? && Trim(op.op.objective) != goal.objective))
  }

  /** A forced replan is set and lifted by exactly these operations. */
  lemma ForcedReplanChangesExactlyBy(goal: Goal, op: GoalOp)
    requires !IsCreate(op) && !(op.Service? && op.op.ClearGoal?)
    ensures GoalStep(Some(goal), op).Some? && FollowsReplanRule(goal, op, GoalStep(Some(goal), op).value)
  {
    if op.Service? {
      hide Perform, SettleTurn, IsBlank;
      if op.op.SettleOp? {
        SettlementFollowsReplanRule(goal, op);
      } else {
        MutationFollowsReplanRule(goal, op);
      }
    } else {
      hide MapItem, UniqueStrings, HasItem, CanComplete;
    }
  }

  predicate FollowsReplanRule(goal: Goal, op: GoalOp, next: Goal) {
    && (next.forcedReplan.None? <==>
        DischargesReplan(goal, op) || (goal.forcedReplan.None? && !RequestsReplan(goal, op)))
    && (next.forcedReplan.Some? && !RequestsReplan(goal, op) ==> next.forcedReplan == goal.forcedReplan)
  }

  lemma SettlementFollowsReplanRule(goal: Goal, op: GoalOp)
    requires op.Service? && op.op.SettleOp?
    ensures GoalStep(Some(goal), op).Some? && FollowsReplanRule(goal, op, GoalStep(Some(goal), op).value)
  {
    hide LastN, ApplyRequests, HasReceipt, EffectiveReceipt, CompletionAccepted, SettleReplanAudit, Reopen, CountDone,
         CountVerified, ObservedRefs;
  }

  lemma MutationFollowsReplanRule(goal: Goal, op: GoalOp)
    requires op.Service? && !op.op.SettleOp? && !IsCreate(op) && !op.op.ClearGoal?
    ensures GoalStep(Some(goal), op).Some? && FollowsReplanRule(goal, op, GoalStep(Some(goal), op).value)
  {
    hide LastN, UniqueStrings, NormalizePlan, TrailingRepeats, Fingerprint, Trim, IsBlank, UserRef, WithoutRequestsFor,
         FindIndex, SettleTurn, DistinctIds, RevisionConflict, Decimal;
  }

  /** Whatever the frontier looks like, a goal that is asked to replan decides to, for the reason it was given. */
  lemma ReplanRequestDecides(goal: Goal, op: GoalOp, unavailable: set<Id>)
    requires RequestsReplan(goal, op) && goal.status.Active? && !IsBudgetExhausted(goal)
    ensures GoalStep(Some(goal), op).Some?
    ensures var decision := Decide(GoalStep(Some(goal), op), unavailable);
            && decision.Replan?
            && decision.fingerprint == Fingerprint(goal.workItems)
            && decision.planRevision == goal.planRevision
            && decision.trigger == (if op.op.RetargetOp? then "objective_changed"
                                    else if IsBlank(op.op.reason) then "operator_requested" else Trim(op.op.reason))
  {
    hide Trim, Fingerprint, FindIndex;
  }

  // ---------------------------------------------------------------------------
  // The reason for having no follow-up
  // ---------------------------------------------------------------------------

  predicate Redirects(goal: Goal, op: GoalOp) {
    && op.Service? && IsAccepted(Some(goal), op)
    && (op.op.PlanOp? || (op.op.RetargetOp? && Trim(op.op.objective) != goal.objective))
  }

  predicate FollowsReasonRule(goal: Goal, op: GoalOp, next: Goal) {
    && (Redirects(goal, op) ==> next.noFollowupReason.None?)
    && (!Redirects(goal, op) && goal.noFollowupReason.Some? ==> next.noFollowupReason.Some?)
    && (!Redirects(goal, op) && !IsNewSettlement(Some(goal), op) ==> next.noFollowupReason == goal.noFollowupReason)
  }

  /**
   * A reason to finish does not outlive the plan or the objective it was given for,
   * and only a settlement gives one.
   */
  lemma ReasonChangesExactlyBy(goal: Goal, op: GoalOp)
    requires !IsCreate(op) && !(op.Service? && op.op.ClearGoal?)
    ensures GoalStep(Some(goal), op).Some? && FollowsReasonRule(goal, op, GoalStep(Some(goal), op).value)
  {
    if op.Service? {
      hide Perform, SettleTurn, IsBlank;
      if op.op.SettleOp? {
        SettlementFollowsReasonRule(goal, op);
      } else {
        MutationFollowsReasonRule(goal, op);
      }
    } else {
      hide MapItem, UniqueStrings, HasItem, CanComplete;
    }
  }

  lemma SettlementFollowsReasonRule(goal: Goal, op: GoalOp)
    requires op.Service? && op.op.SettleOp?
    ensures GoalStep(Some(goal), op).Some? && FollowsReasonRule(goal, op, GoalStep(Some(goal), op).value)
  {
    hide LastN, ApplyRequests, HasReceipt, EffectiveReceipt, CompletionAccepted, SettleReplanAudit, Reopen, CountDone,
         CountVerified, ObservedRefs;
  }

  lemma MutationFollowsReasonRule(goal: Goal, op: GoalOp)
    requires op.Service? && !op.op.SettleOp? && !IsCreate(op) && !op.op.ClearGoal?
    ensures GoalStep(Some(goal), op).Some? && FollowsReasonRule(goal, op, GoalStep(Some(goal), op).value)
  {
    hide LastN, UniqueStrings, NormalizePlan, TrailingRepeats, Fingerprint, Trim, IsBlank, UserRef, WithoutRequestsFor,
         FindIndex, SettleTurn, DistinctIds, RevisionConflict, Decimal;
  }

  predicate GivesReason(request: ItemRequest) {
    request.status.Done? && request.noFollowupReason.Some? && request.noFollowupReason.value != ""
  }

  /** A request for a known item that is granted and says why nothing follows. */
  predicate CarriesReason(request: ItemRequest, known: set<Id>, observed: set<string>) {
    GivesReason(request) && IsAdmissible(request, observed) && request.workItemId in known
  }

  /** The last of the first `k` requests that carries a reason. */
  ghost predicate IsLastReason(requests: seq<ItemRequest>, known: set<Id>, observed: set<string>, k: nat, j: nat)
    requires k <= |requests|
  {
    && j < k && CarriesReason(requests[j], known, observed)
    && forall i :: j < i < k ==> !CarriesReason(requests[i], known, observed)
  }

  lemma {:induction false} RequestsGiveReason(a: Applied, requests: seq<ItemRequest>, observed: set<string>, at: Time,
                                              k: nat)
    requires k <= |requests|
    ensures forall j: nat :: IsLastReason(requests, Ids(a.workItems), observed, k, j) ==>
              ApplyPrefix(a, requests, observed, at, k).noFollowupReason == requests[j].noFollowupReason
    ensures (forall i :: 0 <= i < k ==> !CarriesReason(requests[i], Ids(a.workItems), observed)) ==>
              ApplyPrefix(a, requests, observed, at, k).noFollowupReason == a.noFollowupReason
  {
    hide CarriesReason, ApplyRequest, SameIds, Ids;
    if k > 0 {
      RequestsGiveReason(a, requests, observed, at, k - 1);
      var before := ApplyPrefix(a, requests, observed, at, k - 1);
      AppliedKeepsIds(a, requests, observed, at, k - 1);
      SameIdsSameSet(a.workItems, before.workItems);
      OneRequestGivesReason(before, requests[k - 1], observed, at);
      forall j: nat | IsLastReason(requests, Ids(a.workItems), observed, k, j)
        ensures ApplyPrefix(a, requests, observed, at, k).noFollowupReason == requests[j].noFollowupReason
      {
        if j < k - 1 {
          assert IsLastReason(requests, Ids(a.workItems), observed, k - 1, j);
        }
      }
    }
  }

  lemma OneRequestGivesReason(a: Applied, request: ItemRequest, observed: set<string>, at: Time)
    ensures ApplyRequest(a, request, observed, at).noFollowupReason
         == if CarriesReason(request, Ids(a.workItems), observed) then request.noFollowupReason else a.noFollowupReason
  {
    hide UniqueStrings, FindIndex;
    var i := IndexOfId(a.workItems, request.workItemId);
    if i < |a.workItems| {
      assert a.workItems[i].id in Ids(a.workItems);
    }
  }

  /** The reason recorded is that of the last granted request that gives one, and the old one if none does. */
  lemma GrantedReasonIsKept(goal: Goal, input: SettleInput)
    requires !HasReceipt(goal.turnReceipts, input.receipt.id)
    ensures SettleTurn(Some(goal), input).next.Some?
    ensures var reason := SettleTurn(Some(goal), input).next.value.noFollowupReason;
            var requests, known, observed := goal.workItemRequests, Ids(goal.workItems), ObservedRefs(goal, input);
            && (forall j: nat :: IsLastReason(requests, known, observed, |requests|, j) ==>
                reason == requests[j].noFollowupReason)
            && ((forall i :: 0 <= i < |requests| ==> !CarriesReason(requests[i], known, observed)) ==>
                reason == goal.noFollowupReason)
  {
    var requests, observed := goal.workItemRequests, ObservedRefs(goal, input);
    RequestsGiveReason(Unapplied(goal), requests, observed, input.receipt.at, |requests|);
    hide ApplyPrefix, ObservedRefs, LastN, EffectiveReceipt, CompletionAccepted, SettleReplanAudit, Reopen, CountDone,
         CountVerified,
         IsAdmissible, Ids;
  }

  // ---------------------------------------------------------------------------
  // Plans
  // ---------------------------------------------------------------------------

  lemma OpenItemKeepsFrontierOpen(items: seq<WorkItem>, i: nat)
    requires i < |items| && items[i].status.Open?
    ensures !FrontierClosed(items)
  {
    assert items[i] in items;
  }

  /**
   * An accepted plan keeps what it retains, adds only open items, drops the pending
   * requests, and is a recorded delta; the goal can neither be asked to finalize
   * nor to obey an older replan request.
   */
  lemma PlanDischarges(goal: Goal, plan: PlanInput, at: Time, unavailable: set<Id>)
    requires Plan(Some(goal), plan, at).result.Accepted?
    ensures var next := Plan(Some(goal), plan, at).next.value;
            && (plan.replace || goal.workItems < next.workItems)
            && next.workItemRequests == []
            && next.planRevision > goal.planRevision
            && next.forcedReplan.None?
            && !FrontierClosed(next.workItems)
            && Decide(Some(next), unavailable) != Run(Finalize, None)
  {
    hide LastN, PlanPrefix, Fingerprint, FindIndex, DependenciesKnown, DistinctIds, IsBudgetExhausted, BestIndex,
         Dependents, TrailingNoChange;
    var next := Plan(Some(goal), plan, at).next.value;
    var retained := if plan.replace then [] else goal.workItems;
    PlanAddsItems(plan.items, retained, at);
    OpenItemKeepsFrontierOpen(next.workItems, |retained|);
  }

  lemma PlanAddsItems(inputs: seq<PlanItemInput>, retained: seq<WorkItem>, at: Time)
    requires NormalizePlan(inputs, retained, at).Some?
    ensures retained < NormalizePlan(inputs, retained, at).value
    ensures NormalizePlan(inputs, retained, at).value[|retained|].status.Open?
  {
    var planned := PlanPrefix(inputs, retained, at, |inputs|);
    assert planned.value != [];
  }

  function PlannedIdAt(inputs: seq<PlanItemInput>, retained: seq<WorkItem>, i: nat): Id
    requires i < |inputs|
  {
    PlannedId(inputs[i], i, |retained|)
  }

  /** No blank text, and ids that differ from the retained ones and from each other. */
  predicate IsPlannable(inputs: seq<PlanItemInput>, retained: seq<WorkItem>, k: nat)
    requires k <= |inputs|
  {
    && (forall i :: 0 <= i < k ==> !IsBlank(inputs[i].text))
    && (forall i :: 0 <= i < k ==> PlannedIdAt(inputs, retained, i) !in Ids(retained))
    && (forall i, j :: 0 <= i < j < k ==> PlannedIdAt(inputs, retained, i) != PlannedIdAt(inputs, retained, j))
  }

  /** The items that the inputs describe, accepted or not. */
  function Drafted(inputs: seq<PlanItemInput>, retained: seq<WorkItem>, at: Time): seq<WorkItem> {
    seq(|inputs|, i requires 0 <= i < |inputs| => PlannedItem(inputs[i], i, |retained|, at))
  }

  predicate IsPlanned(inputs: seq<PlanItemInput>, retained: seq<WorkItem>, at: Time, k: nat, planned: seq<WorkItem>) {
    |planned| == k <= |inputs| && forall i :: 0 <= i < k ==> planned[i] == PlannedItem(inputs[i], i, |retained|, at)
  }

  lemma {:induction false} PrefixIffPlannable(inputs: seq<PlanItemInput>, retained: seq<WorkItem>, at: Time, k: nat)
    requires k <= |inputs|
    ensures PlanPrefix(inputs, retained, at, k).Some? <==> IsPlannable(inputs, retained, k)
    ensures PlanPrefix(inputs, retained, at, k).Some? ==>
        IsPlanned(inputs, retained, at, k, PlanPrefix(inputs, retained, at, k).value)
  {
    hide IsBlank, PlannedId, PlannedItem, Trim, DistinctIds, IsPlannable, Ids;
    if k == 0 {
      NothingIsPlannable(inputs, retained);
    } else {
      PrefixIffPlannable(inputs, retained, at, k - 1);
      PlannableStep(inputs, retained, k - 1);
      PlannedIdsAre(inputs, retained, at, k - 1);
      var init := PlanPrefix(inputs, retained, at, k - 1);
      if init.Some? {
        NewIdIff(inputs, retained, at, k - 1, init.value);
      }
    }
  }

  lemma NothingIsPlannable(inputs: seq<PlanItemInput>, retained: seq<WorkItem>)
    ensures IsPlannable(inputs, retained, 0)
  {
  }

  lemma PlannableStep(inputs: seq<PlanItemInput>, retained: seq<WorkItem>, k: nat)
    requires k < |inputs|
    ensures IsPlannable(inputs, retained, k + 1) <==>
              && IsPlannable(inputs, retained, k)
              && !IsBlank(inputs[k].text)
              && PlannedIdAt(inputs, retained, k) !in Ids(retained)
              && !exists i :: 0 <= i < k && PlannedIdAt(inputs, retained, i) == PlannedIdAt(inputs, retained, k)
  {
    hide IsBlank, PlannedIdAt, Ids;
  }

  lemma PlannedIdsAre(inputs: seq<PlanItemInput>, retained: seq<WorkItem>, at: Time, k: nat)
    requires k < |inputs|
    ensures PlannedItem(inputs[k], k, |retained|, at).id == PlannedIdAt(inputs, retained, k)
    ensures PlannedItem(inputs[k], k, |retained|, at).dependsOn == UniqueStrings(inputs[k].dependsOn)
  {
  }

  lemma NewIdIff(inputs: seq<PlanItemInput>, retained: seq<WorkItem>, at: Time, k: nat, init: seq<WorkItem>)
    requires k < |inputs| && IsPlanned(inputs, retained, at, k, init)
    ensures (exists x :: x in retained + init && x.id == PlannedIdAt(inputs, retained, k)) <==>
              PlannedIdAt(inputs, retained, k) in Ids(retained)
              || exists i :: 0 <= i < k && PlannedIdAt(inputs, retained, i) == PlannedIdAt(inputs, retained, k)
  {
    hide PlannedId, Trim, UniqueStrings;
    var id := PlannedIdAt(inputs, retained, k);
    if x :| x in retained + init && x.id == id && x !in retained {
      var i :| 0 <= i < k && init[i] == x;
      assert PlannedIdAt(inputs, retained, i) == id;
    }
    if i :| 0 <= i < k && PlannedIdAt(inputs, retained, i) == id {
      assert init[i] in retained + init && init[i].id == id;
    }
    if id in Ids(retained) {
      var x :| x in retained && x.id == id;
      assert x in retained + init;
    }
  }

  /**
   * A plan is accepted exactly when it has an item, no item is blank, the ids are
   * new and distinct, and every dependency names another known item. The items are
   * then appended in their order. Nothing in the condition excludes a cycle.
   */
  lemma PlanIsNormalizedIff(inputs: seq<PlanItemInput>, retained: seq<WorkItem>, at: Time)
    ensures var drafted := Drafted(inputs, retained, at);
            NormalizePlan(inputs, retained, at)
            == if inputs != [] && IsPlannable(inputs, retained, |inputs|)
                && DependenciesKnown(drafted, Ids(retained + drafted))
               then Some(retained + drafted) else None
  {
    hide IsPlannable, PlanPrefix, PlannedItem, DistinctIds, DependenciesKnown, Ids;
    PrefixIffPlannable(inputs, retained, at, |inputs|);
    var prefix := PlanPrefix(inputs, retained, at, |inputs|);
    if prefix.Some? {
      assert prefix.value == Drafted(inputs, retained, at);
    }
  }

  // ---------------------------------------------------------------------------
  // Steering
  // ---------------------------------------------------------------------------

  /** Pausing or blocking and resuming gives the goal back, except that a resumed block forgets its audit. */
  lemma ResumeRestores(goal: Goal, at: Time, later: Time)
    requires goal.status.Active?
    ensures var paused := Transition(Some(goal), Paused, at).next;
            && Transition(paused, Active, later).next == Some(goal.(updatedAt := later, revision := goal.revision + 2))
    ensures var stopped := goal.(status := Blocked);
            Transition(Some(stopped), Active, at).next
                == Some(goal.(blockAudit := [], updatedAt := at, revision := goal.revision + 1))
  {
  }

  /** The same obstacle reported three times in a row blocks an active goal, and no sooner. */
  lemma ThirdReportBlocks(goal: Goal, reason: string, times: nat, at: Time)
    requires goal.status.Active? && !IsBlank(reason) && TrailingRepeats(goal.blockAudit, Trim(reason)) == 0
    requires 0 < times <= 3
    ensures Reported(goal, reason, times, at).Some?
    ensures Reported(goal, reason, times, at).value.status == if times == 3 then Blocked
        else Active
  {
    hide ReportBlock, Trim, LastN;
    var once := Reported(goal, reason, 1, at);
    assert once == ReportBlock(Reported(goal, reason, 0, at), reason, None, None, at).next;
    ReportCounts(goal, reason, at);
    if times > 1 {
      var twice := Reported(goal, reason, 2, at);
      assert twice == ReportBlock(once, reason, None, None, at).next;
      ReportCounts(once.value, reason, at);
      if times > 2 {
        assert Reported(goal, reason, 3, at) == ReportBlock(twice, reason, None, None, at).next;
        ReportCounts(twice.value, reason, at);
      }
    }
  }

  function Reported(goal: Goal, reason: string, times: nat, at: Time): Option<Goal> {
    if times == 0 then Some(goal) else ReportBlock(Reported(goal, reason, times - 1, at), reason, None, None, at).next
  }

  lemma ReportCounts(goal: Goal, reason: string, at: Time)
    requires goal.status.Active? && !IsBlank(reason)
        && TrailingRepeats(goal.blockAudit, Trim(reason)) < BLOCK_REPEAT_THRESHOLD
    ensures ReportBlock(Some(goal), reason, None, None, at).next.Some?
    ensures var next := ReportBlock(Some(goal), reason, None, None, at).next.value;
            var count := TrailingRepeats(goal.blockAudit, Trim(reason)) + 1;
            && TrailingRepeats(next.blockAudit, Trim(reason)) == count
            && next.status == if count >= BLOCK_REPEAT_THRESHOLD then Blocked else Active
  {
    hide Trim, IsBlank, LastN, TrailingRepeats;
    var text := Trim(reason);
    var entry := BlockEntry(at, text, None, TrailingRepeats(goal.blockAudit, text) + 1);
    RepeatsAfterReport(goal.blockAudit, entry, text);
  }

  lemma RepeatsAfterReport(audit: seq<BlockEntry>, entry: BlockEntry, reason: string)
    requires entry.reason == reason && TrailingRepeats(audit, reason) < BLOCK_REPEAT_THRESHOLD
    ensures TrailingRepeats(LastN(audit + [entry], BLOCK_AUDIT_RETAIN), reason) == TrailingRepeats(audit, reason) + 1
  {
    var kept, reasons := LastN(audit + [entry], BLOCK_AUDIT_RETAIN), Reasons(audit) + [reason];
    AppendReason(audit, entry, BLOCK_AUDIT_RETAIN);
    TrailingOfReasons(kept, reason);
    TrailingOfReasons(audit, reason);
    TrailingOfTail(reasons, BLOCK_AUDIT_RETAIN, reason);
    assert reasons[..|audit|] == Reasons(audit);
  }

  /**
   * Revising the wording, unlike retargeting, does not steer the next turn; blank
   * criteria leave the old ones in force.
   */
  lemma RevisionDoesNotSteer(goal: Goal, objective: Option<string>, criteria: Option<string>, at: Time,
                             unavailable: set<Id>)
    requires Revise(Some(goal), objective, criteria, None, at).result.Accepted?
    ensures var next := Revise(Some(goal), objective, criteria, None, at).next.value;
            && Decide(Some(next), unavailable) == Decide(Some(goal), unavailable)
            && next.objective != ""
            && (objective.Some? ==> next.objective == Trim(objective.value))
            && (if HasText(criteria) then next.completionCriteria == Some(Trim(criteria.value))
                else next.completionCriteria == goal.completionCriteria)
  {
    hide Trim, Fingerprint, SelectedIndex, DecideIdle, TrailingNoChange, IsBlank;
    SameDecision(goal, Revise(Some(goal), objective, criteria, None, at).next.value, unavailable);
  }

  lemma SameDecision(a: Goal, b: Goal, unavailable: set<Id>)
    requires b == a.(
        objective := b.objective, completionCriteria := b.completionCriteria,
        updatedAt := b.updatedAt, revision := b.revision)
    ensures Decide(Some(b), unavailable) == Decide(Some(a), unavailable)
  {
    hide Fingerprint, SelectedIndex, TrailingNoChange, IsBlank, FrontierClosed, FindIndex, IsReadyGate;
  }

  /** Beginning runs unfinished agent work and nothing else; user items and finished or deferred work are refused. */
  lemma OnlyAgentWorkBegins(goal: Goal, i: nat, at: Time)
    requires DistinctIds(goal.workItems) && i < |goal.workItems|
    ensures var item := goal.workItems[i]; var step := BeginWorkItem(Some(goal), item.id, at);
            if item.role.User? || Finished(item) || item.status.Deferred?
                then step == Refuse(Some(goal), InvalidTransition)
            else
              && step.next.Some? && |step.next.value.workItems| == |goal.workItems|
              && step.next.value.workItems[i]
                  == item.(status := Running, updatedAt := step.next.value.workItems[i].updatedAt)
              && (forall j :: 0 <= j < |goal.workItems| && j != i ==> step.next.value.workItems[j] == goal.workItems[j])
              && BeginWorkItem(step.next, item.id, at).next == step.next
  {
    hide FindIndex;
    var k := IndexOfId(goal.workItems, goal.workItems[i].id);
    assert k == i;
    var next := BeginWorkItem(Some(goal), goal.workItems[i].id, at).next.value;
    var again := IndexOfId(next.workItems, goal.workItems[i].id);
    assert next.workItems[i].id == goal.workItems[i].id;
    assert again == i;
  }

  // ---------------------------------------------------------------------------
  // Gates
  // ---------------------------------------------------------------------------

  /** An answered gate is done on the user's word alone, releases what waited for it, and is never waited for again. */
  lemma AnswerOpensGate(goal: Goal, id: Id, answer: string, at: Time, unavailable: set<Id>)
    requires DistinctIds(goal.workItems) && AnswerUserGate(Some(goal), id, answer, at).result.Accepted?
    ensures var next := AnswerUserGate(Some(goal), id, answer, at).next.value;
            && next.status.Active?
            && CompletedIds(next.workItems) == CompletedIds(goal.workItems) + {id}
            && (forall i :: 0 <= i < |goal.workItems| && goal.workItems[i].id != id ==>
                next.workItems[i] == goal.workItems[i])
            && Decide(Some(next), unavailable) != Stop(UserActionNeeded, Some(id))
  {
    hide LastN, Decimal, IsBlank, BestIndex, Dependents, TrailingNoChange, IsBudgetExhausted, Fingerprint, Ready,
         HasText;
    var i := IndexOfId(goal.workItems, id);
    var next := AnswerUserGate(Some(goal), id, answer, at).next.value;
    DoneItemCompletes(goal.workItems, i, next.workItems[i]);
    var gate := GateIndex(next.workItems);
    assert gate < |next.workItems| ==> next.workItems[gate].id != id;
  }

  lemma DoneItemCompletes(items: seq<WorkItem>, i: nat, done: WorkItem)
    requires DistinctIds(items) && i < |items| && done.id == items[i].id && done.status.Done?
    ensures CompletedIds(items[i := done]) == CompletedIds(items) + {done.id}
  {
    var after := items[i := done];
    assert after[i] == done;
    assert forall j :: 0 <= j < |items| && j != i ==> after[j] == items[j];
    forall x | x in CompletedIds(items)
      ensures x in CompletedIds(after)
    {
      var j :| 0 <= j < |items| && Finished(items[j]) && items[j].id == x;
      assert after[j].id == x && Finished(after[j]);
    }
    forall x | x in CompletedIds(after)
      ensures x in CompletedIds(items) + {done.id}
    {
      var j :| 0 <= j < |after| && Finished(after[j]) && after[j].id == x;
    }
  }

  // ---------------------------------------------------------------------------
  // Runs
  // ---------------------------------------------------------------------------

  function ToolRef(call: ToolCall): string {
    "tool:" + call.id
  }

  lemma {:induction false} CallsAreObserved(calls: seq<ToolCall>)
    ensures EvidenceRefs(ToolEvidence(calls)) == set c | c in calls && !c.isError :: ToolRef(c)
    ensures (set r | r in ToolRefs(ToolEvidence(calls))) == EvidenceRefs(ToolEvidence(calls))
  {
    if calls != [] {
      CallsAreObserved(calls[1..]);
      assert calls == [calls[0]] + calls[1..];
      if !calls[0].isError {
        assert ToolRef(calls[0]) != "";
        assert ToolEvidence(calls)[1..] == ToolEvidence(calls[1..]);
        assert EvidenceRefs(ToolEvidence(calls)) == {ToolRef(calls[0])} + EvidenceRefs(ToolEvidence(calls[1..])) by {
          HeadRef(ToolEvidence(calls));
        }
      }
    }
  }

  lemma HeadRef(evidence: seq<Evidence>)
    requires evidence != [] && evidence[0].ref.Some? && evidence[0].ref.value != ""
    ensures EvidenceRefs(evidence) == {evidence[0].ref.value} + EvidenceRefs(evidence[1..])
  {
    assert evidence == [evidence[0]] + evidence[1..];
  }

  /** A run adds to the observed references exactly those of its tool calls that succeeded. */
  lemma RunObservesItsCalls(goal: Goal, result: RunResult, decision: Decision)
    ensures ObservedRefs(goal, RunSettlement(goal, result, decision))
         == EvidenceRefs(goal.evidence) + set c | c in result.toolCalls && !c.isError :: ToolRef(c)
  {
    CallsAreObserved(result.toolCalls);
  }

  /** A run is charged as one turn with all of its tool calls and tokens, once. */
  lemma RunIsChargedOnce(goal: Goal, result: RunResult, decision: Decision)
    requires goal.status.Active? && !HasReceipt(goal.turnReceipts, "goal-turn:" + result.runId)
    ensures SettleGoalRun(Some(goal), result, decision).Some?
    ensures var next := SettleGoalRun(Some(goal), result, decision).value;
            && next.consumption.turns == goal.consumption.turns + 1
            && next.consumption.toolIterations == goal.consumption.toolIterations + |result.toolCalls|
            && next.consumption.tokens == goal.consumption.tokens + result.tokens
            && HasReceipt(next.turnReceipts, "goal-turn:" + result.runId)
            && SettleGoalRun(Some(next), result, decision) == Some(next)
  {
    hide ApplyRequests, ObservedRefs, CompletionAccepted, CompletionFailure, SettleReplanAudit, Reopen, CountDone,
         CountVerified, ToolEvidence,
         ToolRefs, MadeProgress;
    var input := RunSettlement(goal, result, decision);
    SettlementConsumes(goal, input);
  }

  // ---------------------------------------------------------------------------
  // Budgets
  // ---------------------------------------------------------------------------

  predicate Reached(limit: Option<nat>, before: nat, added: nat) {
    limit.Some? && before + added >= limit.value
  }

  /**
   * After a settlement, an active goal stops for its budget exactly when what was
   * spent so far and now reaches one of its limits.
   */
  lemma SettlementSpendsBudget(goal: Goal, input: SettleInput, unavailable: set<Id>)
    requires !HasReceipt(goal.turnReceipts, input.receipt.id)
    requires SettleTurn(Some(goal), input).next.Some? && SettleTurn(Some(goal), input).next.value.status.Active?
    ensures var next := SettleTurn(Some(goal), input).next.value; var usage := input.receipt.usage;
            Decide(Some(next), unavailable) == Stop(BudgetExhausted, None) <==>
              goal.budget.Some?
              && (|| Reached(goal.budget.value.maxTurns, goal.consumption.turns, usage.turns)
                  || Reached(goal.budget.value.maxToolIterations, goal.consumption.toolIterations, usage.toolIterations)
                  || Reached(goal.budget.value.maxTokens, goal.consumption.tokens, usage.tokens)
                  || Reached(goal.budget.value.maxValidatedTurns, next.delivery.validatedTurns, 0))
  {
    hide ApplyRequests, ObservedRefs, CompletionAccepted, CompletionFailure, SettleReplanAudit, Reopen, CountDone,
         CountVerified, LastN,
         Fingerprint, SelectedIndex, TrailingNoChange, FrontierClosed, FindIndex,
             IsReadyGate, HasReceipt, CountsAsValidated, EffectiveReceipt;
  }

  lemma BudgetStays(goal: Goal, op: GoalOp)
    requires !IsCreate(op) && !(op.Service? && op.op.ClearGoal?)
    ensures GoalStep(Some(goal), op).Some? && GoalStep(Some(goal), op).value.budget == goal.budget
  {
    hide LastN, UniqueStrings, NormalizePlan, ApplyRequests, TrailingRepeats, Fingerprint, Trim, UserRef, HasReceipt,
         IsBlank, HasItem, CanComplete,
         EffectiveReceipt, CompletionAccepted, SettleReplanAudit, Reopen, CountDone,
             CountVerified, WithoutRequestsFor, MapItem, FindIndex,
         AddUsage, ObservedRefs, ReplanBlocked, Surplus;
  }

  lemma SettlementOnlySpends(goal: Goal, input: SettleInput)
    ensures SettleTurn(Some(goal), input).next.Some?
    ensures OnlySpends(goal, SettleTurn(Some(goal), input).next.value)
  {
    hide ApplyRequests, ObservedRefs, CompletionAccepted, CompletionFailure, SettleReplanAudit, Reopen, CountDone,
         CountVerified, LastN,
         HasReceipt, CountsAsValidated, EffectiveReceipt;
  }

  predicate OnlySpends(before: Goal, after: Goal) {
    && after.consumption.turns >= before.consumption.turns
    && after.consumption.toolIterations >= before.consumption.toolIterations
    && after.consumption.tokens >= before.consumption.tokens
    && after.delivery.validatedTurns >= before.delivery.validatedTurns
  }

  /** Nothing short of replacing the goal gives a spent budget back. */
  lemma ExhaustionIsPermanent(goal: Goal, op: GoalOp)
    requires IsBudgetExhausted(goal) && !IsCreate(op) && !(op.Service? && op.op.ClearGoal?)
    ensures GoalStep(Some(goal), op).Some? && IsBudgetExhausted(GoalStep(Some(goal), op).value)
  {
    hide GoalStep, SettleTurn, HasReceipt, IsBlank;
    BudgetStays(goal, op);
    if op.Service? && op.op.SettleOp? {
      SettleStepIs(Some(goal), op);
      SettlementOnlySpends(goal, op.op.settlement);
    } else {
      OthersKeepTotals(goal, op);
    }
  }

  // ---------------------------------------------------------------------------
  // Completion
  // ---------------------------------------------------------------------------

  /**
   * What a completion needs: the cited evidence observed, some of it if there are
   * criteria, and a closed frontier with a reason.
   */
  ghost predicate MeetsCompletion(goal: Goal, refs: seq<string>, input: SettleInput) {
    var observed := ObservedRefs(goal, input);
    var applied := ApplyRequests(goal, observed, input.receipt.at);
    && (forall r :: r in UniqueStrings(refs) ==> r in observed)
    && (HasText(goal.completionCriteria) ==> UniqueStrings(refs) != [])
    && FrontierClosed(applied.workItems)
    && HasText(applied.noFollowupReason)
  }

  /** A completion request followed by a settlement completes an active goal exactly when the requirements are met. */
  lemma CompletionIsExact(goal: Goal, note: string, refs: seq<string>, at: Time, input: SettleInput)
    requires goal.status.Active? && !IsBlank(note)
    requires !input.completionAccepted && !HasReceipt(goal.turnReceipts, input.receipt.id)
    ensures RequestCompletion(Some(goal), note, refs, None, at).next.Some?
    ensures var settled := SettleTurn(RequestCompletion(Some(goal), note, refs, None, at).next, input).next;
            settled.Some? && (settled.value.status.Complete? <==> MeetsCompletion(goal, refs, input))
  {
    var asked := RequestCompletion(Some(goal), note, refs, None, at).next.value;
    SameApplication(goal, asked, input);
    hide LastN, UniqueStrings, CountDone, CountVerified, SettleReplanAudit, Reopen, ApplyRequests, ObservedRefs,
         CompletionFailure, FrontierClosed, Trim;
    assert Trim(note) != "";
  }

  lemma SameApplication(goal: Goal, asked: Goal, input: SettleInput)
    requires asked.evidence == goal.evidence && asked.workItems == goal.workItems
    requires asked.workItemRequests == goal.workItemRequests && asked.noFollowupReason == goal.noFollowupReason
    ensures ObservedRefs(asked, input) == ObservedRefs(goal, input)
    ensures ApplyRequests(asked, ObservedRefs(asked, input), input.receipt.at)
        == ApplyRequests(goal, ObservedRefs(goal, input), input.receipt.at)
  {
  }

  predicate AsksInVain(goal: Goal, observed: set<string>) {
    exists request :: request in goal.workItemRequests && request.workItemId in Ids(goal.workItems)
        && !IsAdmissible(request, observed)
  }

  lemma {:induction false} InadmissibleFails(a: Applied, requests: seq<ItemRequest>, observed: set<string>, at: Time,
                                             k: nat)
    requires k <= |requests| && a.failure.None?
    ensures ApplyPrefix(a, requests, observed, at, k).failure.Some? <==>
              exists j :: 0 <= j < k && requests[j].workItemId in Ids(a.workItems)
                  && !IsAdmissible(requests[j], observed)
  {
    hide IsAdmissible, ApplyRequest;
    if k > 0 {
      InadmissibleFails(a, requests, observed, at, k - 1);
      var before := ApplyPrefix(a, requests, observed, at, k - 1);
      AppliedKeepsIds(a, requests, observed, at, k - 1);
      SameIdsSameSet(a.workItems, before.workItems);
      OneRequestFails(before, requests[k - 1], observed, at);
    }
  }

  lemma SameIdsSameSet(a: seq<WorkItem>, b: seq<WorkItem>)
    requires SameIds(a, b)
    ensures Ids(a) == Ids(b)
  {
    forall x | x in Ids(a)
      ensures x in Ids(b)
    {
      var i :| 0 <= i < |a| && a[i].id == x;
      assert b[i].id == x;
    }
    forall x | x in Ids(b)
      ensures x in Ids(a)
    {
      var i :| 0 <= i < |b| && b[i].id == x;
      assert a[i].id == x;
    }
  }

  lemma OneRequestFails(a: Applied, request: ItemRequest, observed: set<string>, at: Time)
    ensures ApplyRequest(a, request, observed, at).failure.Some? <==>
              a.failure.Some? || (request.workItemId in Ids(a.workItems) && !IsAdmissible(request, observed))
  {
    hide UniqueStrings, FindIndex;
    var i := IndexOfId(a.workItems, request.workItemId);
    if i < |a.workItems| {
      assert a.workItems[i].id in Ids(a.workItems);
    }
  }

  /**
   * Without an accepted completion, a completion request or a request in vain fails
   * the turn, and it is not counted as validated.
   */
  lemma UnmetRequestFailsTurn(goal: Goal, input: SettleInput)
    requires !HasReceipt(goal.turnReceipts, input.receipt.id)
    requires !CompletionAccepted(goal, input, ApplyRequests(goal, ObservedRefs(goal, input), input.receipt.at))
    ensures SettleTurn(Some(goal), input).next.Some? && SettleTurn(Some(goal), input).next.value.turnReceipts != []
    ensures var next := SettleTurn(Some(goal), input).next.value;
        var recorded := next.turnReceipts[|next.turnReceipts| - 1];
            if goal.completionRequest.Some? || AsksInVain(goal, ObservedRefs(goal, input)) then
              && recorded.outcome.ValidationFailed? && recorded.validation.status.FailedValidation?
                  && recorded.validation.reason.Some?
              && next.delivery.validatedTurns == goal.delivery.validatedTurns
            else
              recorded == if input.replan.Some? && !input.replan.value.deltaRecorded
                  then input.receipt.(outcome := ReplanRequired)
                          else input.receipt
  {
    var observed := ObservedRefs(goal, input);
    InadmissibleFails(Unapplied(goal), goal.workItemRequests, observed, input.receipt.at, |goal.workItemRequests|);
    VainIndex(goal, observed);
    hide CountDone, CountVerified, SettleReplanAudit, Reopen, ApplyPrefix, ObservedRefs, CompletionAccepted,
         AsksInVain, IsAdmissible,
         CompletionEvidenceSatisfied, Missing;
  }

  lemma VainIndex(goal: Goal, observed: set<string>)
    ensures AsksInVain(goal, observed) <==>
              exists j :: 0 <= j < |goal.workItemRequests| && goal.workItemRequests[j].workItemId in Ids(goal.workItems)
                          && !IsAdmissible(goal.workItemRequests[j], observed)
  {
    hide IsAdmissible, Ids;
    if AsksInVain(goal, observed) {
      var request :| request in goal.workItemRequests && request.workItemId in Ids(goal.workItems)
          && !IsAdmissible(request, observed);
      var j :| 0 <= j < |goal.workItemRequests| && goal.workItemRequests[j] == request;
    }
  }

  /** Every settlement uses up the requests it was given and is remembered under its own id. */
  lemma SettlementConsumes(goal: Goal, input: SettleInput)
    requires !HasReceipt(goal.turnReceipts, input.receipt.id)
    ensures SettleTurn(Some(goal), input).next.Some?
    ensures var next := SettleTurn(Some(goal), input).next.value;
            && next.workItemRequests == [] && next.completionRequest.None?
            && HasReceipt(next.turnReceipts, input.receipt.id)
            && SettleTurn(Some(next), input).next == Some(next)
  {
    var next := SettleTurn(Some(goal), input).next.value;
    hide CountDone, CountVerified, SettleReplanAudit, Reopen, ApplyRequests, ObservedRefs, CompletionFailure,
         CompletionAccepted;
    assert next.turnReceipts[|next.turnReceipts| - 1].id == input.receipt.id;
  }
}
