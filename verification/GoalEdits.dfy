/**
 * When each operation of the service is accepted, and what it then stores, field by
 * field. Whatever a lemma does not name is left as it was.
 */
module GoalEdits {
  import opened Text
  import opened GoalTypes
  import opened GoalController
  import opened GoalService
  import opened GoalDecisions
  import opened ClaimMutations
  import opened GoalRuns
  import opened BoundedLogs
  import opened DeliveryHistory
  import opened GoalLifecycle

  /** The text holds more than space. */
  predicate IsTyped(text: string) {
    exists k :: 0 <= k < |text| && !IsSpace(text[k])
  }

  predicate IsExpected(goal: Goal, expected: Option<nat>) {
    expected == None || expected == Some(goal.revision)
  }

  /** A typed text is stored without the space around it, another one not at all. */
  predicate IsStoredText(given: Option<string>, stored: Option<string>) {
    if given.Some? && IsTyped(given.value) then stored == Some(Trim(given.value)) else stored == None
  }

  /** The typed texts without the space around them, each once. */
  predicate IsStoredList(given: seq<string>, stored: seq<string>) {
    && (forall i, j :: 0 <= i < j < |stored| ==> stored[i] != stored[j])
    && (forall k :: 0 <= k < |given| && IsTyped(given[k]) ==> Trim(given[k]) in stored)
    && (forall x :: x in stored ==> exists k :: 0 <= k < |given| && IsTyped(given[k]) && Trim(given[k]) == x)
  }

  lemma TypedIs(text: string)
    ensures IsTyped(text) <==> !IsBlank(text)
  {
    BlankIff(text);
  }

  lemma StoredTextIs(given: Option<string>)
    ensures IsStoredText(given, Trimmed(given))
  {
    if given.Some? {
      TypedIs(given.value);
    }
  }

  lemma StoredListIs(given: seq<string>)
    ensures IsStoredList(given, UniqueStrings(given))
  {
    var stored := UniqueStrings(given);
    forall k | 0 <= k < |given|
      ensures IsTyped(given[k]) <==> Trim(given[k]) != ""
    {
      TypedIs(given[k]);
    }
  }

  // ---------------------------------------------------------------------------
  // Creating
  // ---------------------------------------------------------------------------

  predicate IsFirstItem(x: WorkItem, objective: string, at: Time) {
    && x.id == "goal-work:1" && x.role == Agent && x.priority == P0 && x.taskClass == Advancement
    && x.actionKind == "advance" && x.text == objective && x.status == Open
    && x.dependsOn == [] && x.evidenceRefs == [] && x.successorOf == None && x.resumeWhen == None
    && x.roleScopes == [] && x.excludedAgentIds == [] && x.createdAt == at && x.updatedAt == at
  }

  /** A typed objective makes a new active goal with one open item, whatever was stored; a blank one changes nothing. */
  lemma CreateStores(current: Option<Goal>, objective: string, criteria: Option<string>, budget: Option<Budget>,
                     at: Time)
    ensures var step := Perform(current, CreateGoal(objective, criteria, budget), at);
      if !IsTyped(objective) then step == Step(current, Refused(InvalidInput))
      else
        && step.next.Some? && step.result == Accepted(step.next.value)
        && var goal := step.next.value;
           && goal.objective == Trim(objective) && IsStoredText(criteria, goal.completionCriteria)
           && goal.status == Active && goal.budget == budget
           && goal.consumption == Usage(0, 0, 0) && goal.delivery == Delivery(0, 0, 0)
           && goal.evidence == [] && goal.blockAudit == [] && goal.turnReceipts == [] && goal.replanAudit == []
           && goal.completionRequest == None && goal.workItemRequests == [] && goal.planRevision == 0
           && goal.forcedReplan == None && goal.noFollowupReason == None
           && goal.createdAt == at && goal.updatedAt == at && goal.revision == 0
           && |goal.workItems| == 1 && IsFirstItem(goal.workItems[0], Trim(objective), at)
  {
    hide Trim, IsSpace, IsBlank;
    TypedIs(objective);
    StoredTextIs(criteria);
  }

  /** Clearing leaves nothing. */
  lemma ClearStores(current: Option<Goal>, at: Time)
    ensures Perform(current, ClearGoal, at) == Step(None, Cleared)
  {
  }

  // ---------------------------------------------------------------------------
  // Planning
  // ---------------------------------------------------------------------------

  /** What a plan leaves open is filled in: agent work that advances the goal, the first item before the others. */
  predicate IsPlannedAs(input: PlanItemInput, index: nat, retained: nat, at: Time, x: WorkItem) {
    && (if input.id.Some? && IsTyped(input.id.value) then x.id == Trim(input.id.value)
        else x.id == "goal-work:" + Decimal(retained + index + 1))
    && (if input.role.Some? then x.role == input.role.value else x.role == Agent)
    && (if input.priority.Some? then x.priority == input.priority.value
        else if index == 0 then x.priority == P0 else x.priority == P1)
    && (if input.taskClass.Some? then x.taskClass == input.taskClass.value
        else if input.role == Some(User) then x.taskClass == UserGate else x.taskClass == Advancement)
    && (if input.actionKind.Some? && IsTyped(input.actionKind.value) then x.actionKind == Trim(input.actionKind.value)
        else x.actionKind == "advance")
    && x.text == Trim(input.text) && x.status == Open && x.evidenceRefs == []
    && IsStoredList(input.dependsOn, x.dependsOn)
    && IsStoredText(input.successorOf, x.successorOf) && IsStoredText(input.resumeWhen, x.resumeWhen)
    && IsStoredList(input.roleScopes, x.roleScopes) && IsStoredList(input.excludedAgentIds, x.excludedAgentIds)
    && x.createdAt == at && x.updatedAt == at
  }

  lemma PlannedIs(input: PlanItemInput, index: nat, retained: nat, at: Time)
    ensures IsPlannedAs(input, index, retained, at, PlannedItem(input, index, retained, at))
  {
    if input.id.Some? { TypedIs(input.id.value); }
    if input.actionKind.Some? { TypedIs(input.actionKind.value); }
    StoredTextIs(input.successorOf);
    StoredTextIs(input.resumeWhen);
    StoredListIs(input.dependsOn);
    StoredListIs(input.roleScopes);
    StoredListIs(input.excludedAgentIds);
    hide IsTyped, IsBlank, Trim, UniqueStrings, Decimal, IsStoredList, IsStoredText, Trimmed;
  }

  /** The inputs can be turned into items that depend on each other, on retained items and on nothing else. */
  predicate MayPlan(goal: Goal, plan: PlanInput, at: Time) {
    var retained := if plan.replace then [] else goal.workItems;
    var drafted := Drafted(plan.items, retained, at);
    && IsExpected(goal, plan.expectedRevision) && goal.status == Active && plan.items != []
    && IsPlannable(plan.items, retained, |plan.items|)
    && DependenciesKnown(drafted, Ids(retained + drafted))
  }

  /** The item depends on itself, or on an id that none of these items has. */
  predicate IsStray(x: WorkItem, d: Id, known: seq<WorkItem>) {
    d in x.dependsOn && (d == x.id || forall y :: y in known ==> y.id != d)
  }

  /** An item that depends on itself, or on nothing the goal will have, spoils the plan, and nothing else does. */
  lemma DependenciesAreKnownIff(items: seq<WorkItem>, known: seq<WorkItem>)
    ensures DependenciesKnown(items, Ids(known)) <==>
      !exists i, d :: 0 <= i < |items| && IsStray(items[i], d, known)
  {
    var ids := Ids(known);
    if i, d :| 0 <= i < |items| && IsStray(items[i], d, known) {
      var x := items[i];
      assert x in items && d in x.dependsOn && !(d in ids && d != x.id);
      assert !DependenciesKnown(items, ids);
    } else {
      forall x, d | x in items && d in x.dependsOn
        ensures d in ids && d != x.id
      {
        var i :| 0 <= i < |items| && items[i] == x;
        assert !IsStray(items[i], d, known);
        var y :| y in known && y.id == d;
      }
      assert DependenciesKnown(items, ids);
    }
  }

  /** The planned items follow the retained ones in order. */
  predicate FollowRetained(retained: seq<WorkItem>, inputs: seq<PlanItemInput>, at: Time, items: seq<WorkItem>) {
    && |items| == |retained| + |inputs| && retained <= items
    && forall i :: 0 <= i < |inputs| ==> IsPlannedAs(inputs[i], i, |retained|, at, items[|retained| + i])
  }

  /** The plan is taken over; requests, replans and the reason to finish are dropped. */
  predicate TakesPlan(goal: Goal, plan: PlanInput, at: Time, next: Goal) {
    && FollowRetained(if plan.replace then [] else goal.workItems, plan.items, at, next.workItems)
    && next == goal.(workItems := next.workItems, workItemRequests := [], forcedReplan := None,
                     noFollowupReason := None, planRevision := goal.planRevision + 1,
                     replanAudit := next.replanAudit, updatedAt := at, revision := goal.revision + 1)
  }

  /** A plan is accepted on these conditions alone. */
  lemma PlanStores(goal: Goal, plan: PlanInput, at: Time)
    ensures var step := Perform(Some(goal), PlanOp(plan), at);
      if !MayPlan(goal, plan, at) then step.result.Refused? && step.next == Some(goal)
      else step.next.Some? && step.result == Accepted(step.next.value) && TakesPlan(goal, plan, at, step.next.value)
  {
    hide Plan, MayPlan, TakesPlan;
    if MayPlan(goal, plan, at) {
      SoundPlanIsTaken(goal, plan, at);
    } else {
      OtherPlanIsRefused(goal, plan, at);
    }
  }

  lemma OtherPlanIsRefused(goal: Goal, plan: PlanInput, at: Time)
    requires !MayPlan(goal, plan, at)
    ensures Plan(Some(goal), plan, at).result.Refused? && Plan(Some(goal), plan, at).next == Some(goal)
  {
    hide IsPlannable, NormalizePlan, LastN, Fingerprint, Trim, HasText, Drafted, Ids, DependenciesKnown;
    PlanIsNormalizedIff(plan.items, if plan.replace then [] else goal.workItems, at);
  }

  lemma SoundPlanIsTaken(goal: Goal, plan: PlanInput, at: Time)
    requires MayPlan(goal, plan, at)
    ensures var step := Plan(Some(goal), plan, at);
      step.next.Some? && step.result == Accepted(step.next.value) && TakesPlan(goal, plan, at, step.next.value)
  {
    hide IsPlannable, NormalizePlan, FollowRetained, LastN, Fingerprint, Trim, HasText, Drafted, Ids,
         DependenciesKnown;
    var retained := if plan.replace then [] else goal.workItems;
    PlanIsNormalizedIff(plan.items, retained, at);
    DraftsFollow(plan.items, retained, at);
  }

  lemma DraftsFollow(inputs: seq<PlanItemInput>, retained: seq<WorkItem>, at: Time)
    ensures FollowRetained(retained, inputs, at, retained + Drafted(inputs, retained, at))
  {
    hide PlannedItem, IsPlannedAs;
    forall i | 0 <= i < |inputs|
      ensures IsPlannedAs(inputs[i], i, |retained|, at, Drafted(inputs, retained, at)[i])
    {
      PlannedIs(inputs[i], i, |retained|, at);
    }
  }

  // ---------------------------------------------------------------------------
  // Steering
  // ---------------------------------------------------------------------------

  /** A goal that is neither complete nor cancelled takes the status asked for; resuming forgets the reported blocks. */
  lemma TransitionStores(goal: Goal, target: SteeringTarget, at: Time)
    ensures var step := Perform(Some(goal), TransitionOp(target), at);
      if goal.status == Complete || goal.status == GoalStatus.Cancelled then
        step == Step(Some(goal), Refused(InvalidTransition))
      else if goal.status == target then step == Step(Some(goal), Accepted(goal))
      else
        && step.next.Some? && step.result == Accepted(step.next.value)
        && step.next.value == goal.(status := target, updatedAt := at, revision := goal.revision + 1,
             blockAudit := if goal.status == Blocked && target == Active then [] else goal.blockAudit)
  {
  }

  /** A typed new objective of a goal still under way is stored, and a replan is forced. */
  lemma RetargetStores(goal: Goal, objective: string, at: Time)
    ensures var step := Perform(Some(goal), RetargetOp(objective), at);
      if !IsTyped(objective) || goal.status == Complete || goal.status == GoalStatus.Cancelled then
        step == Step(Some(goal), Refused(InvalidTransition))
      else if goal.objective == Trim(objective) then step == Step(Some(goal), Accepted(goal))
      else
        && step.next.Some? && step.result == Accepted(step.next.value)
        && step.next.value == goal.(objective := Trim(objective), noFollowupReason := None,
             forcedReplan := Some(ForcedReplan(at, "objective_changed")),
             updatedAt := at, revision := goal.revision + 1)
  {
    hide Trim, IsSpace, IsBlank;
    TypedIs(objective);
  }

  /** An active goal is made to replan, for the reason given or by the operator's wish. */
  lemma ForceReplanStores(goal: Goal, reason: string, at: Time)
    ensures var step := Perform(Some(goal), ForceReplanOp(reason), at);
      if goal.status != Active then step == Step(Some(goal), Refused(InvalidTransition))
      else
        && step.next.Some? && step.result == Accepted(step.next.value)
        && step.next.value == goal.(updatedAt := at, revision := goal.revision + 1,
             forcedReplan := Some(ForcedReplan(at, if IsTyped(reason) then Trim(reason) else "operator_requested")))
  {
    hide Trim, IsSpace, IsBlank;
    TypedIs(reason);
  }

  /** Wording is revised when its reader saw the present revision and an objective is left. */
  lemma ReviseStores(goal: Goal, objective: Option<string>, criteria: Option<string>, expected: Option<nat>, at: Time)
    ensures var step := Perform(Some(goal), ReviseOp(objective, criteria, expected), at);
      var text := if objective.Some? then Trim(objective.value) else goal.objective;
      if !IsExpected(goal, expected) then step == Step(Some(goal), Refused(Conflict))
      else if text == "" then step == Step(Some(goal), Refused(InvalidTransition))
      else
        && step.next.Some? && step.result == Accepted(step.next.value)
        && step.next.value == goal.(objective := text, updatedAt := at, revision := goal.revision + 1,
             completionCriteria := if criteria.Some? && IsTyped(criteria.value) then Some(Trim(criteria.value))
                                   else goal.completionCriteria)
  {
    hide Trim, IsSpace;
    if criteria.Some? {
      TypedIs(criteria.value);
    }
  }

  predicate IsItemAt(items: seq<WorkItem>, id: Id, i: nat) {
    i < |items| && items[i].id == id && forall j :: 0 <= j < i ==> items[j].id != id
  }

  /** Agent work that is open or claimed is made to run; running work runs on, and everything else is refused. */
  lemma BeginStores(goal: Goal, id: Id, at: Time, i: nat)
    requires IsItemAt(goal.workItems, id, i)
    ensures var step := Perform(Some(goal), BeginOp(id), at); var item := goal.workItems[i];
      if item.role != Agent || (item.status != Open && item.status != Claimed && item.status != Running) then
        step == Step(Some(goal), Refused(InvalidTransition))
      else if item.status == Running then step == Step(Some(goal), Accepted(goal))
      else
        && step.next.Some? && step.result == Accepted(step.next.value)
        && step.next.value == goal.(workItems := goal.workItems[i := item.(status := Running, updatedAt := at)],
                                    updatedAt := at, revision := goal.revision + 1)
  {
    hide FindIndex;
    assert i == IndexOfId(goal.workItems, id);
  }

  // ---------------------------------------------------------------------------
  // Reporting
  // ---------------------------------------------------------------------------

  /** A typed note of an active goal is added to its evidence. */
  lemma ProgressStores(goal: Goal, note: string, expected: Option<nat>, at: Time)
    ensures var step := Perform(Some(goal), ProgressOp(note, expected), at);
      if !IsTyped(note) then step == Step(Some(goal), Refused(InvalidTransition))
      else if !IsExpected(goal, expected) then step == Step(Some(goal), Refused(Conflict))
      else if goal.status != Active then step == Step(Some(goal), Refused(InvalidTransition))
      else
        && step.next.Some? && step.result == Accepted(step.next.value)
        && step.next.value
            == goal.(evidence := step.next.value.evidence, updatedAt := at, revision := goal.revision + 1)
        && step.next.value.evidence != []
        && step.next.value.evidence[|step.next.value.evidence| - 1] == Evidence(None, at, Trim(note), None, None, false)
  {
    hide Trim, IsSpace, IsBlank, LastN;
    TailLast(goal.evidence + [Evidence(None, at, Trim(note), None, None, false)], 50);
    TypedIs(note);
  }

  /** The number of reports at the end that give this reason. */
  predicate EndsInReports(audit: seq<BlockEntry>, reason: string, n: nat) {
    && n <= |audit|
    && (forall k :: |audit| - n <= k < |audit| ==> audit[k].reason == reason)
    && (n < |audit| ==> audit[|audit| - n - 1].reason != reason)
  }

  lemma {:induction false} ReportsAreCounted(audit: seq<BlockEntry>, reason: string)
    ensures EndsInReports(audit, reason, TrailingRepeats(audit, reason))
  {
    if audit != [] && audit[|audit| - 1].reason == reason {
      ReportsAreCounted(audit[..|audit| - 1], reason);
    }
  }

  /**
   * A typed reason is reported while the goal is neither complete nor blocked. The
   * goal is blocked by the third report in a row that gives the reason, and active after any other.
   */
  lemma BlockStores(goal: Goal, reason: string, turn: Option<nat>, expected: Option<nat>, at: Time, n: nat)
    requires EndsInReports(goal.blockAudit, Trim(reason), n)
    ensures var step := Perform(Some(goal), BlockOp(reason, turn, expected), at);
      if !IsTyped(reason) then step == Step(Some(goal), Refused(InvalidTransition))
      else if !IsExpected(goal, expected) then step == Step(Some(goal), Refused(Conflict))
      else if goal.status == Complete || goal.status == Blocked then
        step == Step(Some(goal), Refused(InvalidTransition))
      else
        && step.next.Some? && step.result == Accepted(step.next.value)
        && var audit := step.next.value.blockAudit;
           && audit == LastN(goal.blockAudit + [BlockEntry(at, Trim(reason), turn, n + 1)], 20)
           && step.next.value == goal.(status := if n >= 2 then Blocked else Active, blockAudit := audit,
                                       updatedAt := at, revision := goal.revision + 1)
  {
    assert Perform(Some(goal), BlockOp(reason, turn, expected), at)
        == ReportBlock(Some(goal), reason, turn, expected, at);
    hide Perform;
    ReportsAreCounted(goal.blockAudit, Trim(reason));
    OneCount(goal.blockAudit, Trim(reason), n, TrailingRepeats(goal.blockAudit, Trim(reason)));
    hide Trim, IsSpace, IsBlank, IsTyped, LastN, TrailingRepeats, EndsInReports;
    TypedIs(reason);
  }

  lemma OneCount(audit: seq<BlockEntry>, reason: string, m: nat, n: nat)
    requires EndsInReports(audit, reason, m) && EndsInReports(audit, reason, n)
    ensures m == n
  {
    assert m < |audit| ==> audit[|audit| - m - 1].reason != reason;
    assert n < |audit| ==> audit[|audit| - n - 1].reason != reason;
  }

  // ---------------------------------------------------------------------------
  // Asking
  // ---------------------------------------------------------------------------

  /** A completion request with its note and references waits for the next settlement. */
  lemma CompletionRequestStores(goal: Goal, note: string, refs: seq<string>, expected: Option<nat>, at: Time)
    ensures var step := Perform(Some(goal), RequestCompletionOp(note, refs, expected), at);
      if !IsTyped(note) then step == Step(Some(goal), Refused(InvalidTransition))
      else if !IsExpected(goal, expected) then step == Step(Some(goal), Refused(Conflict))
      else if goal.status != Active then step == Step(Some(goal), Refused(InvalidTransition))
      else
        && step.next.Some? && step.result == Accepted(step.next.value)
        && var request := step.next.value.completionRequest;
           && request.Some? && request.value.at == at && request.value.note == Trim(note)
           && IsStoredList(refs, request.value.evidenceRefs)
           && step.next.value == goal.(completionRequest := request, updatedAt := at, revision := goal.revision + 1)
  {
    hide Trim, IsSpace, IsBlank, UniqueStrings, IsStoredList;
    TypedIs(note);
    StoredListIs(refs);
  }

  /** The request as it was put. */
  predicate IsRequestFor(request: ItemRequest, input: UpdateRequestInput, at: Time) {
    && request.at == at && request.workItemId == input.workItemId && request.status == input.status
    && request.note == Trim(input.note) && IsStoredList(input.evidenceRefs, request.evidenceRefs)
    && IsStoredText(input.noFollowupReason, request.noFollowupReason)
    && IsStoredText(input.resumeWhen, request.resumeWhen)
  }

  /** The request waits behind the others, in place of an older one for the item. */
  ghost predicate QueuesRequest(goal: Goal, input: UpdateRequestInput, at: Time, next: Goal) {
    var requests := next.workItemRequests;
    && requests != [] && IsRequestFor(requests[|requests| - 1], input, at)
    && (forall r :: r in requests[..|requests| - 1] <==>
         r in goal.workItemRequests && r.workItemId != input.workItemId)
    && next == goal.(workItemRequests := requests, updatedAt := at, revision := goal.revision + 1)
  }

  predicate HasItemCalled(goal: Goal, id: Id) {
    exists x :: x in goal.workItems && x.id == id
  }

  /** A request with a typed note for an item of the goal is queued. */
  lemma ItemRequestStores(goal: Goal, input: UpdateRequestInput, at: Time)
    ensures var step := Perform(Some(goal), RequestUpdateOp(input), at);
      if !IsTyped(input.note) then step == Step(Some(goal), Refused(InvalidTransition))
      else if !IsExpected(goal, input.expectedRevision) then step == Step(Some(goal), Refused(Conflict))
      else if !HasItemCalled(goal, input.workItemId) then step == Step(Some(goal), Refused(NotFound))
      else
        step.next.Some? && step.result == Accepted(step.next.value) && QueuesRequest(goal, input, at, step.next.value)
  {
    hide RequestWorkItemUpdate, QueuesRequest, HasItemCalled, IsTyped;
    if IsTyped(input.note) && IsExpected(goal, input.expectedRevision) && HasItemCalled(goal, input.workItemId) {
      SoundRequestIsQueued(goal, input, at);
    } else {
      OtherRequestIsRefused(goal, input, at);
    }
  }

  lemma OtherRequestIsRefused(goal: Goal, input: UpdateRequestInput, at: Time)
    ensures var step := RequestWorkItemUpdate(Some(goal), input, at);
      if !IsTyped(input.note) then step == Step(Some(goal), Refused(InvalidTransition))
      else if !IsExpected(goal, input.expectedRevision) then step == Step(Some(goal), Refused(Conflict))
      else !HasItemCalled(goal, input.workItemId) ==> step == Step(Some(goal), Refused(NotFound))
  {
    hide Trim, IsSpace, IsBlank, IsTyped, UniqueStrings, Trimmed;
    TypedIs(input.note);
    CalledIs(goal, input.workItemId);
    hide HasItemCalled, Ids;
  }

  lemma CalledIs(goal: Goal, id: Id)
    ensures id in Ids(goal.workItems) <==> HasItemCalled(goal, id)
  {
  }

  lemma SoundRequestIsQueued(goal: Goal, input: UpdateRequestInput, at: Time)
    requires IsTyped(input.note) && IsExpected(goal, input.expectedRevision) && HasItemCalled(goal, input.workItemId)
    ensures var step := RequestWorkItemUpdate(Some(goal), input, at);
      step.next.Some? && step.result == Accepted(step.next.value) && QueuesRequest(goal, input, at, step.next.value)
  {
    hide Trim, IsSpace, IsBlank, IsTyped, IsRequestFor, UniqueStrings, Trimmed;
    TypedIs(input.note);
    CalledIs(goal, input.workItemId);
    hide HasItemCalled, Ids;
    var request := ItemRequest(at, input.workItemId, input.status, Trim(input.note), UniqueStrings(input.evidenceRefs),
                               Trimmed(input.noFollowupReason), Trimmed(input.resumeWhen));
    RequestIs(input, request, at);
    var others := WithoutRequestsFor(goal.workItemRequests, input.workItemId);
    assert (others + [request])[..|others + [request]| - 1] == others;
  }

  lemma RequestIs(input: UpdateRequestInput, request: ItemRequest, at: Time)
    requires request == ItemRequest(at, input.workItemId, input.status, Trim(input.note),
                                    UniqueStrings(input.evidenceRefs),
                                    Trimmed(input.noFollowupReason), Trimmed(input.resumeWhen))
    ensures IsRequestFor(request, input, at)
  {
    hide IsStoredList, IsStoredText, Trim;
    StoredListIs(input.evidenceRefs);
    StoredTextIs(input.noFollowupReason);
    StoredTextIs(input.resumeWhen);
  }

  // ---------------------------------------------------------------------------
  // Gates
  // ---------------------------------------------------------------------------

  predicate IsGateAt(items: seq<WorkItem>, id: Id, i: nat) {
    && i < |items| && items[i].id == id && (forall j :: 0 <= j < i ==> items[j].id != id)
    && items[i].role == User && items[i].taskClass == UserGate
  }

  /** A typed answer to a gate makes it done on the user's word, and the goal active; nothing else is accepted. */
  lemma AnswerStores(goal: Goal, id: Id, answer: string, at: Time)
    ensures var step := Perform(Some(goal), AnswerGateOp(id, answer), at);
      var ref := "user:" + id + ":" + Decimal(goal.revision + 1);
      if !IsTyped(answer) || (forall i: nat :: !IsGateAt(goal.workItems, id, i)) then
        step == Step(Some(goal), Refused(InvalidTransition))
      else
        && step.next.Some? && step.result == Accepted(step.next.value)
        && exists i: nat :: IsGateAt(goal.workItems, id, i) &&
             step.next.value == goal.(status := Active,
               workItems :=
                 goal.workItems[i := goal.workItems[i].(status := Done, evidenceRefs := [ref], updatedAt := at)],
               planRevision := goal.planRevision + 1, evidence := step.next.value.evidence,
               updatedAt := at, revision := goal.revision + 1)
  {
    hide Trim, IsSpace, IsBlank, LastN, Decimal, FindIndex;
    TypedIs(answer);
    var i := IndexOfId(goal.workItems, id);
    assert forall k: nat :: IsGateAt(goal.workItems, id, k) ==> k == i;
    if i < |goal.workItems| && goal.workItems[i].role == User && goal.workItems[i].taskClass == UserGate {
      assert IsGateAt(goal.workItems, id, i);
    }
  }

  // ---------------------------------------------------------------------------
  // The plan revision
  // ---------------------------------------------------------------------------

  /** A pending request names an item of the goal, and is not for `done` on evidence that was not observed. */
  predicate IsGranted(goal: Goal, request: ItemRequest, observed: set<string>) {
    && request in goal.workItemRequests && request.workItemId in Ids(goal.workItems)
    && IsAdmissible(request, observed)
  }

  lemma {:induction false} GrantingChanges(a: Applied, requests: seq<ItemRequest>, observed: set<string>, at: Time,
                                           k: nat)
    requires k <= |requests|
    ensures ApplyPrefix(a, requests, observed, at, k).changed <==>
      a.changed ||
      exists j :: 0 <= j < k && requests[j].workItemId in Ids(a.workItems) && IsAdmissible(requests[j], observed)
  {
    hide IsAdmissible, ApplyRequest, SameIds;
    if k > 0 {
      GrantingChanges(a, requests, observed, at, k - 1);
      var before := ApplyPrefix(a, requests, observed, at, k - 1);
      AppliedKeepsIds(a, requests, observed, at, k - 1);
      SameIdsSameSet(a.workItems, before.workItems);
      OneGrantChanges(before, requests[k - 1], observed, at);
    }
  }

  lemma OneGrantChanges(a: Applied, request: ItemRequest, observed: set<string>, at: Time)
    ensures ApplyRequest(a, request, observed, at).changed <==>
      a.changed || (request.workItemId in Ids(a.workItems) && IsAdmissible(request, observed))
  {
    hide UniqueStrings, FindIndex;
    var i := IndexOfId(a.workItems, request.workItemId);
    if i < |a.workItems| {
      assert a.workItems[i].id in Ids(a.workItems);
    }
  }

  /**
   * A new settlement advances the plan revision exactly when it grants a request or
   * records a failed or interrupted turn; only a run that has advanced it counts as a changed plan.
   */
  lemma SettlementAdvancesPlanIff(goal: Goal, input: SettleInput)
    requires !HasReceipt(goal.turnReceipts, input.receipt.id)
    ensures var step := SettleTurn(Some(goal), input);
      && step.next.Some? && step.next.value.turnReceipts != []
      && var recorded := step.next.value.turnReceipts[|step.next.value.turnReceipts| - 1];
         var advances := (exists r :: IsGranted(goal, r, ObservedRefs(goal, input)))
             || recorded.outcome == Failed || recorded.outcome == Interrupted;
         step.next.value.planRevision == goal.planRevision + if advances then 1 else 0
  {
    hide IsAdmissible, ObservedRefs, ApplyPrefix, CountDone, CountVerified, SettleReplanAudit, EffectiveReceipt,
         CompletionAccepted, Reopen, HasReceipt;
    var observed, at, n := ObservedRefs(goal, input), input.receipt.at, |goal.workItemRequests|;
    GrantingChanges(Unapplied(goal), goal.workItemRequests, observed, at, n);
    if r :| IsGranted(goal, r, observed) {
      var j :| 0 <= j < n && goal.workItemRequests[j] == r;
    }
    if j :| 0 <= j < n && IsGranted(goal, goal.workItemRequests[j], observed) {
      assert IsGranted(goal, goal.workItemRequests[j], observed);
    }
  }

  // ---------------------------------------------------------------------------
  // What a settlement counts
  // ---------------------------------------------------------------------------

  function DonePlaces(items: seq<WorkItem>): set<nat> {
    set i: nat | i < |items| && items[i].status == Done
  }

  function VerifiedPlaces(evidence: seq<Evidence>): set<nat> {
    set i: nat | i < |evidence| && evidence[i].verified
  }

  lemma {:induction false} DoneAreCounted(items: seq<WorkItem>)
    ensures CountDone(items) == |DonePlaces(items)|
  {
    if items != [] {
      var n := |items| - 1;
      DoneAreCounted(items[..n]);
      assert DonePlaces(items) == DonePlaces(items[..n]) + if items[n].status == Done then {n} else {};
    } else {
      assert DonePlaces(items) == {};
    }
  }

  lemma {:induction false} VerifiedAreCounted(evidence: seq<Evidence>)
    ensures CountVerified(evidence) == |VerifiedPlaces(evidence)|
  {
    if evidence != [] {
      var n := |evidence| - 1;
      VerifiedAreCounted(evidence[..n]);
      assert VerifiedPlaces(evidence) == VerifiedPlaces(evidence[..n]) + if evidence[n].verified then {n} else {};
    } else {
      assert VerifiedPlaces(evidence) == {};
    }
  }

  /**
   * A new settlement counts a turn that is recorded as passed or as validated work, the
   * items that are done beyond those done before, its verified evidence, and its usage.
   */
  lemma SettlementCounts(goal: Goal, input: SettleInput)
    requires !HasReceipt(goal.turnReceipts, input.receipt.id)
    ensures var step := SettleTurn(Some(goal), input);
      && step.next.Some? && step.next.value.turnReceipts != []
      && var next := step.next.value; var recorded := next.turnReceipts[|next.turnReceipts| - 1];
         var done, before := |DonePlaces(next.workItems)|, |DonePlaces(goal.workItems)|;
         && next.delivery.validatedTurns == goal.delivery.validatedTurns +
              (if recorded.validation.status == Passed || recorded.outcome in {ValidatedProgress, ValidatedCompletion}
               then 1 else 0)
         && next.delivery.completedWorkItems == goal.delivery.completedWorkItems +
              (if done > before then done - before else 0)
         && next.delivery.evidenceItems == goal.delivery.evidenceItems + |VerifiedPlaces(input.evidence)|
         && next.consumption.turns == goal.consumption.turns + input.receipt.usage.turns
         && next.consumption.toolIterations == goal.consumption.toolIterations + input.receipt.usage.toolIterations
         && next.consumption.tokens == goal.consumption.tokens + input.receipt.usage.tokens
  {
    var next := SettleTurn(Some(goal), input).next.value;
    DoneAreCounted(next.workItems);
    DoneAreCounted(goal.workItems);
    VerifiedAreCounted(input.evidence);
    hide DonePlaces, VerifiedPlaces, CountDone, CountVerified, ApplyRequests, ObservedRefs, EffectiveReceipt,
         CompletionAccepted, SettleReplanAudit, Reopen, HasReceipt, ReplanBlocked;
  }

  /** It takes its time from the receipt, uses up what was asked for, and leaves the rest of the goal alone. */
  lemma SettlementTouches(goal: Goal, input: SettleInput)
    requires !HasReceipt(goal.turnReceipts, input.receipt.id)
    ensures var step := SettleTurn(Some(goal), input);
      && step.next.Some? && step.result == Accepted(step.next.value)
      && var next := step.next.value;
         next == goal.(status := next.status, consumption := next.consumption, delivery := next.delivery,
                       evidence := next.evidence, turnReceipts := next.turnReceipts, workItems := next.workItems,
                       planRevision := next.planRevision, replanAudit := next.replanAudit,
                       forcedReplan := next.forcedReplan, noFollowupReason := next.noFollowupReason,
                       completionRequest := None, workItemRequests := [],
                       updatedAt := input.receipt.at, revision := goal.revision + 1)
  {
    hide CountDone, CountVerified, ApplyRequests, ObservedRefs, EffectiveReceipt, CompletionAccepted,
         SettleReplanAudit, Reopen, HasReceipt, ReplanBlocked, LastN;
  }

  // ---------------------------------------------------------------------------
  // What a settlement records
  // ---------------------------------------------------------------------------

  /** Exactly the references that were not observed. */
  ghost predicate ListsMissing(missing: seq<string>, refs: seq<string>, observed: set<string>) {
    forall r :: r in missing <==> r in refs && r !in observed
  }

  predicate AllObserved(refs: seq<string>, observed: set<string>) {
    forall r :: r in refs ==> r in observed
  }

  lemma {:induction false} MissingAreListed(refs: seq<string>, observed: set<string>)
    ensures ListsMissing(Missing(refs, observed), refs, observed)
  {
    if refs != [] {
      MissingAreListed(refs[1..], observed);
      assert forall r :: r in refs <==> r == refs[0] || r in refs[1..];
    }
  }

  /** A request for `done` that cites nothing, or something that was not observed, for an item of the goal. */
  predicate IsInVain(goal: Goal, request: ItemRequest, observed: set<string>) {
    && request.workItemId in Ids(goal.workItems) && request.status == Done
    && (request.evidenceRefs == [] || !AllObserved(request.evidenceRefs, observed))
  }

  /** The last of the first `n` pending requests that is in vain. */
  predicate IsLastInVain(goal: Goal, observed: set<string>, n: nat, j: nat)
    requires n <= |goal.workItemRequests|
  {
    && j < n && IsInVain(goal, goal.workItemRequests[j], observed)
    && forall k :: j < k < n ==> !IsInVain(goal, goal.workItemRequests[k], observed)
  }

  ghost predicate NamesItem(failure: Failure, request: ItemRequest, observed: set<string>) {
    if AllObserved(request.evidenceRefs, observed) then failure == ItemNeedsEvidence(request.workItemId)
    else failure.ItemRefsMissing? && failure.itemId == request.workItemId
         && ListsMissing(failure.refs, request.evidenceRefs, observed)
  }

  /** Why the completion is not accepted: unobserved references, none where there are criteria, or open work. */
  ghost predicate NamesCompletion(goal: Goal, failure: Failure, request: CompletionRequest, observed: set<string>) {
    if !AllObserved(request.evidenceRefs, observed) then
      failure.CompletionRefsMissing? && ListsMissing(failure.refs, request.evidenceRefs, observed)
    else if goal.completionCriteria.Some? && IsTyped(goal.completionCriteria.value) && request.evidenceRefs == [] then
      failure == CriteriaNeedEvidence
    else failure == FrontierNotTerminal
  }

  lemma OneRequestNames(goal: Goal, a: Applied, request: ItemRequest, observed: set<string>, at: Time)
    requires Ids(a.workItems) == Ids(goal.workItems)
    ensures var b := ApplyRequest(a, request, observed, at);
      if IsInVain(goal, request, observed) then b.failure.Some? && NamesItem(b.failure.value, request, observed)
      else b.failure == a.failure
  {
    hide UniqueStrings, FindIndex;
    MissingAreListed(request.evidenceRefs, observed);
    var i := IndexOfId(a.workItems, request.workItemId);
    if i < |a.workItems| {
      assert a.workItems[i].id in Ids(a.workItems);
    }
  }

  lemma {:induction false} LastInVainIsNamed(goal: Goal, observed: set<string>, at: Time, k: nat)
    requires k <= |goal.workItemRequests|
    ensures var b := ApplyPrefix(Unapplied(goal), goal.workItemRequests, observed, at, k);
      && (forall j: nat :: IsLastInVain(goal, observed, k, j) ==>
            b.failure.Some? && NamesItem(b.failure.value, goal.workItemRequests[j], observed))
      && ((forall j :: 0 <= j < k ==> !IsInVain(goal, goal.workItemRequests[j], observed)) ==> b.failure == None)
  {
    hide ApplyRequest, IsInVain, NamesItem, SameIds, Ids;
    if k > 0 {
      LastInVainIsNamed(goal, observed, at, k - 1);
      var before := ApplyPrefix(Unapplied(goal), goal.workItemRequests, observed, at, k - 1);
      AppliedKeepsIds(Unapplied(goal), goal.workItemRequests, observed, at, k - 1);
      SameIdsSameSet(goal.workItems, before.workItems);
      OneRequestNames(goal, before, goal.workItemRequests[k - 1], observed, at);
      forall j: nat | IsLastInVain(goal, observed, k, j) && j < k - 1
        ensures IsLastInVain(goal, observed, k - 1, j)
      {
      }
    }
  }

  lemma CompletionIsNamed(goal: Goal, input: SettleInput, applied: Applied)
    requires goal.completionRequest.Some? && !CompletionAccepted(goal, input, applied)
    ensures var failure := CompletionFailure(goal, input, applied);
      failure.Some? && NamesCompletion(goal, failure.value, goal.completionRequest.value, ObservedRefs(goal, input))
  {
    hide ObservedRefs, FrontierClosed;
    MissingAreListed(goal.completionRequest.value.evidenceRefs, ObservedRefs(goal, input));
    if goal.completionCriteria.Some? {
      TypedIs(goal.completionCriteria.value);
    }
  }

  /**
   * A failed validation says why: it names what a completion lacks, or else the last
   * request made in vain and the references that were not observed for it.
   */
  lemma FailureIsNamed(goal: Goal, input: SettleInput)
    requires !HasReceipt(goal.turnReceipts, input.receipt.id)
    requires !CompletionAccepted(goal, input, ApplyRequests(goal, ObservedRefs(goal, input), input.receipt.at))
    ensures var step := SettleTurn(Some(goal), input);
      && step.next.Some? && step.next.value.turnReceipts != []
      && var recorded := step.next.value.turnReceipts[|step.next.value.turnReceipts| - 1];
         var observed, reason := ObservedRefs(goal, input), recorded.validation.reason;
         && (goal.completionRequest.Some? ==>
              reason.Some? && NamesCompletion(goal, reason.value, goal.completionRequest.value, observed))
         && (goal.completionRequest == None ==>
              forall j: nat :: IsLastInVain(goal, observed, |goal.workItemRequests|, j) ==>
                reason.Some? && NamesItem(reason.value, goal.workItemRequests[j], observed))
  {
    var observed, at, n := ObservedRefs(goal, input), input.receipt.at, |goal.workItemRequests|;
    LastInVainIsNamed(goal, observed, at, n);
    if goal.completionRequest.Some? {
      CompletionIsNamed(goal, input, ApplyRequests(goal, observed, at));
    }
    hide ObservedRefs, ApplyPrefix, CountDone, CountVerified, SettleReplanAudit, CompletionAccepted, Reopen, HasReceipt,
         IsInVain, NamesItem, NamesCompletion, ReplanBlocked;
  }

  /** An accepted completion is recorded as validated and passed, and completes the goal if its request has a note. */
  lemma AcceptanceIsRecorded(goal: Goal, input: SettleInput)
    requires !HasReceipt(goal.turnReceipts, input.receipt.id)
    requires CompletionAccepted(goal, input, ApplyRequests(goal, ObservedRefs(goal, input), input.receipt.at))
    ensures var step := SettleTurn(Some(goal), input);
      && step.next.Some? && step.next.value.turnReceipts != []
      && step.next.value.turnReceipts[|step.next.value.turnReceipts| - 1]
          == input.receipt.(outcome := ValidatedCompletion, validation := Validation(Passed, None))
      && (goal.completionRequest.Some? && goal.completionRequest.value.note != "" ==>
           step.next.value.status == Complete)
  {
    hide ObservedRefs, ApplyRequests, CountDone, CountVerified, SettleReplanAudit, CompletionAccepted, Reopen,
         HasReceipt, ReplanBlocked;
  }

  // ---------------------------------------------------------------------------
  // What a run reports
  // ---------------------------------------------------------------------------

  predicate IsEvidenceOf(e: Evidence, call: ToolCall) {
    && e.id == Some("goal-evidence:" + call.id) && e.at == call.completedAt && e.kind == Some(ToolResult)
    && e.ref == Some("tool:" + call.id) && e.verified
  }

  function Successful(calls: seq<ToolCall>): seq<ToolCall> {
    if calls == [] then []
    else (if calls[0].isError then [] else [calls[0]]) + Successful(calls[1..])
  }

  /** One entry for each successful call, in order. */
  predicate AreEvidence(calls: seq<ToolCall>, evidence: seq<Evidence>) {
    && |evidence| == |Successful(calls)|
    && forall i :: 0 <= i < |evidence| ==> IsEvidenceOf(evidence[i], Successful(calls)[i])
  }

  lemma {:induction false} CallsAreEvidence(calls: seq<ToolCall>)
    ensures AreEvidence(calls, ToolEvidence(calls))
  {
    hide IsEvidenceOf;
    if calls != [] {
      CallsAreEvidence(calls[1..]);
      var rest, good := ToolEvidence(calls[1..]), Successful(calls[1..]);
      if !calls[0].isError {
        FirstCallIsEvidence(calls);
        assert Successful(calls) == [calls[0]] + good;
        assert forall i :: 0 < i < |ToolEvidence(calls)| ==> ToolEvidence(calls)[i] == rest[i - 1];
      }
    }
  }

  lemma FirstCallIsEvidence(calls: seq<ToolCall>)
    requires calls != [] && !calls[0].isError
    ensures ToolEvidence(calls) != [] && IsEvidenceOf(ToolEvidence(calls)[0], calls[0])
    ensures ToolEvidence(calls)[1..] == ToolEvidence(calls[1..])
  {
  }

  /** A call succeeded that does more than read. */
  predicate DidWork(calls: seq<ToolCall>) {
    exists c :: c in calls && !c.isError && !c.exploratory
  }

  /**
   * A run of an active goal is settled as one turn on the decided item: progress if a
   * call did more than read, no change otherwise, and for a replan the report whether the plan
   * has advanced since the decision. Its successful calls are its evidence.
   */
  lemma RunIsReported(goal: Goal, result: RunResult, decision: Decision)
    ensures var s := RunSettlement(goal, result, decision); var r := s.receipt;
      && r.id == "goal-turn:" + result.runId && r.runId == result.runId && r.at == result.completedAt
      && r.workItemId == (if decision.Run? then decision.workItemId else None)
      && r.outcome == (if decision.Replan? then ReplanRequired
                       else if DidWork(result.toolCalls) then ValidatedProgress else NoChange)
      && r.validation == Validation(if DidWork(result.toolCalls) then Passed else NotApplicable, None)
      && r.usage == Usage(1, |result.toolCalls|, result.tokens)
      && (set ref | ref in r.evidenceRefs) == (set c | c in result.toolCalls && !c.isError :: "tool:" + c.id)
      && AreEvidence(result.toolCalls, s.evidence)
      && !s.completionAccepted && s.observedRefs == r.evidenceRefs
      && (decision.Replan? ==>
           s.replan == Some(ReplanReport(decision.trigger, decision.fingerprint,
                                         decision.planRevision < goal.planRevision)))
      && (!decision.Replan? ==> s.replan == None)
    ensures SettleGoalRun(Some(goal), result, decision) ==
      if goal.status == Active then SettleTurn(Some(goal), RunSettlement(goal, result, decision)).next else Some(goal)
  {
    CallsAreEvidence(result.toolCalls);
    CallsAreObserved(result.toolCalls);
    assert forall c: ToolCall :: ToolRef(c) == "tool:" + c.id;
    hide ToolEvidence, ToolRefs, SettleTurn, AreEvidence, EvidenceRefs;
  }

  /** A failed or interrupted turn of an active goal is settled as one turn without calls and evidence. */
  lemma FailureIsReported(goal: Goal, runId: Id, workItemId: Option<Id>, interrupted: bool,
                          message: Option<string>, at: Time)
    ensures SettleGoalRunFailure(Some(goal), runId, workItemId, interrupted, message, at) ==
      if goal.status != Active then Some(goal)
      else
        var reason := if message.Some?
          then Some(Reported(if |message.value| <= 500 then message.value else message.value[..500])) else None;
        SettleTurn(Some(goal), SettleInput(
          Receipt("goal-turn:" + runId, runId, workItemId, at, if interrupted then Interrupted else Failed, [],
                  Validation(NotApplicable, reason), Usage(1, 0, 0)), [], [], false, None)).next
  {
    hide SettleTurn;
  }
}
