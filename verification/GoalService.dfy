/**
 * The goal lifecycle. Every mutation is one atomic step from the stored goal
 * to the next one; `Perform` dispatches over all of them.
 */
module GoalService {
  import opened Text
  import opened GoalTypes
  import opened GoalController

  const BLOCK_REPEAT_THRESHOLD: nat := 3
  const EVIDENCE_RETAIN: nat := 50
  const BLOCK_AUDIT_RETAIN: nat := 20
  const TURN_RECEIPT_RETAIN: nat := 100
  const REPLAN_AUDIT_RETAIN: nat := 30

  datatype Step = Step(next: Option<Goal>, result: MutationResult)

  function Refuse(current: Option<Goal>, reason: Refusal): Step {
    Step(current, Refused(reason))
  }

  function Accept(goal: Goal): Step {
    Step(Some(goal), Accepted(goal))
  }

  /** `goal` stamped with the time of the mutation and a new revision. */
  function Bump(goal: Goal, at: Time): Goal {
    goal.(updatedAt := at, revision := goal.revision + 1)
  }

  /** Trimmed, and absent when blank. */
  function Trimmed(t: Option<string>): (r: Option<string>)
    ensures r.Some? ==> r.value != ""
  {
    if HasText(t) then Some(Trim(t.value)) else None
  }

  predicate RevisionConflict(current: Option<Goal>, expected: Option<nat>) {
    expected.Some? && current.Some? && expected.value != current.value.revision
  }

  // ---------------------------------------------------------------------------
  // Planning
  // ---------------------------------------------------------------------------

  datatype PlanItemInput = PlanItemInput(
    id: Option<string>,
    role: Option<Role>,
    priority: Option<Priority>,
    taskClass: Option<TaskClass>,
    actionKind: Option<string>,
    text: string,
    dependsOn: seq<string>,
    successorOf: Option<string>,
    resumeWhen: Option<string>,
    roleScopes: seq<string>,
    excludedAgentIds: seq<string>)

  datatype PlanInput = PlanInput(
    items: seq<PlanItemInput>,
    replace: bool,
    reason: Option<string>,
    expectedRevision: Option<nat>)

  function BootstrapItem(objective: string, at: Time): WorkItem {
    WorkItem("goal-work:1", Agent, P0, Advancement, "advance", objective, Open, [], [],
             None, None, [], [], at, at)
  }

  function PlannedId(input: PlanItemInput, index: nat, retained: nat): Id {
    if HasText(input.id) then Trim(input.id.value)
    else "goal-work:" + Decimal(retained + index + 1)
  }

  function PlannedItem(input: PlanItemInput, index: nat, retained: nat, at: Time): WorkItem {
    WorkItem(
      PlannedId(input, index, retained),
      if input.role.Some? then input.role.value else Agent,
      if input.priority.Some? then input.priority.value else if index == 0 then P0 else P1,
      if input.taskClass.Some? then input.taskClass.value
      else if input.role == Some(User) then UserGate else Advancement,
      if HasText(input.actionKind) then Trim(input.actionKind.value) else "advance",
      Trim(input.text),
      Open,
      UniqueStrings(input.dependsOn),
      [],
      Trimmed(input.successorOf),
      Trimmed(input.resumeWhen),
      UniqueStrings(input.roleScopes),
      UniqueStrings(input.excludedAgentIds),
      at, at)
  }

  /** The first `k` inputs turned into items, or `None` if one is blank or reuses an id. */
  function PlanPrefix(inputs: seq<PlanItemInput>, retained: seq<WorkItem>, at: Time, k: nat): (r: Option<seq<WorkItem>>)
    requires k <= |inputs|
    ensures r.Some? ==> |r.value| == k
    ensures r.Some? && DistinctIds(retained) ==> DistinctIds(retained + r.value)
    ensures r.Some? ==> forall x :: x in r.value ==> x.status.Open? && x.evidenceRefs == []
  {
    if k == 0 then
      assert retained + [] == retained;
      Some([])
    else
      var init := PlanPrefix(inputs, retained, at, k - 1);
      if init.None? || IsBlank(inputs[k - 1].text) then None
      else
        var item := PlannedItem(inputs[k - 1], k - 1, |retained|, at);
        if exists x :: x in retained + init.value && x.id == item.id then None
        else
          assert retained + (init.value + [item]) == (retained + init.value) + [item];
          Some(init.value + [item])
  }

  /** No dependency on itself, and every dependency is a planned or retained item. */
  predicate DependenciesKnown(items: seq<WorkItem>, known: set<Id>) {
    forall x, d :: x in items && d in x.dependsOn ==> d in known && d != x.id
  }

  function NormalizePlan(inputs: seq<PlanItemInput>, retained: seq<WorkItem>, at: Time): (r: Option<seq<WorkItem>>)
    ensures r.Some? ==> r.value != [] && retained <= r.value
    ensures r.Some? && DistinctIds(retained) ==> DistinctIds(r.value)
    ensures r.Some? ==> forall i :: |retained| <= i < |r.value| ==>
      r.value[i].status.Open? && r.value[i].evidenceRefs == []
    ensures r.Some? ==> DependenciesKnown(r.value[|retained|..], Ids(r.value))
  {
    if inputs == [] then None
    else
      var planned := PlanPrefix(inputs, retained, at, |inputs|);
      if planned.Some? && DependenciesKnown(planned.value, Ids(retained + planned.value)) then
        assert (retained + planned.value)[|retained|..] == planned.value;
        Some(retained + planned.value)
      else None
  }

  function Plan(current: Option<Goal>, input: PlanInput, at: Time): Step {
    if RevisionConflict(current, input.expectedRevision) then Refuse(current, Conflict)
    else if current.None? then Refuse(current, NotFound)
    else if !current.value.status.Active? then Refuse(current, InvalidTransition)
    else
      var goal := current.value;
      var planned := NormalizePlan(input.items, if input.replace then [] else goal.workItems, at);
      if planned.None? then Refuse(current, InvalidTransition)
      else
        Accept(Bump(goal.(
          workItems := planned.value,
          workItemRequests := [],
          planRevision := goal.planRevision + 1,
          replanAudit :=
            if HasText(input.reason) then
              LastN(goal.replanAudit
                    + [ReplanEntry(at, Trim(input.reason.value), Fingerprint(goal.workItems), 0, true)],
                    REPLAN_AUDIT_RETAIN)
            else goal.replanAudit,
          forcedReplan := None,
          noFollowupReason := None), at))
  }

  // ---------------------------------------------------------------------------
  // Simple mutations
  // ---------------------------------------------------------------------------

  function Create(objective: string, criteria: Option<string>, budget: Option<Budget>, at: Time): Goal {
    Goal(Trim(objective), Trimmed(criteria), Active, budget, Usage(0, 0, 0), Delivery(0, 0, 0),
         [], [], [], None, [BootstrapItem(Trim(objective), at)], [], 0, [], None, None, at, at, 0)
  }

  function CreateStep(current: Option<Goal>, objective: string, criteria: Option<string>, budget: Option<Budget>,
                      at: Time): Step {
    if IsBlank(objective) then Refuse(current, InvalidInput)
    else Accept(Create(objective, criteria, budget, at))
  }

  function RecordProgress(current: Option<Goal>, note: string, expectedRevision: Option<nat>, at: Time): Step {
    if IsBlank(note) then Refuse(current, InvalidTransition)
    else if RevisionConflict(current, expectedRevision) then Refuse(current, Conflict)
    else if current.None? then Refuse(current, NotFound)
    else if !current.value.status.Active? then Refuse(current, InvalidTransition)
    else
      var goal := current.value;
      Accept(Bump(goal.(evidence :=
        LastN(goal.evidence + [Evidence(None, at, Trim(note), None, None, false)], EVIDENCE_RETAIN)), at))
  }

  function IndexOfId(items: seq<WorkItem>, id: Id): (i: nat)
    ensures i <= |items|
    ensures i < |items| ==> items[i].id == id
    ensures forall j :: 0 <= j < i ==> items[j].id != id
  {
    FindIndex(items, (x: WorkItem) => x.id == id)
  }

  function BeginWorkItem(current: Option<Goal>, workItemId: Id, at: Time): Step {
    if current.None? then Refuse(current, NotFound)
    else
      var goal := current.value;
      var i := IndexOfId(goal.workItems, workItemId);
      if i == |goal.workItems| || !goal.workItems[i].role.Agent? || !HasRunnableStatus(goal.workItems[i]) then
        Refuse(current, InvalidTransition)
      else if goal.workItems[i].status.Running? then Accept(goal)
      else
        Accept(Bump(goal.(
            workItems := goal.workItems[i := goal.workItems[i].(status := Running, updatedAt := at)]), at))
  }

  function ForceReplan(current: Option<Goal>, reason: string, at: Time): Step {
    if current.None? then Refuse(current, NotFound)
    else if !current.value.status.Active? then Refuse(current, InvalidTransition)
    else
      Accept(Bump(current.value.(forcedReplan := Some(ForcedReplan(
        at, if IsBlank(reason) then "operator_requested" else Trim(reason)))), at))
  }

  function Retarget(current: Option<Goal>, objective: string, at: Time): Step {
    if IsBlank(objective) then Refuse(current, InvalidTransition)
    else if current.None? then Refuse(current, NotFound)
    else if current.value.status.Complete? || current.value.status.Cancelled? then Refuse(current, InvalidTransition)
    else if current.value.objective == Trim(objective) then Accept(current.value)
    else
      Accept(Bump(current.value.(
        objective := Trim(objective),
        forcedReplan := Some(ForcedReplan(at, "objective_changed")),
        noFollowupReason := None), at))
  }

  datatype UpdateRequestInput = UpdateRequestInput(
    workItemId: Id,
    status: RequestStatus,
    note: string,
    evidenceRefs: seq<string>,
    noFollowupReason: Option<string>,
    resumeWhen: Option<string>,
    expectedRevision: Option<nat>)

  function WithoutRequestsFor(requests: seq<ItemRequest>, workItemId: Id): (r: seq<ItemRequest>)
    ensures forall x :: x in r <==> x in requests && x.workItemId != workItemId
  {
    if requests == [] then []
    else if requests[0].workItemId == workItemId then WithoutRequestsFor(requests[1..], workItemId)
    else [requests[0]] + WithoutRequestsFor(requests[1..], workItemId)
  }

  function RequestWorkItemUpdate(current: Option<Goal>, input: UpdateRequestInput, at: Time): Step {
    if IsBlank(input.note) then Refuse(current, InvalidTransition)
    else if RevisionConflict(current, input.expectedRevision) then Refuse(current, Conflict)
    else if current.None? then Refuse(current, NotFound)
    else if input.workItemId !in Ids(current.value.workItems) then Refuse(current, NotFound)
    else
      var goal := current.value;
      var request := ItemRequest(at, input.workItemId, input.status, Trim(input.note),
                                 UniqueStrings(input.evidenceRefs),
                                     Trimmed(input.noFollowupReason), Trimmed(input.resumeWhen));
      Accept(Bump(goal.(
          workItemRequests := WithoutRequestsFor(goal.workItemRequests, input.workItemId) + [request]), at))
  }

  function UserRef(workItemId: Id, revision: nat): string {
    "user:" + workItemId + ":" + Decimal(revision)
  }

  function AnswerUserGate(current: Option<Goal>, workItemId: Id, answer: string, at: Time): Step {
    if IsBlank(answer) then Refuse(current, InvalidTransition)
    else if current.None? then Refuse(current, NotFound)
    else
      var goal := current.value;
      var i := IndexOfId(goal.workItems, workItemId);
      if i == |goal.workItems| || !goal.workItems[i].role.User? || !goal.workItems[i].taskClass.UserGate? then
        Refuse(current, InvalidTransition)
      else
        var ref := UserRef(workItemId, goal.revision + 1);
        var note := Evidence(Some("goal-evidence:" + ref), at, Trim(answer), Some(UserDecision), Some(ref), true);
        Accept(Bump(goal.(
          status := Active,
          workItems := goal.workItems[i := goal.workItems[i].(status := Done, evidenceRefs := [ref], updatedAt := at)],
          planRevision := goal.planRevision + 1,
          evidence := LastN(goal.evidence + [note], EVIDENCE_RETAIN)), at))
  }

  function TrailingRepeats(audit: seq<BlockEntry>, reason: string): (n: nat)
    ensures n <= |audit|
  {
    if audit == [] || audit[|audit| - 1].reason != reason then 0
    else 1 + TrailingRepeats(audit[..|audit| - 1], reason)
  }

  method CountTrailingRepeatReasons(audit: seq<BlockEntry>, reason: string) returns (count: nat)
    ensures count == TrailingRepeats(audit, reason)
  {
    count := 0;
    var i := |audit| - 1;
    assert audit[..|audit|] == audit;
    while i >= 0
      invariant -1 <= i < |audit|
      invariant count + TrailingRepeats(audit[..i + 1], reason) == TrailingRepeats(audit, reason)
    {
      assert audit[..i + 1][..i] == audit[..i];
      if audit[i].reason == reason {
        count := count + 1;
      } else {
        break;
      }
      i := i - 1;
    }
  }

  function ReportBlock(current: Option<Goal>, reason: string, turn: Option<nat>, expectedRevision: Option<nat>,
                       at: Time): Step {
    if IsBlank(reason) then Refuse(current, InvalidTransition)
    else if RevisionConflict(current, expectedRevision) then Refuse(current, Conflict)
    else if current.None? then Refuse(current, NotFound)
    else if current.value.status.Complete? || current.value.status.Blocked? then Refuse(current, InvalidTransition)
    else
      var goal := current.value;
      var repeat := TrailingRepeats(goal.blockAudit, Trim(reason)) + 1;
      Accept(Bump(goal.(
        status := if repeat >= BLOCK_REPEAT_THRESHOLD then Blocked else Active,
        blockAudit := LastN(goal.blockAudit + [BlockEntry(at, Trim(reason), turn, repeat)], BLOCK_AUDIT_RETAIN)), at))
  }

  function RequestCompletion(current: Option<Goal>, note: string, refs: seq<string>, expectedRevision: Option<nat>,
                             at: Time): Step {
    if IsBlank(note) then Refuse(current, InvalidTransition)
    else if RevisionConflict(current, expectedRevision) then Refuse(current, Conflict)
    else if current.None? then Refuse(current, NotFound)
    else if !current.value.status.Active? then Refuse(current, InvalidTransition)
    else
      Accept(Bump(current.value.(completionRequest :=
        Some(CompletionRequest(at, Trim(note), UniqueStrings(refs)))), at))
  }

  type SteeringTarget = s: GoalStatus | s.Paused? || s.Active? || s.Cancelled? witness Paused

  function Transition(current: Option<Goal>, target: SteeringTarget, at: Time): Step {
    if current.None? then Refuse(current, NotFound)
    else
      var goal := current.value;
      if goal.status.Complete? || goal.status.Cancelled? then Refuse(current, InvalidTransition)
      else if goal.status == target then Accept(goal)
      else
        Accept(Bump(goal.(
          status := target,
          blockAudit := if target.Active? && goal.status.Blocked? then [] else goal.blockAudit), at))
  }

  /** A blank new criteria text leaves the old criteria in place. */
  function Revise(current: Option<Goal>, objective: Option<string>, criteria: Option<string>,
                  expectedRevision: Option<nat>, at: Time): Step {
    if RevisionConflict(current, expectedRevision) then Refuse(current, Conflict)
    else if current.None? then Refuse(current, NotFound)
    else
      var goal := current.value;
      var text := if objective.Some? then Trim(objective.value) else goal.objective;
      if text == "" then Refuse(current, InvalidTransition)
      else
        Accept(Bump(goal.(
          objective := text,
          completionCriteria := if HasText(criteria) then Trimmed(criteria) else goal.completionCriteria), at))
  }

  // ---------------------------------------------------------------------------
  // Settling a turn
  // ---------------------------------------------------------------------------

  datatype ReplanReport = ReplanReport(trigger: string, fingerprint: string, deltaRecorded: bool)

  datatype SettleInput = SettleInput(
    receipt: Receipt,
    evidence: seq<Evidence>,
    observedRefs: seq<string>,
    completionAccepted: bool,
    replan: Option<ReplanReport>)

  datatype Applied = Applied(
    workItems: seq<WorkItem>,
    changed: bool,
    noFollowupReason: Option<string>,
    failure: Option<Failure>)

  function EvidenceRefs(evidence: seq<Evidence>): (refs: set<string>) {
    set e | e in evidence && e.ref.Some? && e.ref.value != "" :: e.ref.value
  }

  function ObservedRefs(goal: Goal, input: SettleInput): set<string> {
    EvidenceRefs(goal.evidence) + EvidenceRefs(input.evidence) + (set r | r in input.observedRefs)
  }

  function Missing(refs: seq<string>, observed: set<string>): (m: seq<string>)
    ensures m == [] <==> forall r :: r in refs ==> r in observed
  {
    if refs == [] then []
    else if refs[0] in observed then Missing(refs[1..], observed)
    else [refs[0]] + Missing(refs[1..], observed)
  }

  /** One iteration of the request loop. */
  function ApplyRequest(a: Applied, request: ItemRequest, observed: set<string>, at: Time): Applied {
    var i := IndexOfId(a.workItems, request.workItemId);
    if i == |a.workItems| then a
    else
      var item := a.workItems[i];
      var missing := Missing(request.evidenceRefs, observed);
      if request.status.Done? && (missing != [] || request.evidenceRefs == []) then
        a.(failure := Some(if missing != [] then ItemRefsMissing(item.id, missing) else ItemNeedsEvidence(item.id)))
      else
        Applied(
          a.workItems[i := item.(
            status := request.status,
            evidenceRefs := UniqueStrings(item.evidenceRefs + request.evidenceRefs),
            updatedAt := at,
            resumeWhen := if request.resumeWhen.Some? && request.resumeWhen.value != "" then request.resumeWhen
                else item.resumeWhen)],
          true,
          if request.status.Done? && request.noFollowupReason.Some? && request.noFollowupReason.value != ""
          then request.noFollowupReason else a.noFollowupReason,
          a.failure)
  }

  function ApplyPrefix(a: Applied, requests: seq<ItemRequest>, observed: set<string>, at: Time, k: nat): Applied
    requires k <= |requests|
  {
    if k == 0 then a
    else ApplyRequest(ApplyPrefix(a, requests, observed, at, k - 1), requests[k - 1], observed, at)
  }

  function Unapplied(goal: Goal): Applied {
    Applied(goal.workItems, false, goal.noFollowupReason, None)
  }

  function ApplyRequests(goal: Goal, observed: set<string>, at: Time): Applied {
    ApplyPrefix(Unapplied(goal), goal.workItemRequests, observed, at, |goal.workItemRequests|)
  }

  method ApplyWorkItemRequests(goal: Goal, observed: set<string>, at: Time) returns (a: Applied)
    ensures a == ApplyRequests(goal, observed, at)
  {
    if goal.workItemRequests == [] {
      return Unapplied(goal);
    }
    var workItems := goal.workItems;
    var changed := false;
    var noFollowupReason := goal.noFollowupReason;
    var failure: Option<Failure> := None;
    for k := 0 to |goal.workItemRequests|
      invariant Applied(workItems, changed, noFollowupReason, failure)
             == ApplyPrefix(Unapplied(goal), goal.workItemRequests, observed, at, k)
    {
      var request := goal.workItemRequests[k];
      var i := IndexOfId(workItems, request.workItemId);
      if i == |workItems| {
        continue;
      }
      var item := workItems[i];
      var missing := Missing(request.evidenceRefs, observed);
      if request.status.Done? && (missing != [] || request.evidenceRefs == []) {
        failure := Some(if missing != [] then ItemRefsMissing(item.id, missing) else ItemNeedsEvidence(item.id));
        continue;
      }
      item := item.(status := request.status,
                    evidenceRefs := UniqueStrings(item.evidenceRefs + request.evidenceRefs),
                    updatedAt := at);
      if request.resumeWhen.Some? && request.resumeWhen.value != "" {
        item := item.(resumeWhen := request.resumeWhen);
      }
      workItems := workItems[i := item];
      if request.status.Done? && request.noFollowupReason.Some? && request.noFollowupReason.value != "" {
        noFollowupReason := request.noFollowupReason;
      }
      changed := true;
    }
    a := Applied(workItems, changed, noFollowupReason, failure);
  }

  function SettleReplanAudit(audit: seq<ReplanEntry>, report: Option<ReplanReport>,
                             at: Time): (next: seq<ReplanEntry>) {
    if report.None? then audit
    else LastN(audit + [NextReplanEntry(audit, report.value, at)], REPLAN_AUDIT_RETAIN)
  }

  function NextReplanEntry(audit: seq<ReplanEntry>, report: ReplanReport, at: Time): ReplanEntry {
    var repeat :=
      if !report.deltaRecorded && audit != []
         && audit[|audit| - 1].fingerprint == report.fingerprint && !audit[|audit| - 1].deltaRecorded
      then audit[|audit| - 1].repeat + 1
      else if report.deltaRecorded then 0 else 1;
    ReplanEntry(at, report.trigger, report.fingerprint, repeat, report.deltaRecorded)
  }

  predicate ReplanBlocked(audit: seq<ReplanEntry>) {
    audit != [] && !audit[|audit| - 1].deltaRecorded && audit[|audit| - 1].repeat >= BLOCK_REPEAT_THRESHOLD
  }

  function CountDone(items: seq<WorkItem>): (n: nat)
    ensures n <= |items|
  {
    if items == [] then 0
    else CountDone(items[..|items| - 1]) + if items[|items| - 1].status.Done? then 1 else 0
  }

  function CountVerified(evidence: seq<Evidence>): nat {
    if evidence == [] then 0
    else CountVerified(evidence[..|evidence| - 1]) + if evidence[|evidence| - 1].verified then 1 else 0
  }

  predicate IsFailureOutcome(o: Outcome) {
    o.Interrupted? || o.Failed?
  }

  function Reopen(items: seq<WorkItem>, id: Id, at: Time): (r: seq<WorkItem>)
    ensures |r| == |items|
    ensures forall i :: 0 <= i < |items| ==>
      r[i] == if items[i].id == id && items[i].status.Running? then items[i].(status := Open, updatedAt := at)
          else items[i]
  {
    seq(|items|, i requires 0 <= i < |items| =>
      if items[i].id == id && items[i].status.Running? then items[i].(status := Open, updatedAt := at) else items[i])
  }

  predicate CompletionEvidenceSatisfied(goal: Goal, observed: set<string>) {
    goal.completionRequest.Some? &&
    var refs := goal.completionRequest.value.evidenceRefs;
    && (forall r :: r in refs ==> r in observed)
    && (!HasText(goal.completionCriteria) || refs != [])
  }

  predicate CompletionAccepted(goal: Goal, input: SettleInput, applied: Applied) {
    || input.completionAccepted
    || (CompletionEvidenceSatisfied(goal, ObservedRefs(goal, input))
        && FrontierClosed(applied.workItems) && HasText(applied.noFollowupReason))
  }

  function CompletionFailure(goal: Goal, input: SettleInput, applied: Applied): Option<Failure> {
    if goal.completionRequest.None? || CompletionAccepted(goal, input, applied) then None
    else
      var observed := ObservedRefs(goal, input);
      var missing := Missing(goal.completionRequest.value.evidenceRefs, observed);
      if missing != [] then Some(CompletionRefsMissing(missing))
      else if !CompletionEvidenceSatisfied(goal, observed) then Some(CriteriaNeedEvidence)
      else Some(FrontierNotTerminal)
  }

  function EffectiveReceipt(goal: Goal, input: SettleInput, applied: Applied): (r: Receipt)
    ensures r.id == input.receipt.id && r.usage == input.receipt.usage && r.workItemId == input.receipt.workItemId
  {
    var failure := CompletionFailure(goal, input, applied);
    if CompletionAccepted(goal, input, applied) then
      input.receipt.(outcome := ValidatedCompletion, validation := Validation(Passed, None))
    else if failure.Some? || applied.failure.Some? then
      input.receipt.(outcome := ValidationFailed,
                     validation := Validation(FailedValidation, if failure.Some? then failure else applied.failure))
    else if input.replan.Some? && !input.replan.value.deltaRecorded then
      input.receipt.(outcome := ReplanRequired)
    else input.receipt
  }

  predicate CountsAsValidated(r: Receipt) {
    r.validation.status.Passed? || r.outcome.ValidatedProgress? || r.outcome.ValidatedCompletion?
  }

  function AddUsage(a: Usage, b: Usage): Usage {
    Usage(a.turns + b.turns, a.toolIterations + b.toolIterations, a.tokens + b.tokens)
  }

  predicate HasReceipt(receipts: seq<Receipt>, id: Id) {
    exists r :: r in receipts && r.id == id
  }

  function Surplus(after: nat, before: nat): nat {
    if after > before then after - before else 0
  }

  /** The goal after a settlement whose receipt id is new. */
  function Settled(goal: Goal, input: SettleInput, applied: Applied): Goal {
    var at := input.receipt.at;
    var accepted := CompletionAccepted(goal, input, applied);
    var noted := accepted && goal.completionRequest.Some? && goal.completionRequest.value.note != "";
    var replanAudit := SettleReplanAudit(goal.replanAudit, input.replan, at);
    var receipt := EffectiveReceipt(goal, input, applied);
    var reopen := IsFailureOutcome(receipt.outcome);
    var items := if reopen && receipt.workItemId.Some? then Reopen(applied.workItems, receipt.workItemId.value, at)
                 else applied.workItems;
    var evidence := goal.evidence + input.evidence
                    + if noted then [Evidence(Some("goal-completion:" + input.receipt.runId), at,
                                              goal.completionRequest.value.note,
                                                  Some(Validated), Some(input.receipt.id), true)]
                      else [];
    goal.(
      status := if noted then Complete else if ReplanBlocked(replanAudit) then Blocked else goal.status,
      consumption := AddUsage(goal.consumption, input.receipt.usage),
      delivery := Delivery(
        goal.delivery.validatedTurns + if CountsAsValidated(receipt) then 1 else 0,
        goal.delivery.completedWorkItems + Surplus(CountDone(items), CountDone(goal.workItems)),
        goal.delivery.evidenceItems + CountVerified(input.evidence)),
      evidence := LastN(evidence, EVIDENCE_RETAIN),
      turnReceipts := LastN(goal.turnReceipts + [receipt], TURN_RECEIPT_RETAIN),
      completionRequest := None,
      workItems := items,
      workItemRequests := [],
      planRevision := goal.planRevision + if applied.changed || reopen then 1 else 0,
      replanAudit := replanAudit,
      forcedReplan := if input.replan.Some? && input.replan.value.deltaRecorded then None else goal.forcedReplan,
      noFollowupReason := if applied.noFollowupReason.Some? && applied.noFollowupReason.value != ""
                          then applied.noFollowupReason else goal.noFollowupReason,
      updatedAt := at,
      revision := goal.revision + 1)
  }

  function SettleTurn(current: Option<Goal>, input: SettleInput): Step {
    if current.None? then Refuse(current, NotFound)
    else if HasReceipt(current.value.turnReceipts, input.receipt.id) then Accept(current.value)
    else
      var goal := current.value;
      Accept(Settled(goal, input, ApplyRequests(goal, ObservedRefs(goal, input), input.receipt.at)))
  }

  // ---------------------------------------------------------------------------
  // All mutations
  // ---------------------------------------------------------------------------

  datatype ServiceOp =
    | CreateGoal(objective: string, criteria: Option<string>, budget: Option<Budget>)
    | ClearGoal
    | ProgressOp(note: string, expectedRevision: Option<nat>)
    | PlanOp(plan: PlanInput)
    | BeginOp(workItemId: Id)
    | ForceReplanOp(reason: string)
    | RetargetOp(objective: string)
    | RequestUpdateOp(request: UpdateRequestInput)
    | AnswerGateOp(workItemId: Id, answer: string)
    | BlockOp(reason: string, turn: Option<nat>, expectedRevision: Option<nat>)
    | RequestCompletionOp(note: string, refs: seq<string>, expectedRevision: Option<nat>)
    | SettleOp(settlement: SettleInput)
    | TransitionOp(target: SteeringTarget)
    | ReviseOp(newObjective: Option<string>, newCriteria: Option<string>, expectedRevision: Option<nat>)

  function Perform(current: Option<Goal>, op: ServiceOp, at: Time): Step {
    match op
    case CreateGoal(objective, criteria, budget) => CreateStep(current, objective, criteria, budget, at)
    case ClearGoal => Step(None, Cleared)
    case ProgressOp(note, expected) => RecordProgress(current, note, expected, at)
    case PlanOp(plan) => Plan(current, plan, at)
    case BeginOp(id) => BeginWorkItem(current, id, at)
    case ForceReplanOp(reason) => ForceReplan(current, reason, at)
    case RetargetOp(objective) => Retarget(current, objective, at)
    case RequestUpdateOp(request) => RequestWorkItemUpdate(current, request, at)
    case AnswerGateOp(id, answer) => AnswerUserGate(current, id, answer, at)
    case BlockOp(reason, turn, expected) => ReportBlock(current, reason, turn, expected, at)
    case RequestCompletionOp(note, refs, expected) => RequestCompletion(current, note, refs, expected, at)
    case SettleOp(settlement) => SettleTurn(current, settlement)
    case TransitionOp(target) => Transition(current, target, at)
    case ReviseOp(objective, criteria, expected) => Revise(current, objective, criteria, expected, at)
  }

  // ---------------------------------------------------------------------------
  // Settling a finished run
  // ---------------------------------------------------------------------------

  /** One tool call of a run; `exploratory` is the read-only classification of its tool. */
  datatype ToolCall = ToolCall(id: Id, completedAt: Time, isError: bool, exploratory: bool)

  datatype RunResult = RunResult(runId: Id, completedAt: Time, toolCalls: seq<ToolCall>, tokens: nat)

  function ToolEvidence(calls: seq<ToolCall>): (e: seq<Evidence>)
    ensures forall x :: x in e ==> x.verified
  {
    if calls == [] then []
    else
      var rest := ToolEvidence(calls[1..]);
      if calls[0].isError then rest
      else [Evidence(Some("goal-evidence:" + calls[0].id), calls[0].completedAt, "completed successfully",
                     Some(ToolResult), Some("tool:" + calls[0].id), true)] + rest
  }

  predicate MadeProgress(calls: seq<ToolCall>) {
    exists c :: c in calls && !c.isError && !c.exploratory
  }

  function ToolRefs(evidence: seq<Evidence>): seq<string> {
    if evidence == [] then []
    else if evidence[0].ref.Some? && evidence[0].ref.value != "" then [evidence[0].ref.value] + ToolRefs(evidence[1..])
    else ToolRefs(evidence[1..])
  }

  function RunSettlement(goal: Goal, result: RunResult, decision: Decision): SettleInput {
    var observed := ToolEvidence(result.toolCalls);
    var progressed := MadeProgress(result.toolCalls);
    SettleInput(
      Receipt(
        "goal-turn:" + result.runId,
        result.runId,
        if decision.Run? then decision.workItemId else None,
        result.completedAt,
        if decision.Replan? then ReplanRequired else if progressed then ValidatedProgress else NoChange,
        ToolRefs(observed),
        Validation(if progressed then Passed else NotApplicable, None),
        Usage(1, |result.toolCalls|, result.tokens)),
      observed,
      ToolRefs(observed),
      false,
      if decision.Replan? then
        Some(ReplanReport(decision.trigger, decision.fingerprint, goal.planRevision > decision.planRevision))
      else None)
  }

  /** A settled run; a goal that is no longer active is left alone. */
  function SettleGoalRun(current: Option<Goal>, result: RunResult, decision: Decision): Option<Goal> {
    if current.None? || !current.value.status.Active? then current
    else SettleTurn(current, RunSettlement(current.value, result, decision)).next
  }

  /** A turn that was interrupted or failed. */
  function SettleGoalRunFailure(current: Option<Goal>, runId: Id, workItemId: Option<Id>, interrupted: bool,
                                message: Option<string>, at: Time): Option<Goal> {
    if current.None? || !current.value.status.Active? then current
    else
      var receipt := Receipt(
          "goal-turn:" + runId, runId, workItemId, at, if interrupted then Interrupted else Failed, [],
                             Validation(NotApplicable, if message.Some? then Some(Reported(Clip(message.value, 500)))
                                 else None),
                             Usage(1, 0, 0));
      SettleTurn(current, SettleInput(receipt, [], [], false, None)).next
  }
}
