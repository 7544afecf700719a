/** The persisted goal contract. Timestamps are points on a logical clock. */
module GoalTypes {
  import opened Text

  datatype Option<+T> = None | Some(value: T)

  type Id = string
  type Time = nat

  datatype GoalStatus = Active | WaitingUser | WaitingExternal | Paused | Complete | Blocked | Cancelled

  datatype Role = Agent | User
  datatype Priority = P0 | P1 | P2
  datatype TaskClass = Advancement | Verification | Monitor | UserGate
  datatype ItemStatus = Open | Claimed | Running | Done | Deferred | Cancelled

  /** The statuses a model may request for an item. */
  type RequestStatus = s: ItemStatus | s.Open? || s.Done? || s.Deferred? || s.Cancelled? witness Open

  datatype WorkItem = WorkItem(
    id: Id,
    role: Role,
    priority: Priority,
    taskClass: TaskClass,
    actionKind: string,
    text: string,
    status: ItemStatus,
    dependsOn: seq<Id>,
    evidenceRefs: seq<string>,
    successorOf: Option<Id>,
    resumeWhen: Option<string>,
    roleScopes: seq<string>,
    excludedAgentIds: seq<Id>,
    createdAt: Time,
    updatedAt: Time)

  datatype Budget = Budget(
    maxTurns: Option<nat>,
    maxToolIterations: Option<nat>,
    maxTokens: Option<nat>,
    maxValidatedTurns: Option<nat>)

  datatype Usage = Usage(turns: nat, toolIterations: nat, tokens: nat)

  datatype Delivery = Delivery(validatedTurns: nat, completedWorkItems: nat, evidenceItems: nat)

  datatype EvidenceKind = Progress | ToolResult | Validated | UserDecision | Artifact

  datatype Evidence = Evidence(
    id: Option<Id>,
    at: Time,
    note: string,
    kind: Option<EvidenceKind>,
    ref: Option<string>,
    verified: bool)

  datatype Outcome =
    | ValidatedProgress | ValidatedCompletion | NoChange | UserActionRequired | Wait
    | ReplanRequired | ValidationFailed | Failed | Interrupted

  datatype ValidationStatus = Passed | FailedValidation | NotApplicable

  /** Why a settlement failed validation; the original carries the same facts as text. */
  datatype Failure =
    | CompletionRefsMissing(refs: seq<string>)
    | CriteriaNeedEvidence
    | FrontierNotTerminal
    | ItemRefsMissing(itemId: Id, refs: seq<string>)
    | ItemNeedsEvidence(itemId: Id)
    | Reported(message: string)

  datatype Validation = Validation(status: ValidationStatus, reason: Option<Failure>)

  datatype Receipt = Receipt(
    id: Id,
    runId: Id,
    workItemId: Option<Id>,
    at: Time,
    outcome: Outcome,
    evidenceRefs: seq<string>,
    validation: Validation,
    usage: Usage)

  datatype ItemRequest = ItemRequest(
    at: Time,
    workItemId: Id,
    status: RequestStatus,
    note: string,
    evidenceRefs: seq<string>,
    noFollowupReason: Option<string>,
    resumeWhen: Option<string>)

  datatype CompletionRequest = CompletionRequest(at: Time, note: string, evidenceRefs: seq<string>)

  datatype ReplanEntry = ReplanEntry(at: Time, trigger: string, fingerprint: string, repeat: nat, deltaRecorded: bool)

  datatype BlockEntry = BlockEntry(at: Time, reason: string, turn: Option<nat>, repeat: nat)

  datatype ForcedReplan = ForcedReplan(at: Time, reason: string)

  datatype Goal = Goal(
    objective: string,
    completionCriteria: Option<string>,
    status: GoalStatus,
    budget: Option<Budget>,
    consumption: Usage,
    delivery: Delivery,
    evidence: seq<Evidence>,
    blockAudit: seq<BlockEntry>,
    turnReceipts: seq<Receipt>,
    completionRequest: Option<CompletionRequest>,
    workItems: seq<WorkItem>,
    workItemRequests: seq<ItemRequest>,
    planRevision: nat,
    replanAudit: seq<ReplanEntry>,
    forcedReplan: Option<ForcedReplan>,
    noFollowupReason: Option<string>,
    createdAt: Time,
    updatedAt: Time,
    revision: nat)

  /** `InvalidInput` stands for the exception that `create` throws. */
  datatype Refusal = NotFound | Conflict | InvalidTransition | InvalidInput

  datatype MutationResult = Accepted(goal: Goal) | Cleared | Refused(reason: Refusal)

  predicate Finished(item: WorkItem) {
    item.status.Done? || item.status.Cancelled?
  }

  predicate HasRunnableStatus(item: WorkItem) {
    item.status.Open? || item.status.Claimed? || item.status.Running?
  }

  function CompletedIds(items: seq<WorkItem>): set<Id> {
    set x | x in items && Finished(x) :: x.id
  }

  predicate Ready(item: WorkItem, completed: set<Id>) {
    forall d :: d in item.dependsOn ==> d in completed
  }

  predicate DistinctIds(items: seq<WorkItem>) {
    forall i, j :: 0 <= i < j < |items| ==> items[i].id != items[j].id
  }

  /** A present, non-blank text. */
  predicate HasText(t: Option<string>) {
    t.Some? && !IsBlank(t.value)
  }

  /** The frontier rendered as `id:status:deps` records joined by `|`. */
  function Fingerprint(items: seq<WorkItem>): string {
    if items == [] then ""
    else if |items| == 1 then ItemPrint(items[0])
    else ItemPrint(items[0]) + "|" + Fingerprint(items[1..])
  }

  function ItemPrint(item: WorkItem): string {
    item.id + ":" + StatusName(item.status) + ":" + JoinComma(item.dependsOn)
  }

  function StatusName(s: ItemStatus): string {
    match s
    case Open => "open"
    case Claimed => "claimed"
    case Running => "running"
    case Done => "done"
    case Deferred => "deferred"
    case Cancelled => "cancelled"
  }

  function JoinComma(ids: seq<Id>): string {
    if ids == [] then ""
    else if |ids| == 1 then ids[0]
    else ids[0] + "," + JoinComma(ids[1..])
  }
}
