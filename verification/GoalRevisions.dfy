/** The revision number as an optimistic lock, and the service as an object over the stored goal. */
module GoalRevisions {
  import opened Text
  import opened GoalTypes
  import opened GoalController
  import opened GoalService
  import opened GoalRuns
  import opened ClaimMutations

  /** The goal is replaced or removed. */
  predicate Replaces(op: GoalOp) {
    op.Service? && (op.op.CreateGoal? || op.op.ClearGoal?)
  }

  predicate NoneReplaces(ops: seq<GoalOp>) {
    forall i :: 0 <= i < |ops| ==> !Replaces(ops[i])
  }

  function GoalAfter(current: Option<Goal>, ops: seq<GoalOp>): Option<Goal>
    decreases |ops|
  {
    if ops == [] then current else GoalAfter(GoalStep(current, ops[0]), ops[1..])
  }

  /** What the caller of the operation expects the revision to be. */
  function Expected(op: ServiceOp): Option<nat> {
    match op
    case ProgressOp(_, expected) => expected
    case PlanOp(plan) => plan.expectedRevision
    case RequestUpdateOp(request) => request.expectedRevision
    case BlockOp(_, _, expected) => expected
    case RequestCompletionOp(_, _, expected) => expected
    case ReviseOp(_, _, expected) => expected
    case _ => None
  }

  predicate Moves(goal: Goal, next: Option<Goal>) {
    next == Some(goal) || (next.Some? && next.value.revision == goal.revision + 1)
  }

  lemma SettleMoves(goal: Goal, input: SettleInput)
    ensures Moves(goal, SettleTurn(Some(goal), input).next)
  {
    hide ApplyRequests, SettleReplanAudit, EffectiveReceipt, CompletionAccepted, LastN, Reopen, AddUsage, CountDone,
         CountVerified, HasReceipt;
  }

  lemma ServiceMoves(goal: Goal, op: ServiceOp, at: Time)
    requires !op.CreateGoal? && !op.ClearGoal?
    ensures Moves(goal, Perform(Some(goal), op, at).next)
  {
    hide LastN, UniqueStrings, NormalizePlan, Settled, TrailingRepeats, Fingerprint, Trim, UserRef,
         WithoutRequestsFor, IndexOfId, HasReceipt;
    if op.SettleOp? {
      hide SettleTurn;
      SettleMoves(goal, op.settlement);
    }
  }

  lemma StepMoves(goal: Goal, op: GoalOp)
    requires !Replaces(op)
    ensures Moves(goal, GoalStep(Some(goal), op))
  {
    if op.Service? {
      hide Perform;
      ServiceMoves(goal, op.op, op.at);
    }
  }

  /** Within one goal the revision names the state: it never falls back, and while it stands still nothing changes. */
  lemma {:induction false} RevisionNamesTheState(goal: Goal, ops: seq<GoalOp>)
    requires NoneReplaces(ops)
    ensures GoalAfter(Some(goal), ops).Some?
    ensures var after := GoalAfter(Some(goal), ops).value;
            after.revision >= goal.revision && (after.revision == goal.revision ==> after == goal)
    decreases |ops|
  {
    if ops != [] {
      hide GoalStep;
      StepMoves(goal, ops[0]);
      assert GoalStep(Some(goal), ops[0]).Some?;
      RevisionNamesTheState(GoalStep(Some(goal), ops[0]).value, ops[1..]);
    }
  }

  lemma GuardRefuses(goal: Goal, op: ServiceOp, at: Time)
    requires Expected(op).Some? && Expected(op).value != goal.revision
    ensures Perform(Some(goal), op, at).result.Refused?
  {
    hide LastN, UniqueStrings, NormalizePlan, Trim;
  }

  /** An update guarded by the revision its caller read is refused, or finds the goal exactly as it was read. */
  lemma NoLostUpdates(read: Goal, ops: seq<GoalOp>, op: ServiceOp, at: Time)
    requires NoneReplaces(ops) && Expected(op) == Some(read.revision)
    ensures GoalAfter(Some(read), ops) == Some(read) || Perform(GoalAfter(Some(read), ops), op, at).result.Refused?
  {
    hide Perform, GoalAfter;
    RevisionNamesTheState(read, ops);
    var after := GoalAfter(Some(read), ops).value;
    if after.revision != read.revision {
      GuardRefuses(after, op, at);
    }
  }

  /** The operation without its expectation. */
  function Unguarded(op: ServiceOp): ServiceOp {
    match op
    case ProgressOp(note, _) => ProgressOp(note, None)
    case PlanOp(plan) => PlanOp(plan.(expectedRevision := None))
    case RequestUpdateOp(request) => RequestUpdateOp(request.(expectedRevision := None))
    case BlockOp(reason, turn, _) => BlockOp(reason, turn, None)
    case RequestCompletionOp(note, refs, _) => RequestCompletionOp(note, refs, None)
    case ReviseOp(objective, criteria, _) => ReviseOp(objective, criteria, None)
    case _ => op
  }

  /** The guard refuses on another revision, and is transparent on the expected one, whichever goal carries it. */
  lemma GuardIsTheRevision(goal: Goal, op: ServiceOp, at: Time)
    requires Expected(op).Some?
    ensures if Expected(op).value == goal.revision
        then Perform(Some(goal), op, at) == Perform(Some(goal), Unguarded(op), at)
            else Perform(Some(goal), op, at).result.Refused?
  {
    hide LastN, UniqueStrings, NormalizePlan, Trim, TrailingRepeats, Fingerprint, IsBlank, WithoutRequestsFor;
  }

  /** How many of the operations change the goal. */
  function Changes(goal: Goal, ops: seq<GoalOp>): nat
    requires NoneReplaces(ops)
    decreases |ops|
  {
    if ops == [] then 0
    else
      var next := GoalStep(Some(goal), ops[0]);
      StepMoves(goal, ops[0]);
      (if next.value == goal then 0 else 1) + Changes(next.value, ops[1..])
  }

  lemma {:induction false} RevisionCountsChanges(goal: Goal, ops: seq<GoalOp>)
    requires NoneReplaces(ops)
    ensures GoalAfter(Some(goal), ops).Some?
    ensures GoalAfter(Some(goal), ops).value.revision == goal.revision + Changes(goal, ops)
    decreases |ops|
  {
    if ops != [] {
      hide GoalStep;
      StepMoves(goal, ops[0]);
      RevisionCountsChanges(GoalStep(Some(goal), ops[0]).value, ops[1..]);
    }
  }

  /**
   * The guard does not see that the goal it read was replaced: after a new goal
   * is created over it, an update that expects revision `r` passes exactly when
   * the new goal has been changed `r` times since.
   */
  lemma ReplacementPassesTheGuardIff(read: Option<Goal>, objective: string, criteria: Option<string>,
                                     budget: Option<Budget>, created: Time,
                                     ops: seq<GoalOp>, op: ServiceOp, at: Time)
    requires !IsBlank(objective) && NoneReplaces(ops) && Expected(op).Some?
    ensures var start := GoalStep(read, Service(CreateGoal(objective, criteria, budget), created));
            && start == Some(Create(objective, criteria, budget, created))
            && var current := GoalAfter(start, ops);
               current.Some?
               && if Expected(op).value == Changes(start.value, ops)
                  then Perform(current, op, at) == Perform(current, Unguarded(op), at)
                  else Perform(current, op, at).result.Refused?
  {
    hide Perform, GoalAfter, Changes;
    var start := Create(objective, criteria, budget, created);
    CreationIs(read, objective, criteria, budget, created);
    RevisionCountsChanges(start, ops);
    GuardIsTheRevision(GoalAfter(Some(start), ops).value, op, at);
  }

  lemma CreationIs(read: Option<Goal>, objective: string, criteria: Option<string>, budget: Option<Budget>,
                   created: Time)
    requires !IsBlank(objective)
    ensures GoalStep(read, Service(CreateGoal(objective, criteria, budget), created))
        == Some(Create(objective, criteria, budget, created))
    ensures Create(objective, criteria, budget, created).revision == 0
  {
  }

  /** A refused operation leaves the stored goal alone, and an accepted one stores what it reports. */
  lemma ResultIsStored(current: Option<Goal>, op: ServiceOp, at: Time)
    ensures var step := Perform(current, op, at);
            match step.result
            case Refused(_) => step.next == current
            case Accepted(goal) => step.next == Some(goal)
            case Cleared => step.next == None
  {
    hide LastN, UniqueStrings, NormalizePlan, Settled, TrailingRepeats, Fingerprint, Trim, UserRef,
         WithoutRequestsFor, IndexOfId, HasReceipt;
  }

  // ---------------------------------------------------------------------------
  // The service
  // ---------------------------------------------------------------------------

  /** The goal service over its port, whose update is atomic. */
  class Service {
    var stored: Option<Goal>

    constructor ()
      ensures stored == None
    {
      stored := None;
    }

    method Update(op: ServiceOp, at: Time) returns (result: MutationResult)
      modifies this
      ensures stored == Perform(old(stored), op, at).next && result == Perform(old(stored), op, at).result
      ensures result.Refused? ==> stored == old(stored)
      ensures result.Accepted? ==> stored == Some(result.goal)
    {
      ResultIsStored(stored, op, at);
      hide ReportBlock, SettleTurn, Plan, AnswerUserGate, Revise, RequestWorkItemUpdate, RecordProgress,
           RequestCompletion;
      match op {
        case BlockOp(reason, turn, expected) =>
          result := Block(reason, turn, expected, at);
        case SettleOp(settlement) =>
          result := Settle(settlement);
        case _ =>
          var step := Perform(stored, op, at);
          stored, result := step.next, step.result;
      }
    }

    /** Counts the repeats of the reason backwards through the audit. */
    method Block(reason: string, turn: Option<nat>, expectedRevision: Option<nat>, at: Time)
      returns (result: MutationResult)
      modifies this
      ensures stored == ReportBlock(old(stored), reason, turn, expectedRevision, at).next
      ensures result == ReportBlock(old(stored), reason, turn, expectedRevision, at).result
    {
      hide Trim, LastN, TrailingRepeats;
      if IsBlank(reason) {
        return Refused(InvalidTransition);
      }
      if RevisionConflict(stored, expectedRevision) {
        return Refused(Conflict);
      }
      if stored.None? {
        return Refused(NotFound);
      }
      var goal := stored.value;
      if goal.status.Complete? || goal.status.Blocked? {
        return Refused(InvalidTransition);
      }
      var repeats := CountTrailingRepeatReasons(goal.blockAudit, Trim(reason));
      var entry := BlockEntry(at, Trim(reason), turn, repeats + 1);
      goal := Bump(goal.(
        status := if repeats + 1 >= BLOCK_REPEAT_THRESHOLD then Blocked else Active,
        blockAudit := LastN(goal.blockAudit + [entry], BLOCK_AUDIT_RETAIN)), at);
      stored := Some(goal);
      return Accepted(goal);
    }

    method Settle(input: SettleInput) returns (result: MutationResult)
      modifies this
      ensures stored == SettleTurn(old(stored), input).next && result == SettleTurn(old(stored), input).result
    {
      hide Settled, ApplyRequests, ObservedRefs;
      if stored.None? {
        return Refused(NotFound);
      }
      var goal := stored.value;
      if HasReceipt(goal.turnReceipts, input.receipt.id) {
        return Accepted(goal);
      }
      var applied := ApplyWorkItemRequests(goal, ObservedRefs(goal, input), input.receipt.at);
      goal := Settled(goal, input, applied);
      stored := Some(goal);
      return Accepted(goal);
    }
  }
}
