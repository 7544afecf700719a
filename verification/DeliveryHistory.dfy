/** The running totals of a goal equal what its complete settlement history adds up to. */
module DeliveryHistory {
  import opened Text
  import opened GoalTypes
  import opened GoalController
  import opened GoalService
  import opened ClaimMutations
  import opened GoalRuns

  /** One accepted settlement: the receipt as it was recorded, and the evidence that came with it. */
  datatype Settlement = Settlement(receipt: Receipt, evidence: seq<Evidence>)

  /** A goal and all of its settlements since its creation, late replays included. */
  datatype Record = Record(goal: Option<Goal>, settlements: seq<Settlement>)

  function RecordStep(r: Record, op: GoalOp): Record {
    var next := GoalStep(r.goal, op);
    if IsCreate(op) || (op.Service? && op.op.ClearGoal?) then Record(next, [])
    else if IsNewSettlement(r.goal, op) && next.Some? && next.value.turnReceipts != [] then
      var receipts := next.value.turnReceipts;
      Record(next, r.settlements + [Settlement(receipts[|receipts| - 1], op.op.settlement.evidence)])
    else Record(next, r.settlements)
  }

  function RecordRun(r: Record, ops: seq<GoalOp>): Record
    decreases |ops|
  {
    if ops == [] then r else RecordRun(RecordStep(r, ops[0]), ops[1..])
  }

  function Validated(settlements: seq<Settlement>): nat {
    if settlements == [] then 0
    else Validated(settlements[..|settlements| - 1]) + if CountsAsValidated(settlements[|settlements| - 1].receipt)
        then 1 else 0
  }

  function Verified(settlements: seq<Settlement>): nat {
    if settlements == [] then 0
    else Verified(settlements[..|settlements| - 1]) + CountVerified(settlements[|settlements| - 1].evidence)
  }

  function Spending(settlements: seq<Settlement>): Usage {
    if settlements == [] then Usage(0, 0, 0)
    else AddUsage(Spending(settlements[..|settlements| - 1]), settlements[|settlements| - 1].receipt.usage)
  }

  predicate AddsUp(goal: Goal, settlements: seq<Settlement>) {
    && goal.delivery.validatedTurns == Validated(settlements)
    && goal.delivery.evidenceItems == Verified(settlements)
    && goal.consumption == Spending(settlements)
  }

  predicate Tallied(r: Record) {
    if r.goal.Some? then AddsUp(r.goal.value, r.settlements) else r.settlements == []
  }

  lemma OneMoreSettlement(settlements: seq<Settlement>, s: Settlement)
    ensures Validated(settlements + [s]) == Validated(settlements) + if CountsAsValidated(s.receipt) then 1 else 0
    ensures Verified(settlements + [s]) == Verified(settlements) + CountVerified(s.evidence)
    ensures Spending(settlements + [s]) == AddUsage(Spending(settlements), s.receipt.usage)
  {
    assert (settlements + [s])[..|settlements|] == settlements;
  }

  lemma LastIsRecorded(receipts: seq<Receipt>, r: Receipt)
    ensures var kept := LastN(receipts + [r], TURN_RECEIPT_RETAIN); kept != [] && kept[|kept| - 1] == r
  {
  }

  lemma SettlementIsTallied(goal: Goal, input: SettleInput, settlements: seq<Settlement>)
    requires AddsUp(goal, settlements) && !HasReceipt(goal.turnReceipts, input.receipt.id)
    ensures SettleTurn(Some(goal), input).next.Some?
    ensures var next := SettleTurn(Some(goal), input).next.value;
            && next.turnReceipts != []
            && AddsUp(next, settlements + [Settlement(next.turnReceipts[|next.turnReceipts| - 1], input.evidence)])
  {
    hide ApplyRequests, ObservedRefs, CompletionAccepted, CompletionFailure, SettleReplanAudit, CountDone,
         CountVerified, CountsAsValidated,
         LastN, Reopen, Validated, Verified, Spending;
    var applied := ApplyRequests(goal, ObservedRefs(goal, input), input.receipt.at);
    var receipt := EffectiveReceipt(goal, input, applied);
    LastIsRecorded(goal.turnReceipts, receipt);
    OneMoreSettlement(settlements, Settlement(receipt, input.evidence));
  }

  predicate SameTotals(a: Goal, b: Goal) {
    && a.delivery.validatedTurns == b.delivery.validatedTurns && a.delivery.evidenceItems == b.delivery.evidenceItems
    && a.consumption == b.consumption
  }

  lemma OthersKeepTotals(goal: Goal, op: GoalOp)
    requires !IsNewSettlement(Some(goal), op) && !IsCreate(op) && !(op.Service? && op.op.ClearGoal?)
    ensures GoalStep(Some(goal), op).Some? && SameTotals(goal, GoalStep(Some(goal), op).value)
  {
    if op.Service? && IsQuiet(op.op) {
      hide Perform;
      QuietKeepsLedgers(Some(goal), op.op, op.at);
    } else {
      hide NormalizePlan, UniqueStrings, LastN, MapItem;
    }
  }

  lemma NothingAddsUp(objective: string, criteria: Option<string>, budget: Option<Budget>, at: Time)
    ensures AddsUp(Create(objective, criteria, budget, at), [])
  {
  }

  lemma CreationIsTallied(r: Record, op: GoalOp)
    requires IsCreate(op)
    ensures Tallied(RecordStep(r, op))
  {
    hide AddsUp, LastN, UniqueStrings;
    NothingAddsUp(op.op.objective, op.op.criteria, op.op.budget, op.at);
  }

  lemma SettleStepIs(current: Option<Goal>, op: GoalOp)
    requires op.Service? && op.op.SettleOp?
    ensures GoalStep(current, op) == SettleTurn(current, op.op.settlement).next
  {
    hide SettleTurn;
  }

  lemma SettleStepIsTallied(r: Record, op: GoalOp)
    requires Tallied(r) && IsNewSettlement(r.goal, op)
    ensures Tallied(RecordStep(r, op))
  {
    hide AddsUp, GoalStep, SettleTurn, HasReceipt, IsBlank;
    SettlementIsTallied(r.goal.value, op.op.settlement, r.settlements);
    SettleStepIs(r.goal, op);
  }

  lemma OtherStepIsTallied(r: Record, op: GoalOp)
    requires Tallied(r) && r.goal.Some? && !IsNewSettlement(r.goal, op)
        && !IsCreate(op) && !(op.Service? && op.op.ClearGoal?)
    ensures Tallied(RecordStep(r, op))
  {
    OthersKeepTotals(r.goal.value, op);
    hide GoalStep, Validated, Verified, Spending, HasReceipt, IsBlank;
  }

  lemma NoGoalStays(r: Record, op: GoalOp)
    requires Tallied(r) && !IsCreate(op) && (r.goal.None? || (op.Service? && op.op.ClearGoal?))
    ensures Tallied(RecordStep(r, op))
  {
    hide LastN, UniqueStrings, NormalizePlan, AddsUp;
  }

  lemma StepIsTallied(r: Record, op: GoalOp)
    requires Tallied(r)
    ensures Tallied(RecordStep(r, op))
  {
    hide Tallied, RecordStep, HasReceipt, IsBlank;
    if IsCreate(op) {
      CreationIsTallied(r, op);
    } else if r.goal.None? || (op.Service? && op.op.ClearGoal?) {
      NoGoalStays(r, op);
    } else if IsNewSettlement(r.goal, op) {
      SettleStepIsTallied(r, op);
    } else {
      OtherStepIsTallied(r, op);
    }
  }

  /**
   * After every run from nothing, the validated turns, the evidence items and the
   * consumption of the goal are what all of its settlements add up to, however
   * much of that history the goal itself has forgotten.
   */
  lemma {:induction false} TotalsMatchHistory(r: Record, ops: seq<GoalOp>)
    requires Tallied(r)
    ensures Tallied(RecordRun(r, ops))
    decreases |ops|
  {
    hide Tallied, RecordStep;
    if ops != [] {
      StepIsTallied(r, ops[0]);
      TotalsMatchHistory(RecordStep(r, ops[0]), ops[1..]);
    }
  }
}
