/**
 * Usage accounting: the goal remembers only its last hundred receipts, yet
 * while replays stay within that window its consumption is the sum over every
 * distinct receipt ever settled.
 */
module UsageLedger {
  import opened Text
  import opened GoalTypes
  import opened GoalController
  import opened GoalService
  import opened ClaimMutations
  import opened GoalRuns

  /** A goal and the first receipt settled under each id since its creation, oldest first. */
  datatype Books = Books(goal: Option<Goal>, settled: seq<Receipt>)

  predicate IsSettlement(b: Books, op: GoalOp) {
    op.Service? && op.op.SettleOp? && b.goal.Some?
  }

  predicate KnowsId(settled: seq<Receipt>, id: Id) {
    exists i :: 0 <= i < |settled| && settled[i].id == id
  }

  function BookStep(b: Books, op: GoalOp): Books {
    Books(GoalStep(b.goal, op),
          if IsCreate(op) || (op.Service? && op.op.ClearGoal?) then []
          else if IsSettlement(b, op) && !KnowsId(b.settled, op.op.settlement.receipt.id)
              then b.settled + [op.op.settlement.receipt]
          else b.settled)
  }

  /** Fewer than a hundred receipts were settled after the one with this id. */
  predicate IsRecent(settled: seq<Receipt>, id: Id) {
    exists i :: 0 <= i < |settled| && settled[i].id == id && |settled| - 1 - i < 100
  }

  /** A replay comes while its receipt is still remembered. */
  predicate ReplaysInTime(b: Books, op: GoalOp) {
    IsSettlement(b, op) && KnowsId(b.settled, op.op.settlement.receipt.id) ==>
        IsRecent(b.settled, op.op.settlement.receipt.id)
  }

  function TotalUsage(settled: seq<Receipt>): Usage {
    if settled == [] then Usage(0, 0, 0)
    else AddUsage(TotalUsage(settled[..|settled| - 1]), settled[|settled| - 1].usage)
  }

  predicate DistinctReceipts(settled: seq<Receipt>) {
    forall i, j :: 0 <= i < j < |settled| ==> settled[i].id != settled[j].id
  }

  /** The goal retains exactly the ids of the most recent receipts. */
  predicate RetainsRecent(kept: seq<Receipt>, settled: seq<Receipt>) {
    && |kept| == (if |settled| <= TURN_RECEIPT_RETAIN then |settled| else TURN_RECEIPT_RETAIN)
    && forall i :: 0 <= i < |kept| ==> kept[i].id == settled[|settled| - |kept| + i].id
  }

  predicate Balanced(b: Books) {
    && DistinctReceipts(b.settled)
    && (b.goal.None? ==> b.settled == [])
    && (b.goal.Some? ==>
        RetainsRecent(b.goal.value.turnReceipts, b.settled) && b.goal.value.consumption == TotalUsage(b.settled))
  }

  lemma RetainedIffRecent(kept: seq<Receipt>, settled: seq<Receipt>, id: Id)
    requires RetainsRecent(kept, settled)
    ensures HasReceipt(kept, id) <==> IsRecent(settled, id)
  {
    if HasReceipt(kept, id) {
      var i :| 0 <= i < |kept| && kept[i].id == id;
      assert settled[|settled| - |kept| + i].id == id;
    }
    if IsRecent(settled, id) {
      var i :| 0 <= i < |settled| && settled[i].id == id && |settled| - 1 - i < TURN_RECEIPT_RETAIN;
      var k := i - (|settled| - |kept|);
      assert kept[k].id == settled[|settled| - |kept| + k].id;
      assert kept[k] in kept;
    }
  }

  lemma RetainedShift(kept: seq<Receipt>, settled: seq<Receipt>, r: Receipt, receipt: Receipt)
    requires RetainsRecent(kept, settled) && r.id == receipt.id
    ensures RetainsRecent(LastN(kept + [r], TURN_RECEIPT_RETAIN), settled + [receipt])
  {
    var next, more := LastN(kept + [r], TURN_RECEIPT_RETAIN), settled + [receipt];
    forall i | 0 <= i < |next|
      ensures next[i].id == more[|more| - |next| + i].id
    {
      var k := |kept| + 1 - |next| + i;
      assert next[i] == (kept + [r])[k];
      if k < |kept| {
        assert kept[k].id == settled[|settled| - |kept| + k].id;
      }
    }
  }

  lemma UsageShift(settled: seq<Receipt>, receipt: Receipt)
    ensures TotalUsage(settled + [receipt]) == AddUsage(TotalUsage(settled), receipt.usage)
  {
    assert (settled + [receipt])[..|settled|] == settled;
  }

  lemma SettledBooks(goal: Goal, input: SettleInput, applied: Applied, settled: seq<Receipt>)
    requires RetainsRecent(goal.turnReceipts, settled) && goal.consumption == TotalUsage(settled)
    ensures var next := Settled(goal, input, applied);
      RetainsRecent(next.turnReceipts, settled + [input.receipt])
          && next.consumption == TotalUsage(settled + [input.receipt])
  {
    hide CompletionAccepted, CompletionFailure, EffectiveReceipt, SettleReplanAudit, CountDone, ReplanBlocked, LastN,
         RetainsRecent, TotalUsage;
    RetainedShift(goal.turnReceipts, settled, EffectiveReceipt(goal, input, applied), input.receipt);
    UsageShift(settled, input.receipt);
  }

  lemma OthersKeepBooks(current: Option<Goal>, op: GoalOp)
    requires current.Some? && !IsNewSettlement(current, op) && !IsCreate(op) && !(op.Service? && op.op.ClearGoal?)
    ensures var next := GoalStep(current, op);
      next.Some? && next.value.turnReceipts == current.value.turnReceipts
          && next.value.consumption == current.value.consumption
  {
    if op.Service? && IsQuiet(op.op) {
      hide Perform;
      QuietKeepsLedgers(current, op.op, op.at);
    } else {
      hide NormalizePlan, UniqueStrings, LastN;
    }
  }

  lemma ReplacingKeepsBalance(b: Books, op: GoalOp)
    requires IsCreate(op) || (op.Service? && op.op.ClearGoal?)
    ensures Balanced(BookStep(b, op))
  {
    hide TotalUsage;
    NothingUsed();
  }

  lemma SettlingKeepsBalance(b: Books, op: GoalOp)
    requires Balanced(b) && ReplaysInTime(b, op) && IsSettlement(b, op)
    ensures Balanced(BookStep(b, op))
  {
    hide Settled, ApplyRequests, RetainsRecent, TotalUsage, HasReceipt, IsRecent;
    var input := op.op.settlement;
    RecentIsKnown(b.settled, input.receipt.id);
    RetainedIffRecent(b.goal.value.turnReceipts, b.settled, input.receipt.id);
    SettledBooks(b.goal.value, input,
        ApplyRequests(b.goal.value, ObservedRefs(b.goal.value, input), input.receipt.at), b.settled);
  }

  lemma RecentIsKnown(settled: seq<Receipt>, id: Id)
    ensures IsRecent(settled, id) ==> KnowsId(settled, id)
  {
  }

  lemma OtherStepsKeepBalance(b: Books, op: GoalOp)
    requires Balanced(b) && !IsSettlement(b, op) && !IsCreate(op) && !(op.Service? && op.op.ClearGoal?)
    ensures Balanced(BookStep(b, op))
  {
    hide RetainsRecent, TotalUsage, DistinctReceipts;
    if b.goal.Some? {
      hide GoalStep;
      OthersKeepBooks(b.goal, op);
    }
  }

  lemma StepKeepsBalance(b: Books, op: GoalOp)
    requires Balanced(b) && ReplaysInTime(b, op)
    ensures Balanced(BookStep(b, op))
  {
    hide Balanced, BookStep;
    if IsCreate(op) || (op.Service? && op.op.ClearGoal?) {
      ReplacingKeepsBalance(b, op);
    } else if IsSettlement(b, op) {
      SettlingKeepsBalance(b, op);
    } else {
      OtherStepsKeepBalance(b, op);
    }
  }

  lemma NothingUsed()
    ensures TotalUsage([]) == Usage(0, 0, 0)
  {
  }

  function BookRun(b: Books, ops: seq<GoalOp>): Books
    decreases |ops|
  {
    if ops == [] then b else BookRun(BookStep(b, ops[0]), ops[1..])
  }

  predicate AllReplaysInTime(b: Books, ops: seq<GoalOp>)
    decreases |ops|
  {
    ops != [] ==> ReplaysInTime(b, ops[0]) && AllReplaysInTime(BookStep(b, ops[0]), ops[1..])
  }

  /** Along every run from nothing with timely replays, consumption is the sum over the distinct receipts. */
  lemma {:induction false} UsageIsConserved(b: Books, ops: seq<GoalOp>)
    requires Balanced(b)
    ensures AllReplaysInTime(b, ops) ==> Balanced(BookRun(b, ops))
    decreases |ops|
  {
    if ops != [] && AllReplaysInTime(b, ops) {
      hide BookStep, Balanced, ReplaysInTime;
      StepKeepsBalance(b, ops[0]);
      UsageIsConserved(BookStep(b, ops[0]), ops[1..]);
    }
  }

  /** A settlement leaves the whole goal untouched exactly when its receipt is among the last hundred. */
  lemma SettlementIsReplayIff(b: Books, op: GoalOp)
    requires Balanced(b) && IsSettlement(b, op)
    ensures GoalStep(b.goal, op) == b.goal <==> IsRecent(b.settled, op.op.settlement.receipt.id)
  {
    hide ApplyRequests, TotalUsage, RetainsRecent;
    RetainedIffRecent(b.goal.value.turnReceipts, b.settled, op.op.settlement.receipt.id);
  }

  /** A replay that comes too late is charged a second time. */
  lemma LateReplayIsChargedAgain(b: Books, op: GoalOp)
    requires Balanced(b) && IsSettlement(b, op) && !ReplaysInTime(b, op)
    ensures BookStep(b, op).settled == b.settled
    ensures GoalStep(b.goal, op).Some?
    ensures GoalStep(b.goal, op).value.consumption == AddUsage(TotalUsage(b.settled), op.op.settlement.receipt.usage)
  {
    hide ApplyRequests, TotalUsage, RetainsRecent;
    RetainedIffRecent(b.goal.value.turnReceipts, b.settled, op.op.settlement.receipt.id);
  }
}
