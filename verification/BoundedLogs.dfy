/**
 * The audits that a goal keeps are truncated, but every decision taken on them
 * is the decision that the full history would give.
 */
module BoundedLogs {
  import opened Text
  import opened GoalTypes
  import opened GoalController
  import opened GoalService
  import opened ClaimMutations
  import opened GoalRuns

  /** The three histories without truncation, since the goal's creation. */
  datatype FullLogs = FullLogs(blockReasons: seq<string>, receipts: seq<Receipt>, replans: seq<ReplanEntry>)

  datatype Observed = Observed(goal: Option<Goal>, logs: FullLogs)

  function AppendedBlock(current: Option<Goal>, op: GoalOp, logs: FullLogs): seq<string> {
    if op.Service? && op.op.BlockOp? && IsAccepted(current, op) then logs.blockReasons + [Trim(op.op.reason)]
    else if op.Service? && op.op.TransitionOp? && op.op.target.Active?
        && current.Some? && current.value.status.Blocked? then []
    else logs.blockReasons
  }

  function AppendedReceipt(current: Option<Goal>, op: GoalOp, logs: FullLogs): seq<Receipt> {
    if IsNewSettlement(current, op) then
      var goal, input := current.value, op.op.settlement;
      logs.receipts + [EffectiveReceipt(goal, input, ApplyRequests(goal, ObservedRefs(goal, input), input.receipt.at))]
    else logs.receipts
  }

  function AppendedReplan(current: Option<Goal>, op: GoalOp, logs: FullLogs): seq<ReplanEntry> {
    if IsNewSettlement(current, op) && op.op.settlement.replan.Some? then
      logs.replans + [NextReplanEntry(logs.replans, op.op.settlement.replan.value, op.op.settlement.receipt.at)]
    else if op.Service? && op.op.PlanOp? && IsAccepted(current, op) && current.Some? && HasText(op.op.plan.reason) then
      logs.replans + [ReplanEntry(op.at, Trim(op.op.plan.reason.value), Fingerprint(current.value.workItems), 0, true)]
    else logs.replans
  }

  /**
   * The goal steps as it does; the full logs only ever grow, except that resuming
   * and creating forget as the goal does.
   */
  function ObservedStep(o: Observed, op: GoalOp): Observed {
    Observed(GoalStep(o.goal, op),
             if IsCreate(op) || (op.Service? && op.op.ClearGoal?) then FullLogs([], [], [])
             else FullLogs(AppendedBlock(o.goal, op, o.logs), AppendedReceipt(o.goal, op, o.logs),
                 AppendedReplan(o.goal, op, o.logs)))
  }

  function Reasons(audit: seq<BlockEntry>): (r: seq<string>)
    ensures |r| == |audit|
    ensures forall i :: 0 <= i < |audit| ==> r[i] == audit[i].reason
  {
    seq(|audit|, i requires 0 <= i < |audit| => audit[i].reason)
  }

  /** What the goal keeps is the tail of the full history; the stored repeat counts may lag behind. */
  predicate KeepsTails(goal: Goal, logs: FullLogs) {
    && Reasons(goal.blockAudit) == LastN(logs.blockReasons, 20)
    && goal.turnReceipts == LastN(logs.receipts, 100)
    && goal.replanAudit == LastN(logs.replans, 30)
  }

  predicate Faithful(o: Observed) {
    && (o.goal.None? ==> o.logs == FullLogs([], [], []))
    && (o.goal.Some? ==> KeepsTails(o.goal.value, o.logs))
  }

  // ---------------------------------------------------------------------------
  // Tails
  // ---------------------------------------------------------------------------

  lemma AppendToTail<T>(s: seq<T>, x: T, n: nat)
    requires n > 0
    ensures LastN(LastN(s, n) + [x], n) == LastN(s + [x], n)
  {
  }

  lemma AppendReason(audit: seq<BlockEntry>, e: BlockEntry, n: nat)
    ensures Reasons(LastN(audit + [e], n)) == LastN(Reasons(audit) + [e.reason], n)
  {
  }

  lemma TailLast<T>(s: seq<T>, n: nat)
    requires n > 0 && s != []
    ensures LastN(s, n) != [] && LastN(s, n)[|LastN(s, n)| - 1] == s[|s| - 1]
  {
  }

  function TrailingEqual(reasons: seq<string>, reason: string): (n: nat)
    ensures n <= |reasons|
  {
    if reasons == [] || reasons[|reasons| - 1] != reason then 0
    else 1 + TrailingEqual(reasons[..|reasons| - 1], reason)
  }

  lemma {:induction false} TrailingOfTail(reasons: seq<string>, n: nat, reason: string)
    ensures TrailingEqual(LastN(reasons, n), reason) == Min(n, TrailingEqual(reasons, reason))
    decreases n, |reasons|
  {
    if |reasons| > n > 0 {
      var kept := LastN(reasons, n);
      assert kept[n - 1] == reasons[|reasons| - 1];
      if kept[n - 1] == reason {
        assert kept[..n - 1] == LastN(reasons[..|reasons| - 1], n - 1);
        TrailingOfTail(reasons[..|reasons| - 1], n - 1, reason);
      }
    } else if n == 0 {
      assert LastN(reasons, 0) == [];
    }
  }

  lemma {:induction false} TrailingOfReasons(audit: seq<BlockEntry>, reason: string)
    ensures TrailingRepeats(audit, reason) == TrailingEqual(Reasons(audit), reason)
  {
    if audit != [] {
      assert Reasons(audit)[..|audit| - 1] == Reasons(audit[..|audit| - 1]);
      TrailingOfReasons(audit[..|audit| - 1], reason);
    }
  }

  // ---------------------------------------------------------------------------
  // Steps
  // ---------------------------------------------------------------------------

  lemma SettleKeepsTails(goal: Goal, input: SettleInput, logs: FullLogs)
    requires KeepsTails(goal, logs)
    ensures var applied := ApplyRequests(goal, ObservedRefs(goal, input), input.receipt.at);
      var more := FullLogs(logs.blockReasons, logs.receipts + [EffectiveReceipt(goal, input, applied)],
        if input.replan.Some? then logs.replans + [NextReplanEntry(logs.replans, input.replan.value, input.receipt.at)]
            else logs.replans);
      KeepsTails(Settled(goal, input, applied), more)
  {
    hide ApplyRequests, EffectiveReceipt, CompletionAccepted, CountDone, ReplanBlocked;
    var applied := ApplyRequests(goal, ObservedRefs(goal, input), input.receipt.at);
    AppendToTail(logs.receipts, EffectiveReceipt(goal, input, applied), TURN_RECEIPT_RETAIN);
    if input.replan.Some? {
      SameReplanEntry(logs.replans, input.replan.value, input.receipt.at);
      AppendToTail(logs.replans, NextReplanEntry(logs.replans, input.replan.value, input.receipt.at),
          REPLAN_AUDIT_RETAIN);
    }
  }

  /** The repeat count of a replan depends on the last entry only. */
  lemma SameReplanEntry(replans: seq<ReplanEntry>, report: ReplanReport, at: Time)
    ensures NextReplanEntry(LastN(replans, REPLAN_AUDIT_RETAIN), report, at) == NextReplanEntry(replans, report, at)
  {
    if replans != [] {
      TailLast(replans, REPLAN_AUDIT_RETAIN);
    }
  }

  lemma PlanKeepsTails(goal: Goal, input: PlanInput, at: Time, logs: FullLogs)
    requires KeepsTails(goal, logs)
    ensures var step := Plan(Some(goal), input, at);
      KeepsTails(step.next.value,
        if step.result.Accepted? && HasText(input.reason)
        then logs.(replans := logs.replans
            + [ReplanEntry(at, Trim(input.reason.value), Fingerprint(goal.workItems), 0, true)])
        else logs)
  {
    hide NormalizePlan, LastN;
    if HasText(input.reason) {
      AppendToTail(logs.replans, ReplanEntry(at, Trim(input.reason.value), Fingerprint(goal.workItems), 0, true),
          REPLAN_AUDIT_RETAIN);
    }
  }

  lemma BlockKeepsTails(goal: Goal, reason: string, turn: Option<nat>, expected: Option<nat>, at: Time, logs: FullLogs)
    requires KeepsTails(goal, logs)
    ensures var step := ReportBlock(Some(goal), reason, turn, expected, at);
      KeepsTails(step.next.value,
        if step.result.Accepted? then logs.(blockReasons := logs.blockReasons + [Trim(reason)]) else logs)
  {
    hide LastN, Reasons;
    var step := ReportBlock(Some(goal), reason, turn, expected, at);
    if step.result.Accepted? {
      var entry := BlockEntry(at, Trim(reason), turn, TrailingRepeats(goal.blockAudit, Trim(reason)) + 1);
      AppendReason(goal.blockAudit, entry, BLOCK_AUDIT_RETAIN);
      AppendToTail(logs.blockReasons, Trim(reason), BLOCK_AUDIT_RETAIN);
    }
  }

  lemma ResumeKeepsTails(goal: Goal, target: SteeringTarget, at: Time, logs: FullLogs)
    requires KeepsTails(goal, logs)
    ensures KeepsTails(Transition(Some(goal), target, at).next.value,
      if target.Active? && goal.status.Blocked? then logs.(blockReasons := []) else logs)
  {
    hide LastN, Reasons;
    EmptyTail();
  }

  lemma EmptyTail()
    ensures Reasons([]) == LastN<string>([], BLOCK_AUDIT_RETAIN)
  {
  }

  lemma OthersKeepLogs(current: Option<Goal>, op: GoalOp)
    requires current.Some? && !IsCreate(op)
    requires op.Service? ==>
        !op.op.SettleOp? && !op.op.PlanOp? && !op.op.BlockOp? && !op.op.TransitionOp? && !op.op.ClearGoal?
    ensures var next := GoalStep(current, op);
      && next.Some? && next.value.turnReceipts == current.value.turnReceipts
      && next.value.replanAudit == current.value.replanAudit && next.value.blockAudit == current.value.blockAudit
  {
    if op.Service? && IsQuiet(op.op) {
      hide Perform;
      QuietKeepsLedgers(current, op.op, op.at);
      QuietKeepsBlockAudit(current, op.op, op.at);
    } else {
      hide LastN, UniqueStrings;
    }
  }

  lemma SettleStepIsFaithful(o: Observed, op: GoalOp)
    requires Faithful(o) && o.goal.Some? && op.Service? && op.op.SettleOp?
    ensures Faithful(ObservedStep(o, op))
  {
    hide KeepsTails, Settled, ApplyRequests, EffectiveReceipt, NextReplanEntry;
    SettleKeepsTails(o.goal.value, op.op.settlement, o.logs);
  }

  lemma PlanStepIsFaithful(o: Observed, op: GoalOp)
    requires Faithful(o) && o.goal.Some? && op.Service? && op.op.PlanOp?
    ensures Faithful(ObservedStep(o, op))
  {
    hide KeepsTails, NormalizePlan, LastN;
    PlanKeepsTails(o.goal.value, op.op.plan, op.at, o.logs);
  }

  lemma BlockStepIsFaithful(o: Observed, op: GoalOp)
    requires Faithful(o) && o.goal.Some? && op.Service? && op.op.BlockOp?
    ensures Faithful(ObservedStep(o, op))
  {
    hide KeepsTails, LastN;
    BlockKeepsTails(o.goal.value, op.op.reason, op.op.turn, op.op.expectedRevision, op.at, o.logs);
  }

  lemma ResumeStepIsFaithful(o: Observed, op: GoalOp)
    requires Faithful(o) && o.goal.Some? && op.Service? && op.op.TransitionOp?
    ensures Faithful(ObservedStep(o, op))
  {
    hide KeepsTails;
    ResumeKeepsTails(o.goal.value, op.op.target, op.at, o.logs);
  }

  lemma NothingFromNothing(op: ServiceOp, at: Time)
    requires op.CreateGoal? ==> IsBlank(op.objective)
    ensures Perform(None, op, at).next.None?
  {
  }

  lemma CreatedKeepsTails(objective: string, criteria: Option<string>, budget: Option<Budget>, at: Time)
    ensures KeepsTails(Create(objective, criteria, budget, at), FullLogs([], [], []))
  {
    EmptyTail();
  }

  lemma NewGoalIsFaithful(o: Observed, op: GoalOp)
    requires IsCreate(op)
    ensures Faithful(ObservedStep(o, op))
  {
    hide KeepsTails, Create, AppendedBlock, AppendedReceipt, AppendedReplan;
    CreatedKeepsTails(op.op.objective, op.op.criteria, op.op.budget, op.at);
  }

  lemma NoGoalIsFaithful(o: Observed, op: GoalOp)
    requires Faithful(o) && op.Service? && !IsCreate(op) && (o.goal.None? || op.op.ClearGoal?)
    ensures Faithful(ObservedStep(o, op))
  {
    if op.op.ClearGoal? {
      hide AppendedBlock, AppendedReceipt, AppendedReplan;
    } else {
      hide Perform, AppendedBlock, AppendedReceipt, AppendedReplan;
      NothingFromNothing(op.op, op.at);
      NoEntriesFromNothing(op, o.logs);
    }
  }

  lemma NoEntriesFromNothing(op: GoalOp, logs: FullLogs)
    requires op.Service? && !IsCreate(op)
    ensures AppendedBlock(None, op, logs) == logs.blockReasons
    ensures AppendedReceipt(None, op, logs) == logs.receipts && AppendedReplan(None, op, logs) == logs.replans
  {
  }

  lemma OtherStepIsFaithful(o: Observed, op: GoalOp)
    requires Faithful(o) && o.goal.Some? && !IsCreate(op)
    requires op.Service? ==>
        !op.op.SettleOp? && !op.op.PlanOp? && !op.op.BlockOp? && !op.op.TransitionOp? && !op.op.ClearGoal?
    ensures Faithful(ObservedStep(o, op))
  {
    hide KeepsTails, GoalStep;
    OthersKeepTails(o, op);
  }

  lemma StepIsFaithful(o: Observed, op: GoalOp)
    requires Faithful(o)
    ensures Faithful(ObservedStep(o, op))
  {
    if IsCreate(op) {
      hide Faithful, ObservedStep;
      NewGoalIsFaithful(o, op);
    } else if op.Service? && (o.goal.None? || op.op.ClearGoal?) {
      hide Faithful, ObservedStep;
      NoGoalIsFaithful(o, op);
    } else if o.goal.Some? {
      hide Faithful, ObservedStep;
      if op.Service? && op.op.SettleOp? {
        SettleStepIsFaithful(o, op);
      } else if op.Service? && op.op.PlanOp? {
        PlanStepIsFaithful(o, op);
      } else if op.Service? && op.op.BlockOp? {
        BlockStepIsFaithful(o, op);
      } else if op.Service? && op.op.TransitionOp? {
        ResumeStepIsFaithful(o, op);
      } else {
        OtherStepIsFaithful(o, op);
      }
    }
  }

  lemma OthersKeepTails(o: Observed, op: GoalOp)
    requires Faithful(o) && o.goal.Some? && !IsCreate(op)
    requires op.Service? ==>
        !op.op.SettleOp? && !op.op.PlanOp? && !op.op.BlockOp? && !op.op.TransitionOp? && !op.op.ClearGoal?
    ensures GoalStep(o.goal, op).Some? && KeepsTails(GoalStep(o.goal, op).value, o.logs)
  {
    hide GoalStep;
    OthersKeepLogs(o.goal, op);
  }

  function ObservedRun(o: Observed, ops: seq<GoalOp>): Observed
    decreases |ops|
  {
    if ops == [] then o else ObservedRun(ObservedStep(o, ops[0]), ops[1..])
  }

  lemma {:induction false} RunIsFaithful(o: Observed, ops: seq<GoalOp>)
    requires Faithful(o)
    ensures Faithful(ObservedRun(o, ops))
    decreases |ops|
  {
    if ops != [] {
      hide ObservedStep, Faithful;
      StepIsFaithful(o, ops[0]);
      RunIsFaithful(ObservedStep(o, ops[0]), ops[1..]);
    }
  }

  const NOTHING: Observed := Observed(None, FullLogs([], [], []))

  /** Reporting a block, judging an item stalled and settling a replan come out alike on both. */
  predicate SameDecisions(goal: Goal, logs: FullLogs, reason: string, itemId: Id, report: ReplanReport, at: Time) {
    var blocksNow := TrailingRepeats(goal.blockAudit, reason) + 1 >= 3;
    var wouldBlock := TrailingEqual(logs.blockReasons, reason) + 1 >= 3;
    var stallsNow := TrailingNoChange(goal.turnReceipts, itemId) >= 2;
    var wouldStall := TrailingNoChange(logs.receipts, itemId) >= 2;
    var replanBlocksNow := ReplanBlocked(SettleReplanAudit(goal.replanAudit, Some(report), at));
    var replanWouldBlock := ReplanBlocked(logs.replans + [NextReplanEntry(logs.replans, report, at)]);
    blocksNow == wouldBlock && stallsNow == wouldStall && replanBlocksNow == replanWouldBlock
  }

  /** After every run, each decision on the truncated audits is the decision on the full history. */
  lemma TruncationNeverDecides(ops: seq<GoalOp>, reason: string, itemId: Id, report: ReplanReport, at: Time)
    requires ObservedRun(NOTHING, ops).goal.Some?
    ensures SameDecisions(
        ObservedRun(NOTHING, ops).goal.value, ObservedRun(NOTHING, ops).logs, reason, itemId, report, at)
  {
    hide ObservedRun, SameDecisions;
    RunIsFaithful(NOTHING, ops);
    var o := ObservedRun(NOTHING, ops);
    TailsDecide(o.goal.value, o.logs, reason, itemId, report, at);
  }

  lemma TailsDecide(goal: Goal, logs: FullLogs, reason: string, itemId: Id, report: ReplanReport, at: Time)
    requires KeepsTails(goal, logs)
    ensures SameDecisions(goal, logs, reason, itemId, report, at)
  {
    hide NextReplanEntry, LastN, Reasons, TrailingEqual, TrailingRepeats, TrailingNoChange;
    TrailingOfReasons(goal.blockAudit, reason);
    TrailingOfTail(logs.blockReasons, BLOCK_AUDIT_RETAIN, reason);
    TrailingNoChangeOfTail(logs.receipts, TURN_RECEIPT_RETAIN, itemId);
    SameReplanEntry(logs.replans, report, at);
    TailLast(goal.replanAudit + [NextReplanEntry(logs.replans, report, at)], REPLAN_AUDIT_RETAIN);
  }

  // ---------------------------------------------------------------------------
  // What the repeat counter counts
  // ---------------------------------------------------------------------------

  predicate IsIdleOn(e: ReplanEntry, fingerprint: string) {
    !e.deltaRecorded && e.fingerprint == fingerprint
  }

  /** How many replans at the end found this frontier and changed nothing. */
  function TrailingIdle(replans: seq<ReplanEntry>, fingerprint: string): nat {
    if replans == [] || !IsIdleOn(replans[|replans| - 1], fingerprint) then 0
    else 1 + TrailingIdle(replans[..|replans| - 1], fingerprint)
  }

  /** Every stored counter is the number of replans in a row up to its entry. */
  predicate CountsRepeats(replans: seq<ReplanEntry>) {
    replans == [] ||
    var last := replans[|replans| - 1];
    && last.repeat == (if last.deltaRecorded then 0 else TrailingIdle(replans, last.fingerprint))
    && CountsRepeats(replans[..|replans| - 1])
  }

  lemma ReportKeepsCount(replans: seq<ReplanEntry>, report: ReplanReport, at: Time)
    requires CountsRepeats(replans)
    ensures CountsRepeats(replans + [NextReplanEntry(replans, report, at)])
  {
    var more := replans + [NextReplanEntry(replans, report, at)];
    assert more[..|more| - 1] == replans;
    if replans != [] && !report.deltaRecorded {
      assert TrailingIdle(more, report.fingerprint) == 1 + TrailingIdle(replans, report.fingerprint);
    }
  }

  lemma StepKeepsCount(o: Observed, op: GoalOp)
    requires CountsRepeats(o.logs.replans)
    ensures CountsRepeats(ObservedStep(o, op).logs.replans)
  {
    hide NextReplanEntry, GoalStep, AppendedBlock, AppendedReceipt, IsAccepted, LastN;
    var replans := o.logs.replans;
    if IsNewSettlement(o.goal, op) && op.op.settlement.replan.Some? {
      ReportKeepsCount(replans, op.op.settlement.replan.value, op.op.settlement.receipt.at);
    } else if ObservedStep(o, op).logs.replans != replans && ObservedStep(o, op).logs.replans != [] {
      var more := ObservedStep(o, op).logs.replans;
      assert more[..|more| - 1] == replans;
    }
  }

  lemma {:induction false} RunKeepsCount(o: Observed, ops: seq<GoalOp>)
    requires CountsRepeats(o.logs.replans)
    ensures CountsRepeats(ObservedRun(o, ops).logs.replans)
    decreases |ops|
  {
    if ops != [] {
      hide ObservedStep, CountsRepeats;
      StepKeepsCount(o, ops[0]);
      RunKeepsCount(ObservedStep(o, ops[0]), ops[1..]);
    }
  }

  /** The last three replans found the same frontier and changed nothing. */
  predicate EndsInThreeIdle(replans: seq<ReplanEntry>) {
    var n := |replans|;
    && n >= 3
    && forall i :: n - 3 <= i < n ==> IsIdleOn(replans[i], replans[n - 1].fingerprint)
  }

  lemma {:induction false} TrailingIdleReaches(replans: seq<ReplanEntry>, fingerprint: string, k: nat)
    ensures TrailingIdle(replans, fingerprint) >= k <==>
        |replans| >= k && forall i :: |replans| - k <= i < |replans| ==> IsIdleOn(replans[i], fingerprint)
    decreases k
  {
    if k > 0 && replans != [] {
      var front := replans[..|replans| - 1];
      TrailingIdleReaches(front, fingerprint, k - 1);
      assert forall i :: 0 <= i < |front| ==> front[i] == replans[i];
    }
  }

  lemma CounterReachesThree(replans: seq<ReplanEntry>)
    requires CountsRepeats(replans)
    ensures ReplanBlocked(replans) <==> EndsInThreeIdle(replans)
  {
    if replans != [] {
      TrailingIdleReaches(replans, replans[|replans| - 1].fingerprint, BLOCK_REPEAT_THRESHOLD);
    }
  }

  function Reported(replans: seq<ReplanEntry>, report: Option<ReplanReport>, at: Time): seq<ReplanEntry> {
    if report.Some? then replans + [NextReplanEntry(replans, report.value, at)] else replans
  }

  /**
   * After every run, a settlement finds the replan audit spent exactly when the
   * last three replans of the complete history, its own report included, found
   * the same frontier and changed nothing.
   */
  lemma ThirdIdleReplanSpends(ops: seq<GoalOp>, report: Option<ReplanReport>, at: Time)
    requires ObservedRun(NOTHING, ops).goal.Some?
    ensures var o := ObservedRun(NOTHING, ops);
      ReplanBlocked(SettleReplanAudit(o.goal.value.replanAudit, report, at)) <==>
      EndsInThreeIdle(Reported(o.logs.replans, report, at))
  {
    hide ObservedRun, NextReplanEntry, LastN, EndsInThreeIdle;
    RunIsFaithful(NOTHING, ops);
    RunKeepsCount(NOTHING, ops);
    var o := ObservedRun(NOTHING, ops);
    var history := Reported(o.logs.replans, report, at);
    if report.Some? {
      ReportKeepsCount(o.logs.replans, report.value, at);
      SameReplanEntry(o.logs.replans, report.value, at);
      AppendToTail(o.logs.replans, NextReplanEntry(o.logs.replans, report.value, at), REPLAN_AUDIT_RETAIN);
    }
    CounterReachesThree(history);
    if history != [] {
      TailLast(history, REPLAN_AUDIT_RETAIN);
    }
    NoTail(history);
  }

  lemma NoTail(history: seq<ReplanEntry>)
    ensures history == [] ==> LastN(history, REPLAN_AUDIT_RETAIN) == []
  {
  }
}
