/**
 * The evidence a goal keeps: the last fifty entries of everything ever recorded
 * for it, in order, and so what counts as observed in a settlement.
 */
module EvidenceHistory {
  import opened Text
  import opened GoalTypes
  import opened GoalController
  import opened GoalService
  import opened ClaimMutations
  import opened GoalRuns

  /** A goal with all evidence recorded since its creation. */
  datatype Witnessed = Witnessed(goal: Option<Goal>, history: seq<Evidence>)

  /** The settlement accepts a completion request, whose note becomes evidence. */
  predicate NotesCompletion(goal: Goal, input: SettleInput) {
    && goal.completionRequest.Some? && goal.completionRequest.value.note != ""
    && CompletionAccepted(goal, input, ApplyRequests(goal, ObservedRefs(goal, input), input.receipt.at))
  }

  function CompletionNote(request: CompletionRequest, receipt: Receipt): Evidence {
    Evidence(Some("goal-completion:" + receipt.runId), receipt.at, request.note, Some(Validated),
             Some(receipt.id), true)
  }

  /** What an operation adds: the evidence of a new settlement, a progress note, or the user's answer to a gate. */
  function Added(current: Option<Goal>, op: GoalOp): seq<Evidence> {
    if IsNewSettlement(current, op) then
      var goal, input := current.value, op.op.settlement;
      input.evidence +
        (if NotesCompletion(goal, input) then [CompletionNote(goal.completionRequest.value, input.receipt)] else [])
    else if op.Service? && op.op.ProgressOp? && IsAccepted(current, op) then
      [Evidence(None, op.at, Trim(op.op.note), None, None, false)]
    else if op.Service? && op.op.AnswerGateOp? && IsAccepted(current, op) && current.Some? then
      var ref := "user:" + op.op.workItemId + ":" + Decimal(current.value.revision + 1);
      [Evidence(Some("goal-evidence:" + ref), op.at, Trim(op.op.answer), Some(UserDecision), Some(ref), true)]
    else []
  }

  function WitnessedStep(w: Witnessed, op: GoalOp): Witnessed {
    Witnessed(GoalStep(w.goal, op),
              if IsCreate(op) || (op.Service? && op.op.ClearGoal?) then [] else w.history + Added(w.goal, op))
  }

  function WitnessedRun(w: Witnessed, ops: seq<GoalOp>): Witnessed
    decreases |ops|
  {
    if ops == [] then w else WitnessedRun(WitnessedStep(w, ops[0]), ops[1..])
  }

  function LastFifty(history: seq<Evidence>): seq<Evidence> {
    history[if |history| <= 50 then 0 else |history| - 50..]
  }

  /** The goal keeps the last fifty entries. */
  predicate KeepsLastFifty(w: Witnessed) {
    if w.goal.None? then w.history == [] else w.goal.value.evidence == LastFifty(w.history)
  }

  lemma AppendToLast(history: seq<Evidence>, more: seq<Evidence>)
    ensures LastN(LastFifty(history) + more, 50) == LastFifty(history + more)
  {
    var kept, all := LastFifty(history) + more, history + more;
    assert |kept| <= 50 ==> |history| <= 50 ==> kept == all;
    if |history| > 50 {
      assert kept == all[|history| - 50..];
    }
  }

  lemma SettlementAdds(goal: Goal, op: GoalOp)
    requires IsNewSettlement(Some(goal), op)
    ensures GoalStep(Some(goal), op).Some?
    ensures GoalStep(Some(goal), op).value.evidence == LastN(goal.evidence + Added(Some(goal), op), 50)
  {
    hide LastN, ApplyRequests, EffectiveReceipt, CompletionAccepted, SettleReplanAudit, Reopen, CountDone,
         CountVerified, ObservedRefs, ReplanBlocked, HasReceipt;
    var input := op.op.settlement;
    if NotesCompletion(goal, input) {
      var note := [CompletionNote(goal.completionRequest.value, input.receipt)];
      assert (goal.evidence + input.evidence) + note == goal.evidence + (input.evidence + note);
    } else {
      assert (goal.evidence + input.evidence) + [] == goal.evidence + (input.evidence + []);
    }
  }

  lemma MutationAdds(goal: Goal, op: GoalOp)
    requires !IsCreate(op) && !(op.Service? && (op.op.ClearGoal? || op.op.SettleOp?))
    ensures GoalStep(Some(goal), op).Some?
    ensures var next := GoalStep(Some(goal), op).value;
      if Added(Some(goal), op) == [] then next.evidence == goal.evidence
      else next.evidence == LastN(goal.evidence + Added(Some(goal), op), 50)
  {
    hide LastN, UniqueStrings, NormalizePlan, TrailingRepeats, Fingerprint, Trim, IsBlank, WithoutRequestsFor,
         FindIndex, SettleTurn, DistinctIds, RevisionConflict, Decimal, MapItem, HasItem, CanComplete;
  }

  lemma GoalStepAdds(w: Witnessed, op: GoalOp)
    requires KeepsLastFifty(w) && w.goal.Some? && !IsCreate(op) && !(op.Service? && op.op.ClearGoal?)
    ensures KeepsLastFifty(WitnessedStep(w, op))
  {
    hide GoalStep, Added, LastN, LastFifty, IsNewSettlement;
    var goal := w.goal.value;
    var added := Added(w.goal, op);
    AppendToLast(w.history, added);
    assert |LastFifty(w.history)| <= 50 by { FiftyAtMost(w.history); }
    EvidenceAfter(goal, op);
  }

  lemma FiftyAtMost(history: seq<Evidence>)
    ensures |LastFifty(history)| <= 50
  {
  }

  lemma EvidenceAfter(goal: Goal, op: GoalOp)
    requires |goal.evidence| <= 50 && !IsCreate(op) && !(op.Service? && op.op.ClearGoal?)
    ensures GoalStep(Some(goal), op).Some?
    ensures GoalStep(Some(goal), op).value.evidence == LastN(goal.evidence + Added(Some(goal), op), 50)
  {
    hide GoalStep, Added;
    if IsNewSettlement(Some(goal), op) {
      SettlementAdds(goal, op);
    } else {
      if op.Service? && op.op.SettleOp? {
        ReplayAdds(goal, op);
      } else {
        MutationAdds(goal, op);
      }
      assert goal.evidence + [] == goal.evidence;
    }
  }

  lemma ReplayAdds(goal: Goal, op: GoalOp)
    requires op.Service? && op.op.SettleOp? && !IsNewSettlement(Some(goal), op)
    ensures GoalStep(Some(goal), op) == Some(goal) && Added(Some(goal), op) == []
  {
  }

  lemma NoGoalAdds(op: GoalOp)
    requires !IsCreate(op)
    ensures GoalStep(None, op) == None && Added(None, op) == []
  {
    hide Trim, Decimal;
  }

  lemma StepKeepsLastFifty(w: Witnessed, op: GoalOp)
    requires KeepsLastFifty(w)
    ensures KeepsLastFifty(WitnessedStep(w, op))
  {
    if IsCreate(op) || (op.Service? && op.op.ClearGoal?) {
      hide Added;
    } else if w.goal.Some? {
      hide WitnessedStep, KeepsLastFifty;
      GoalStepAdds(w, op);
    } else {
      hide GoalStep, Added;
      NoGoalAdds(op);
      assert w.history + [] == w.history;
    }
  }

  lemma {:induction false} RunKeepsLastFifty(w: Witnessed, ops: seq<GoalOp>)
    requires KeepsLastFifty(w)
    ensures KeepsLastFifty(WitnessedRun(w, ops))
    decreases |ops|
  {
    if ops != [] {
      hide WitnessedStep, KeepsLastFifty;
      StepKeepsLastFifty(w, ops[0]);
      RunKeepsLastFifty(WitnessedStep(w, ops[0]), ops[1..]);
    }
  }

  const UNWITNESSED: Witnessed := Witnessed(None, [])

  /** After every run the goal keeps exactly the last fifty entries of all its evidence, in order. */
  lemma EvidenceIsTheLastFifty(ops: seq<GoalOp>)
    requires WitnessedRun(UNWITNESSED, ops).goal.Some?
    ensures var w := WitnessedRun(UNWITNESSED, ops);
      w.goal.value.evidence == LastFifty(w.history)
  {
    hide WitnessedRun;
    RunKeepsLastFifty(UNWITNESSED, ops);
  }

  /** Cited by one of the last fifty entries. */
  predicate IsCitedLately(history: seq<Evidence>, ref: string) {
    ref != "" && exists k :: 0 <= k < |history| && |history| - 50 <= k && history[k].ref == Some(ref)
  }

  predicate IsCitedBy(evidence: seq<Evidence>, ref: string) {
    ref != "" && exists e :: e in evidence && e.ref == Some(ref)
  }

  /**
   * A settlement counts as observed exactly the references of the last fifty entries
   * recorded before it, of its own evidence, and those its run observed.
   */
  lemma ObservedAreTheLastFifty(ops: seq<GoalOp>, input: SettleInput, ref: string)
    requires WitnessedRun(UNWITNESSED, ops).goal.Some?
    ensures var w := WitnessedRun(UNWITNESSED, ops);
      ref in ObservedRefs(w.goal.value, input) <==>
        IsCitedLately(w.history, ref) || IsCitedBy(input.evidence, ref) || ref in input.observedRefs
  {
    hide WitnessedRun;
    EvidenceIsTheLastFifty(ops);
    var w := WitnessedRun(UNWITNESSED, ops);
    var from := if |w.history| <= 50 then 0 else |w.history| - 50;
    CitedInTail(w.history, from, ref);
    CitedAre(w.goal.value.evidence, ref);
    CitedAre(input.evidence, ref);
  }

  lemma CitedAre(evidence: seq<Evidence>, ref: string)
    ensures ref in EvidenceRefs(evidence) <==> IsCitedBy(evidence, ref)
  {
    if IsCitedBy(evidence, ref) {
      var e :| e in evidence && e.ref == Some(ref);
      assert e.ref.Some? && e.ref.value == ref;
    }
  }

  lemma CitedInTail(history: seq<Evidence>, from: nat, ref: string)
    requires from == if |history| <= 50 then 0 else |history| - 50
    ensures IsCitedBy(history[from..], ref) <==> IsCitedLately(history, ref)
  {
    if IsCitedBy(history[from..], ref) {
      var e :| e in history[from..] && e.ref == Some(ref);
      var k :| 0 <= k < |history[from..]| && history[from..][k] == e;
      assert history[from + k] == e;
    }
    if IsCitedLately(history, ref) {
      var k :| 0 <= k < |history| && |history| - 50 <= k && history[k].ref == Some(ref);
      assert history[from..][k - from] == history[k];
    }
  }
}
