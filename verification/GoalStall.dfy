/**
 * A goal that makes no progress is stopped within a fixed number of turns:
 * two no-change turns force a replan, and three replans of an unchanged
 * frontier block the goal.
 */
module GoalStall {
  import opened Text
  import opened GoalTypes
  import opened GoalController
  import opened GoalService
  import opened ClaimMutations

  /** One turn of the runtime: when it began, what the run returned, when its claim was released. */
  datatype Turn = Turn(startedAt: Time, result: RunResult, releasedAt: Time)

  function TurnReceiptId(t: Turn): Id {
    "goal-turn:" + t.result.runId
  }

  /** Runs that record nothing but reads, under receipt ids the goal has not retained. */
  predicate IdleTurns(goal: Goal, turns: seq<Turn>) {
    && (forall k :: 0 <= k < |turns| ==> !MadeProgress(turns[k].result.toolCalls))
    && (forall k :: 0 <= k < |turns| ==> !HasReceipt(goal.turnReceipts, TurnReceiptId(turns[k])))
    && (forall j, k :: 0 <= j < k < |turns| ==> TurnReceiptId(turns[j]) != TurnReceiptId(turns[k]))
  }

  /**
   * Decide, begin the selected item, run, settle. A session that claims its work
   * (`releases`) puts the item back when the turn is over. A stopped goal stays put.
   */
  ghost function TakeTurn(goal: Goal, unavailable: set<Id>, turn: Turn, releases: bool): Goal {
    var decision := Decide(Some(goal), unavailable);
    if decision.Stop? then goal
    else
      var works := decision.Run? && decision.workItemId.Some?;
      var begun := if works then BeginWorkItem(Some(goal), decision.workItemId.value, turn.startedAt).next
          else Some(goal);
      var settled := SettleGoalRun(begun, turn.result, decision).value;
      if works && releases then ReleaseItem(settled, decision.workItemId.value, turn.releasedAt) else settled
  }

  ghost function TakeTurns(goal: Goal, unavailable: set<Id>, turns: seq<Turn>, releases: bool): Goal
    decreases |turns|
  {
    if turns == [] then goal
    else TakeTurns(TakeTurn(goal, unavailable, turns[0], releases), unavailable, turns[1..], releases)
  }

  // ---------------------------------------------------------------------------
  // Truncated logs and changed statuses do not change what is counted or selected
  // ---------------------------------------------------------------------------

  lemma TrailingAfterReceipt(receipts: seq<Receipt>, r: Receipt, itemId: Id)
    ensures Min(2, TrailingNoChange(LastN(receipts + [r], TURN_RECEIPT_RETAIN), itemId))
         == if IsBarren(r, itemId) then Min(2, 1 + TrailingNoChange(receipts, itemId)) else 0
  {
    TrailingNoChangeOfTail(receipts + [r], TURN_RECEIPT_RETAIN, itemId);
    assert (receipts + [r])[..|receipts|] == receipts;
  }

  predicate SameEdges(a: seq<WorkItem>, b: seq<WorkItem>) {
    |a| == |b| && forall i :: 0 <= i < |a| ==> a[i].id == b[i].id && a[i].dependsOn == b[i].dependsOn
  }

  lemma SameEdgesSameDependents(a: seq<WorkItem>, b: seq<WorkItem>, root: Id)
    requires SameEdges(a, b)
    ensures Dependents(a, root) == Dependents(b, root)
  {
    EdgesFrom(a, b);
    EdgesFrom(b, a);
    assert Edges(a) == Edges(b) && Ids(a) == Ids(b);
  }

  lemma EdgesFrom(a: seq<WorkItem>, b: seq<WorkItem>)
    requires SameEdges(a, b)
    ensures Edges(a) <= Edges(b) && Ids(a) <= Ids(b)
  {
    forall x, d | x in a && d in x.dependsOn
      ensures (x.id, d) in Edges(b)
    {
      var i :| 0 <= i < |a| && a[i] == x;
      assert b[i] in b;
    }
    forall x | x in a
      ensures x.id in Ids(b)
    {
      var i :| 0 <= i < |a| && a[i] == x;
      assert b[i] in b;
    }
  }

  /** `b` is `a` with the runnable agent item at `i` moved to another runnable status. */
  predicate Restamped(a: seq<WorkItem>, b: seq<WorkItem>, i: nat) {
    && i < |a| == |b|
    && a[i].role.Agent? && HasRunnableStatus(a[i]) && HasRunnableStatus(b[i])
    && b == a[i := a[i].(status := b[i].status, updatedAt := b[i].updatedAt)]
  }

  lemma RestampedKeepsGates(a: seq<WorkItem>, b: seq<WorkItem>, i: nat)
    requires Restamped(a, b, i)
    ensures CompletedIds(a) == CompletedIds(b) && GateIndex(a) == GateIndex(b) && GateBlocked(a) == GateBlocked(b)
  {
    forall x | x in CompletedIds(a)
      ensures x in CompletedIds(b)
    {
      var k :| 0 <= k < |a| && Finished(a[k]) && a[k].id == x;
      assert b[k] in b;
    }
    forall x | x in CompletedIds(b)
      ensures x in CompletedIds(a)
    {
      var k :| 0 <= k < |b| && Finished(b[k]) && b[k].id == x;
      assert a[k] in a;
    }
    var g, h := GateIndex(a), GateIndex(b);
    assert g < |a| ==> b[g] == a[g];
    assert h < |b| ==> b[h] == a[h];
    if g < |a| {
      SameEdgesSameDependents(a, b, a[g].id);
    }
  }

  lemma RestampedKeepsSelection(a: seq<WorkItem>, b: seq<WorkItem>, i: nat, unavailable: set<Id>)
    requires Restamped(a, b, i)
    requires SelectedIndex(a, unavailable) == Some(i)
    ensures SelectedIndex(b, unavailable) == Some(i)
  {
    RestampedKeepsGates(a, b, i);
    SelectedIsSelection(a, unavailable);
    SelectionIs(b, unavailable, i);
  }

  // ---------------------------------------------------------------------------
  // What one idle turn does
  // ---------------------------------------------------------------------------

  /** No request is waiting for a settlement. */
  predicate Undisturbed(goal: Goal) {
    goal.workItemRequests == [] && goal.completionRequest.None? && DistinctIds(goal.workItems)
  }

  /** What an idle turn leaves as it was. */
  predicate Carried(before: Goal, after: Goal) {
    && Undisturbed(after)
    && after.budget == before.budget && after.forcedReplan == before.forcedReplan
    && after.noFollowupReason == before.noFollowupReason && after.planRevision == before.planRevision
    && after.status == if ReplanBlocked(after.replanAudit) then Blocked else Active
  }

  predicate IdleTurnOf(goal: Goal, turn: Turn) {
    Undisturbed(goal) && !MadeProgress(turn.result.toolCalls) && !HasReceipt(goal.turnReceipts, TurnReceiptId(turn))
  }

  /** The receipt of an idle turn: barren for the item it worked on, or a replan that worked on none. */
  predicate IsIdleReceipt(r: Receipt, turn: Turn, decision: Decision) {
    && r.id == TurnReceiptId(turn)
    && r.workItemId == (if decision.Run? then decision.workItemId else None)
    && r.outcome == (if decision.Replan? then ReplanRequired else NoChange)
  }

  function AuditAfter(goal: Goal, turn: Turn, decision: Decision): seq<ReplanEntry> {
    if decision.Replan? then
      LastN(goal.replanAudit + [NextReplanEntry(goal.replanAudit,
              ReplanReport(decision.trigger, decision.fingerprint, false), turn.result.completedAt)],
                  REPLAN_AUDIT_RETAIN)
    else goal.replanAudit
  }

  function PlainReceipt(input: SettleInput): Receipt {
    if input.replan.Some? && !input.replan.value.deltaRecorded then input.receipt.(outcome := ReplanRequired)
    else input.receipt
  }

  predicate PlainlySettled(goal: Goal, input: SettleInput, after: Goal) {
    var reopened := IsFailureOutcome(PlainReceipt(input).outcome);
    && Undisturbed(after)
    && after.budget == goal.budget && after.noFollowupReason == goal.noFollowupReason
    && after.workItems == (if reopened && input.receipt.workItemId.Some?
                           then Reopen(goal.workItems, input.receipt.workItemId.value, input.receipt.at)
                               else goal.workItems)
    && after.turnReceipts == LastN(goal.turnReceipts + [PlainReceipt(input)], TURN_RECEIPT_RETAIN)
    && after.planRevision == goal.planRevision + (if reopened then 1 else 0)
    && after.replanAudit == SettleReplanAudit(goal.replanAudit, input.replan, input.receipt.at)
    && after.forcedReplan
        == (if input.replan.Some? && input.replan.value.deltaRecorded then None else goal.forcedReplan)
    && after.status == if ReplanBlocked(after.replanAudit) then Blocked else goal.status
  }

  /** A settlement with no request waiting touches nothing but the ledgers. */
  lemma PlainSettlement(goal: Goal, input: SettleInput) returns (after: Goal)
    requires Undisturbed(goal) && !input.completionAccepted && !HasReceipt(goal.turnReceipts, input.receipt.id)
    ensures SettleTurn(Some(goal), input).next == Some(after)
    ensures PlainlySettled(goal, input, after)
  {
    var applied := ApplyRequests(goal, ObservedRefs(goal, input), input.receipt.at);
    assert applied == Unapplied(goal);
    assert !CompletionAccepted(goal, input, applied);
    assert EffectiveReceipt(goal, input, applied) == PlainReceipt(input);
    after := Settled(goal, input, applied);
  }

  lemma SettledIdleShape(goal: Goal, turn: Turn, decision: Decision) returns (r: Receipt, after: Goal)
    requires IdleTurnOf(goal, turn) && goal.status.Active? && !decision.Stop?
    requires decision.Replan? ==> decision.planRevision == goal.planRevision
    ensures SettleGoalRun(Some(goal), turn.result, decision) == Some(after)
    ensures Carried(goal, after) && after.workItems == goal.workItems
    ensures IsIdleReceipt(r, turn, decision)
        && after.turnReceipts == LastN(goal.turnReceipts + [r], TURN_RECEIPT_RETAIN)
    ensures after.replanAudit == AuditAfter(goal, turn, decision)
  {
    hide SettleTurn, LastN, ReplanBlocked, NextReplanEntry, MadeProgress, HasReceipt, DistinctIds, ToolEvidence,
         ToolRefs;
    var input := RunSettlement(goal, turn.result, decision);
    r := PlainReceipt(input);
    after := PlainSettlement(goal, input);
  }

  /** The status a worked item shows when the next turn is decided. */
  function RestingStatus(releases: bool): ItemStatus {
    if releases then Open else Running
  }

  lemma BegunShape(goal: Goal, i: nat, at: Time) returns (begun: Goal)
    requires i < |goal.workItems| && DistinctIds(goal.workItems)
    requires goal.workItems[i].role.Agent? && HasRunnableStatus(goal.workItems[i])
    ensures BeginWorkItem(Some(goal), goal.workItems[i].id, at).next == Some(begun)
    ensures Restamped(goal.workItems, begun.workItems, i) && begun.workItems[i].status.Running?
    ensures begun == goal.(workItems := begun.workItems, updatedAt := begun.updatedAt, revision := begun.revision)
  {
    assert IndexOfId(goal.workItems, goal.workItems[i].id) == i;
    begun := BeginWorkItem(Some(goal), goal.workItems[i].id, at).next.value;
  }

  lemma ReleasedShape(goal: Goal, i: nat, at: Time) returns (released: Goal)
    requires i < |goal.workItems| && DistinctIds(goal.workItems)
    requires goal.workItems[i].role.Agent? && goal.workItems[i].status.Running?
    ensures released == ReleaseItem(goal, goal.workItems[i].id, at)
    ensures Restamped(goal.workItems, released.workItems, i) && released.workItems[i].status.Open?
    ensures released
        == goal.(workItems := released.workItems, updatedAt := released.updatedAt, revision := released.revision)
  {
    released := ReleaseItem(goal, goal.workItems[i].id, at);
    assert goal.workItems[i] in goal.workItems;
    assert released.workItems == goal.workItems[i := released.workItems[i]];
  }

  lemma WorkTurnShape(goal: Goal, unavailable: set<Id>, turn: Turn, releases: bool, i: nat)
      returns (r: Receipt, after: Goal)
    requires IdleTurnOf(goal, turn)
    requires SelectedIndex(goal.workItems, unavailable) == Some(i)
    requires Decide(Some(goal), unavailable) == Run(Work, Some(goal.workItems[i].id))
    ensures after == TakeTurn(goal, unavailable, turn, releases)
    ensures WorkTaken(goal, after, turn, releases, i, r)
  {
    hide SettleGoalRun, BeginWorkItem, ReleaseItem;
    var begun := BegunShape(goal, i, turn.startedAt);
    r, after := SettledIdleShape(begun, turn, Run(Work, Some(goal.workItems[i].id)));
    if releases {
      after := ReleasedShape(after, i, turn.releasedAt);
    }
  }

  // ---------------------------------------------------------------------------
  // The number of turns left
  // ---------------------------------------------------------------------------

  /** Replans already spent on the present frontier. */
  function SpentReplans(goal: Goal): (n: nat)
    ensures n <= 2
  {
    var audit := goal.replanAudit;
    if audit != [] && !audit[|audit| - 1].deltaRecorded && audit[|audit| - 1].fingerprint == Fingerprint(goal.workItems)
    then Min(2, audit[|audit| - 1].repeat) else 0
  }

  /** Receipts in a row, up to two, that left the item unchanged. */
  function Barren(goal: Goal, id: Id): nat {
    Min(2, TrailingNoChange(goal.turnReceipts, id))
  }

  /** Turns left while an item is worked on, from what is already spent. */
  function WorkingLeft(barren: nat, auditBlocked: bool, resting: bool, spent: nat): (n: nat)
    requires barren <= 2 && spent <= 2
    ensures 1 <= n <= 10
    ensures n == 10 <==> barren == 2 && !resting
  {
    if barren < 2 && auditBlocked then 1
    else if resting then 3 * (3 - spent) - barren
    else if barren < 2 then 9 - barren
    else 10
  }

  /** Nothing is selectable, or a replan is forced, so every turn replans. */
  ghost predicate OnlyReplans(goal: Goal, unavailable: set<Id>) {
    goal.forcedReplan.Some? || SelectedIndex(goal.workItems, unavailable).None?
  }

  ghost function TurnsLeft(goal: Goal, unavailable: set<Id>, releases: bool): (n: nat)
    ensures n <= 10
  {
    if Decide(Some(goal), unavailable).Stop? then 0
    else if OnlyReplans(goal, unavailable) then 3 - SpentReplans(goal)
    else
      var item := goal.workItems[SelectedIndex(goal.workItems, unavailable).value];
      WorkingLeft(Barren(goal, item.id), ReplanBlocked(goal.replanAudit),
                  item.status == RestingStatus(releases), SpentReplans(goal))
  }

  lemma {:induction false} SameFingerprint(a: seq<WorkItem>, b: seq<WorkItem>)
    requires SameEdges(a, b) && forall i :: 0 <= i < |a| ==> a[i].status == b[i].status
    ensures Fingerprint(a) == Fingerprint(b)
  {
    if |a| > 1 {
      SameFingerprint(a[1..], b[1..]);
    }
  }

  predicate IsFinalize(decision: Decision) {
    decision.Run? && decision.mode.Finalize?
  }

  /** The exhaustive shape of the turns of a stalling goal. */
  predicate CanStall(goal: Goal, decision: Decision) {
    Undisturbed(goal) && !decision.Stop? && !IsFinalize(decision)
  }

  /** A replan of an unchanged frontier counts against the same three. */
  lemma ReplanSpends(goal: Goal, after: Goal, turn: Turn, decision: Decision)
    requires decision.Replan? && decision.fingerprint == Fingerprint(goal.workItems)
    requires after.workItems == goal.workItems && after.replanAudit == AuditAfter(goal, turn, decision)
    ensures ReplanBlocked(after.replanAudit) <==> SpentReplans(goal) == 2
    ensures SpentReplans(goal) < 2 ==> SpentReplans(after) == SpentReplans(goal) + 1
  {
    var entry := NextReplanEntry(
        goal.replanAudit, ReplanReport(decision.trigger, decision.fingerprint, false), turn.result.completedAt);
    var audit := after.replanAudit;
    assert audit[|audit| - 1] == entry;
  }

  ghost predicate RestingSelection(goal: Goal, unavailable: set<Id>, releases: bool) {
    !OnlyReplans(goal, unavailable) ==>
      goal.workItems[SelectedIndex(goal.workItems, unavailable).value].status == RestingStatus(releases)
  }

  /** States from which the number of turns left is exact, not only a bound. */
  ghost predicate Steady(goal: Goal, unavailable: set<Id>, releases: bool) {
    && goal.budget.None?
    && (RestingSelection(goal, unavailable, releases)
        || (goal.replanAudit == [] && Decide(Some(goal), unavailable).Run?))
  }

  ghost predicate ReplanTaken(goal: Goal, after: Goal, turn: Turn, r: Receipt) {
    && Carried(goal, after) && after.workItems == goal.workItems
    && IsIdleReceipt(r, turn, ReplanFor(goal, ""))
        && after.turnReceipts == LastN(goal.turnReceipts + [r], TURN_RECEIPT_RETAIN)
  }

  lemma ReplanDecided(goal: Goal, unavailable: set<Id>)
    ensures var d := Decide(Some(goal), unavailable);
      d.Replan? ==>
          goal.status.Active? && d.fingerprint == Fingerprint(goal.workItems) && d.planRevision == goal.planRevision
  {
  }

  lemma ReplanTurnShape(goal: Goal, unavailable: set<Id>, turn: Turn, releases: bool) returns (r: Receipt, after: Goal)
    requires IdleTurnOf(goal, turn) && Decide(Some(goal), unavailable).Replan?
    ensures after == TakeTurn(goal, unavailable, turn, releases)
    ensures ReplanTaken(goal, after, turn, r)
    ensures after.replanAudit == AuditAfter(goal, turn, Decide(Some(goal), unavailable))
  {
    hide SettleGoalRun, Decide, LastN, ReplanBlocked, NextReplanEntry;
    ReplanDecided(goal, unavailable);
    r, after := SettledIdleShape(goal, turn, Decide(Some(goal), unavailable));
  }

  /** What the count needs to know about a replan turn. */
  ghost predicate ReplanCounted(goal: Goal, after: Goal, unavailable: set<Id>) {
    && after.workItems == goal.workItems && after.forcedReplan == goal.forcedReplan && after.budget == goal.budget
    && after.noFollowupReason == goal.noFollowupReason
    && after.status == (if ReplanBlocked(after.replanAudit) then Blocked else Active)
    && (ReplanBlocked(after.replanAudit) <==> SpentReplans(goal) == 2)
    && (SpentReplans(goal) < 2 ==> SpentReplans(after) == SpentReplans(goal) + 1)
    && (!OnlyReplans(goal, unavailable) ==>
          var id := goal.workItems[SelectedIndex(goal.workItems, unavailable).value].id;
          Barren(goal, id) == 2 && Barren(after, id) == 0)
  }

  lemma ReplanTurnKeeps(goal: Goal, unavailable: set<Id>, turn: Turn, r: Receipt, after: Goal)
    requires Decide(Some(goal), unavailable).Replan?
    requires ReplanTaken(goal, after, turn, r)
    requires after.replanAudit == AuditAfter(goal, turn, Decide(Some(goal), unavailable))
    ensures ReplanCounted(goal, after, unavailable)
  {
    hide NextReplanEntry, LastN, SelectedIndex, TrailingNoChange;
    ReplanSpends(goal, after, turn, Decide(Some(goal), unavailable));
    if !OnlyReplans(goal, unavailable) {
      TrailingAfterReceipt(goal.turnReceipts, r, goal.workItems[SelectedIndex(goal.workItems, unavailable).value].id);
    }
  }

  lemma ReplanTurnCounts(goal: Goal, unavailable: set<Id>, releases: bool, after: Goal)
    requires Decide(Some(goal), unavailable).Replan?
    requires ReplanCounted(goal, after, unavailable)
    ensures !IsFinalize(Decide(Some(after), unavailable))
    ensures TurnsLeft(after, unavailable, releases) < TurnsLeft(goal, unavailable, releases)
    ensures Steady(goal, unavailable, releases) ==> Steady(after, unavailable, releases)
    ensures Steady(goal, unavailable, releases) ==>
      TurnsLeft(after, unavailable, releases) == TurnsLeft(goal, unavailable, releases) - 1
  {
    hide SpentReplans, TrailingNoChange, SelectedIndex, ReplanBlocked;
  }

  ghost predicate WorkTaken(goal: Goal, after: Goal, turn: Turn, releases: bool, i: nat, r: Receipt) {
    && Carried(goal, after) && Restamped(goal.workItems, after.workItems, i)
    && after.workItems[i].status == RestingStatus(releases)
    && IsIdleReceipt(r, turn, Run(Work, Some(goal.workItems[i].id)))
    && after.turnReceipts == LastN(goal.turnReceipts + [r], TURN_RECEIPT_RETAIN)
    && after.replanAudit == goal.replanAudit
  }

  lemma WorkTurnKeeps(goal: Goal, unavailable: set<Id>, turn: Turn, releases: bool, i: nat, r: Receipt, after: Goal)
    requires SelectedIndex(goal.workItems, unavailable) == Some(i)
    requires WorkTaken(goal, after, turn, releases, i, r)
    ensures SelectedIndex(after.workItems, unavailable) == Some(i)
    ensures after.workItems[i].id == goal.workItems[i].id && after.workItems[i].status == RestingStatus(releases)
    ensures Barren(after, goal.workItems[i].id) == Min(2, Barren(goal, goal.workItems[i].id) + 1)
    ensures goal.workItems[i].status == RestingStatus(releases) ==> SpentReplans(after) == SpentReplans(goal)
    ensures goal.replanAudit == [] ==> SpentReplans(after) == 0
  {
    hide Decide, SelectedIndex, LastN, TrailingNoChange;
    RestampedKeepsSelection(goal.workItems, after.workItems, i, unavailable);
    TrailingAfterReceipt(goal.turnReceipts, r, goal.workItems[i].id);
    if goal.workItems[i].status == RestingStatus(releases) {
      SameFingerprint(goal.workItems, after.workItems);
    }
  }

  lemma WorkTurnCounts(goal: Goal, unavailable: set<Id>, turn: Turn, releases: bool, i: nat, r: Receipt, after: Goal)
    requires SelectedIndex(goal.workItems, unavailable) == Some(i)
    requires Decide(Some(goal), unavailable) == Run(Work, Some(goal.workItems[i].id))
    requires WorkTaken(goal, after, turn, releases, i, r)
    ensures !IsFinalize(Decide(Some(after), unavailable))
    ensures TurnsLeft(after, unavailable, releases) < TurnsLeft(goal, unavailable, releases)
    ensures Steady(goal, unavailable, releases) ==> Steady(after, unavailable, releases)
    ensures Steady(goal, unavailable, releases) ==>
      TurnsLeft(after, unavailable, releases) == TurnsLeft(goal, unavailable, releases) - 1
  {
    hide SpentReplans, TrailingNoChange, SelectedIndex, ReplanBlocked, DecideIdle;
    WorkTurnKeeps(goal, unavailable, turn, releases, i, r, after);
    assert goal.forcedReplan.None? && after.forcedReplan.None?;
    assert Barren(goal, goal.workItems[i].id) < 2;
  }

  // ---------------------------------------------------------------------------
  // Whole runs
  // ---------------------------------------------------------------------------

  lemma IdleTurnCounts(goal: Goal, unavailable: set<Id>, turn: Turn, releases: bool) returns (r: Receipt, after: Goal)
    requires IdleTurnOf(goal, turn) && CanStall(goal, Decide(Some(goal), unavailable))
    ensures after == TakeTurn(goal, unavailable, turn, releases)
    ensures Undisturbed(after) && !IsFinalize(Decide(Some(after), unavailable))
    ensures after.turnReceipts == LastN(goal.turnReceipts + [r], TURN_RECEIPT_RETAIN) && r.id == TurnReceiptId(turn)
    ensures TurnsLeft(after, unavailable, releases) < TurnsLeft(goal, unavailable, releases)
    ensures Steady(goal, unavailable, releases) ==>
      Steady(after, unavailable, releases)
      && TurnsLeft(after, unavailable, releases) == TurnsLeft(goal, unavailable, releases) - 1
  {
    hide TakeTurn, TurnsLeft;
    if Decide(Some(goal), unavailable).Replan? {
      r, after := ReplanTurnShape(goal, unavailable, turn, releases);
      ReplanTurnKeeps(goal, unavailable, turn, r, after);
      ReplanTurnCounts(goal, unavailable, releases, after);
    } else {
      var i := SelectedIndex(goal.workItems, unavailable).value;
      r, after := WorkTurnShape(goal, unavailable, turn, releases, i);
      WorkTurnCounts(goal, unavailable, turn, releases, i, r, after);
    }
  }

  lemma LaterTurnsStayIdle(goal: Goal, turns: seq<Turn>, after: Goal, r: Receipt)
    requires turns != [] && IdleTurns(goal, turns)
    requires r.id == TurnReceiptId(turns[0])
        && after.turnReceipts == LastN(goal.turnReceipts + [r], TURN_RECEIPT_RETAIN)
    ensures IdleTurns(after, turns[1..])
  {
    var rest := turns[1..];
    forall k | 0 <= k < |rest|
      ensures !HasReceipt(after.turnReceipts, TurnReceiptId(rest[k]))
    {
      assert rest[k] == turns[k + 1];
      forall x | x in after.turnReceipts
        ensures x.id != TurnReceiptId(rest[k])
      {
        assert x in goal.turnReceipts + [r];
      }
    }
  }

  lemma StoppedStaysStopped(goal: Goal, unavailable: set<Id>, turns: seq<Turn>, releases: bool)
    requires Decide(Some(goal), unavailable).Stop?
    ensures TakeTurns(goal, unavailable, turns, releases) == goal
    decreases |turns|
  {
    if turns != [] {
      StoppedStaysStopped(goal, unavailable, turns[1..], releases);
    }
  }

  /** Every run of idle turns at least `TurnsLeft` long ends stopped; from a steady state, no shorter one does. */
  lemma {:induction false} StallCount(goal: Goal, unavailable: set<Id>, turns: seq<Turn>, releases: bool)
    requires Undisturbed(goal) && IdleTurns(goal, turns)
    requires !IsFinalize(Decide(Some(goal), unavailable))
    ensures |turns| >= TurnsLeft(goal, unavailable, releases) ==>
      Decide(Some(TakeTurns(goal, unavailable, turns, releases)), unavailable).Stop?
    ensures |turns| < TurnsLeft(goal, unavailable, releases) && Steady(goal, unavailable, releases) ==>
      !Decide(Some(TakeTurns(goal, unavailable, turns, releases)), unavailable).Stop?
    decreases |turns|
  {
    hide TakeTurn;
    if Decide(Some(goal), unavailable).Stop? {
      StoppedStaysStopped(goal, unavailable, turns, releases);
    } else if turns != [] {
      var r, after := IdleTurnCounts(goal, unavailable, turns[0], releases);
      LaterTurnsStayIdle(goal, turns, after, r);
      StallCount(after, unavailable, turns[1..], releases);
    }
  }

  /** The first turn replans an item that is not yet in the status it rests in between turns. */
  ghost predicate ReplansUnrestedItem(goal: Goal, unavailable: set<Id>, releases: bool) {
    Decide(Some(goal), unavailable).Replan? && !RestingSelection(goal, unavailable, releases)
  }

  /** Ten idle turns always stop the goal, and nine do unless the first one replans an unrested item. */
  lemma StallBound(goal: Goal, unavailable: set<Id>, turns: seq<Turn>, releases: bool)
    requires Undisturbed(goal) && IdleTurns(goal, turns)
    requires !IsFinalize(Decide(Some(goal), unavailable))
    requires |turns| >= if ReplansUnrestedItem(goal, unavailable, releases) then 10 else 9
    ensures Decide(Some(TakeTurns(goal, unavailable, turns, releases)), unavailable).Stop?
  {
    StallCount(goal, unavailable, turns, releases);
  }

  // ---------------------------------------------------------------------------
  // Where the bound does not apply
  // ---------------------------------------------------------------------------

  /** A finalizing goal without a budget is never stopped by idle turns. */
  lemma {:induction false} FinalizeNeverStops(goal: Goal, unavailable: set<Id>, turns: seq<Turn>, releases: bool)
    requires Undisturbed(goal) && IdleTurns(goal, turns) && goal.budget.None?
    requires !ReplanBlocked(goal.replanAudit)
    requires IsFinalize(Decide(Some(goal), unavailable))
    ensures IsFinalize(Decide(Some(TakeTurns(goal, unavailable, turns, releases)), unavailable))
    decreases |turns|
  {
    hide TakeTurn;
    if turns != [] {
      var r, after := FinalizeTurn(goal, unavailable, turns[0], releases);
      LaterTurnsStayIdle(goal, turns, after, r);
      FinalizeNeverStops(after, unavailable, turns[1..], releases);
    }
  }

  lemma FinalizeTurn(goal: Goal, unavailable: set<Id>, turn: Turn, releases: bool) returns (r: Receipt, after: Goal)
    requires IdleTurnOf(goal, turn) && goal.budget.None? && !ReplanBlocked(goal.replanAudit)
    requires IsFinalize(Decide(Some(goal), unavailable))
    ensures after == TakeTurn(goal, unavailable, turn, releases)
    ensures Undisturbed(after) && after.budget.None? && after.replanAudit == goal.replanAudit
    ensures IsFinalize(Decide(Some(after), unavailable))
    ensures after.turnReceipts == LastN(goal.turnReceipts + [r], TURN_RECEIPT_RETAIN) && r.id == TurnReceiptId(turn)
  {
    hide SettleGoalRun;
    r, after := SettledIdleShape(goal, turn, Decide(Some(goal), unavailable));
  }

  /** Without a budget, ten idle turns stop a goal exactly when it is not finalizing. */
  lemma StallsUnlessFinalizing(goal: Goal, unavailable: set<Id>, turns: seq<Turn>, releases: bool)
    requires Undisturbed(goal) && IdleTurns(goal, turns) && |turns| >= 10
    requires goal.budget.None? && !ReplanBlocked(goal.replanAudit)
    ensures Decide(Some(TakeTurns(goal, unavailable, turns, releases)), unavailable).Stop?
       <==> !IsFinalize(Decide(Some(goal), unavailable))
  {
    if IsFinalize(Decide(Some(goal), unavailable)) {
      FinalizeNeverStops(goal, unavailable, turns, releases);
    } else {
      StallBound(goal, unavailable, turns, releases);
    }
  }

  /** The turns of a newly created goal that no agent advances: exactly nine, then it is blocked. */
  lemma NewGoalStallsInNine(objective: string, criteria: Option<string>, at: Time, turns: seq<Turn>, releases: bool)
    requires IdleTurns(Create(objective, criteria, None, at), turns)
    ensures Decide(Some(TakeTurns(Create(objective, criteria, None, at), {}, turns, releases)), {}).Stop?
       <==> |turns| >= 9
  {
    var goal := Create(objective, criteria, None, at);
    var items := goal.workItems;
    assert items[0] == BootstrapItem(Trim(objective), at);
    assert GateIndex(items) == 1;
    assert IsSelection(items, {}, 0);
    SelectionIs(items, {}, 0);
    assert Decide(Some(goal), {}) == Run(Work, Some(items[0].id));
    StallCount(goal, {}, turns, releases);
  }

  /** A turn that begins an item and then fails or is interrupted. */
  ghost function FailTurn(goal: Goal, unavailable: set<Id>, turn: Turn, interrupted: bool): Goal {
    var decision := Decide(Some(goal), unavailable);
    if !decision.Run? || decision.workItemId.None? then goal
    else
      var begun := BeginWorkItem(Some(goal), decision.workItemId.value, turn.startedAt).next;
      SettleGoalRunFailure(begun, turn.result.runId, decision.workItemId, interrupted, None, turn.releasedAt).value
  }

  lemma FailedShape(goal: Goal, turn: Turn, interrupted: bool, i: nat) returns (r: Receipt, after: Goal)
    requires IdleTurnOf(goal, turn) && goal.status.Active? && !ReplanBlocked(goal.replanAudit)
    requires i < |goal.workItems| && goal.workItems[i].role.Agent? && goal.workItems[i].status.Running?
    ensures SettleGoalRunFailure(
        Some(goal), turn.result.runId, Some(goal.workItems[i].id), interrupted, None, turn.releasedAt)
         == Some(after)
    ensures Undisturbed(after) && after.status.Active? && after.budget == goal.budget
        && after.forcedReplan == goal.forcedReplan
    ensures Restamped(goal.workItems, after.workItems, i) && after.replanAudit == goal.replanAudit
    ensures after.turnReceipts == LastN(goal.turnReceipts + [r], TURN_RECEIPT_RETAIN)
    ensures r.id == TurnReceiptId(turn) && !r.outcome.NoChange?
  {
    hide SettleTurn, LastN, ReplanBlocked, HasReceipt;
    r := Receipt(TurnReceiptId(turn), turn.result.runId, Some(goal.workItems[i].id), turn.releasedAt,
                 if interrupted then Interrupted else Failed, [], Validation(NotApplicable, None), Usage(1, 0, 0));
    after := PlainSettlement(goal, SettleInput(r, [], [], false, None));
    assert after.workItems == goal.workItems[i := after.workItems[i]];
  }

  lemma FailTurnShape(goal: Goal, unavailable: set<Id>, turn: Turn, interrupted: bool, i: nat)
    returns (r: Receipt, after: Goal)
    requires IdleTurnOf(goal, turn) && goal.budget.None? && !ReplanBlocked(goal.replanAudit)
    requires SelectedIndex(goal.workItems, unavailable) == Some(i)
    requires Decide(Some(goal), unavailable) == Run(Work, Some(goal.workItems[i].id))
    ensures after == FailTurn(goal, unavailable, turn, interrupted)
    ensures Undisturbed(after) && after.status.Active? && after.budget.None? && after.forcedReplan.None?
    ensures Restamped(goal.workItems, after.workItems, i) && after.replanAudit == goal.replanAudit
    ensures after.turnReceipts == LastN(goal.turnReceipts + [r], TURN_RECEIPT_RETAIN)
    ensures r.id == TurnReceiptId(turn) && !r.outcome.NoChange?
  {
    hide SettleGoalRunFailure, BeginWorkItem;
    var begun := BegunShape(goal, i, turn.startedAt);
    r, after := FailedShape(begun, turn, interrupted, i);
  }

  lemma FailTurnRepeats(goal: Goal, unavailable: set<Id>, i: nat, r: Receipt, after: Goal)
    requires SelectedIndex(goal.workItems, unavailable) == Some(i)
    requires after.status.Active? && after.budget.None? && after.forcedReplan.None?
    requires Restamped(goal.workItems, after.workItems, i)
    requires after.turnReceipts == LastN(goal.turnReceipts + [r], TURN_RECEIPT_RETAIN) && !r.outcome.NoChange?
    ensures SelectedIndex(after.workItems, unavailable) == Some(i)
    ensures Decide(Some(after), unavailable) == Run(Work, Some(goal.workItems[i].id))
  {
    RestampedKeepsSelection(goal.workItems, after.workItems, i, unavailable);
    TrailingAfterReceipt(goal.turnReceipts, r, goal.workItems[i].id);
  }

  ghost function FailTurns(goal: Goal, unavailable: set<Id>, turns: seq<Turn>, interrupted: bool): Goal
    decreases |turns|
  {
    if turns == [] then goal
    else FailTurns(FailTurn(goal, unavailable, turns[0], interrupted), unavailable, turns[1..], interrupted)
  }

  /** Failed turns are not idle turns: however many there are, the same item is run again. */
  lemma {:induction false} FailuresNeverStall(goal: Goal, unavailable: set<Id>, turns: seq<Turn>, interrupted: bool)
    requires Undisturbed(goal) && IdleTurns(goal, turns) && goal.budget.None? && !ReplanBlocked(goal.replanAudit)
    requires Decide(Some(goal), unavailable).Run? && Decide(Some(goal), unavailable).mode.Work?
    ensures Decide(Some(FailTurns(goal, unavailable, turns, interrupted)), unavailable)
        == Decide(Some(goal), unavailable)
    decreases |turns|
  {
    hide FailTurn;
    if turns != [] {
      var i := SelectedIndex(goal.workItems, unavailable).value;
      var r, after := FailTurnShape(goal, unavailable, turns[0], interrupted, i);
      FailTurnRepeats(goal, unavailable, i, r, after);
      LaterTurnsStayIdle(goal, turns, after, r);
      FailuresNeverStall(after, unavailable, turns[1..], interrupted);
    }
  }

  /** When the replan audit is spent after a settlement: by what it was, or by a third report on the same frontier. */
  lemma SpentAfterReport(audit: seq<ReplanEntry>, report: Option<ReplanReport>, at: Time)
    ensures ReplanBlocked(SettleReplanAudit(audit, report, at)) <==>
      if report.None? then ReplanBlocked(audit)
      else
        && !report.value.deltaRecorded && audit != [] && !audit[|audit| - 1].deltaRecorded
        && audit[|audit| - 1].fingerprint == report.value.fingerprint
        && audit[|audit| - 1].repeat >= BLOCK_REPEAT_THRESHOLD - 1
  {
  }

  /**
   * Resuming a blocked goal does not forget its replan audit. The next new
   * settlement blocks the goal again exactly when the audit with that
   * settlement's report is spent, unless it completes the goal; an undisturbed
   * goal is not completed without the override.
   */
  lemma ResumedIsBlockedIff(goal: Goal, at: Time, input: SettleInput)
    requires goal.status.Blocked? && !HasReceipt(goal.turnReceipts, input.receipt.id)
    ensures var resumed := Transition(Some(goal), Active, at).next;
      && resumed.Some? && resumed.value.status.Active?
      && SettleTurn(resumed, input).next.Some?
      && var status := SettleTurn(resumed, input).next.value.status;
         && (status.Blocked? <==>
              !status.Complete? && ReplanBlocked(SettleReplanAudit(goal.replanAudit, input.replan, input.receipt.at)))
         && (status.Blocked? || status.Complete? || status.Active?)
         && (Undisturbed(goal) && !input.completionAccepted ==> !status.Complete?)
  {
    hide ApplyRequests, LastN, CountDone, CountVerified, SettleReplanAudit, ReplanBlocked, Reopen, CompletionFailure,
         ObservedRefs, HasText,
         FrontierClosed, DistinctIds;
  }
}
