/**
 * When each decision about the next turn is taken, written out over the fields of
 * the goal and its work items. Nothing here is defined by the decision itself.
 */
module GoalDecisions {
  import opened Text
  import opened GoalTypes
  import opened Digraph
  import opened GoalController

  // ---------------------------------------------------------------------------
  // Items
  // ---------------------------------------------------------------------------

  predicate IsOver(x: WorkItem) {
    x.status == Done || x.status == ItemStatus.Cancelled
  }

  predicate HasOver(items: seq<WorkItem>, id: Id) {
    exists y :: y in items && y.id == id && IsOver(y)
  }

  /** Everything the item depends on is over. */
  predicate MayStart(items: seq<WorkItem>, x: WorkItem) {
    forall d :: d in x.dependsOn ==> HasOver(items, d)
  }

  predicate IsAgentWork(items: seq<WorkItem>, x: WorkItem) {
    x.role == Agent && (x.status == Open || x.status == Claimed || x.status == Running) && MayStart(items, x)
  }

  predicate IsWaitingGate(items: seq<WorkItem>, x: WorkItem) {
    x.role == User && x.taskClass == UserGate && !IsOver(x) && MayStart(items, x)
  }

  predicate IsFirstGate(items: seq<WorkItem>, g: nat) {
    g < |items| && IsWaitingGate(items, items[g]) && forall j :: 0 <= j < g ==> !IsWaitingGate(items, items[j])
  }

  predicate DependsDirectly(items: seq<WorkItem>, a: Id, b: Id) {
    exists x :: x in items && x.id == a && b in x.dependsOn
  }

  /** Each id on the chain depends directly on the next one. */
  predicate IsChain(items: seq<WorkItem>, chain: seq<Id>) {
    |chain| >= 2 && forall k :: 0 <= k < |chain| - 1 ==> DependsDirectly(items, chain[k], chain[k + 1])
  }

  ghost predicate WaitsOn(items: seq<WorkItem>, a: Id, b: Id) {
    a != b && exists chain :: IsChain(items, chain) && chain[0] == a && chain[|chain| - 1] == b
  }

  /** The item waits, directly or not, for the first gate that waits. */
  ghost predicate IsFenced(items: seq<WorkItem>, x: WorkItem) {
    exists g: nat :: IsFirstGate(items, g) && WaitsOn(items, x.id, items[g].id)
  }

  ghost predicate IsSelectable(items: seq<WorkItem>, unavailable: set<Id>, x: WorkItem) {
    IsAgentWork(items, x) && x.id !in unavailable && !IsFenced(items, x)
  }

  predicate IsMoreUrgent(a: WorkItem, b: WorkItem) {
    || (a.priority == P0 && b.priority != P0)
    || (a.priority == P1 && b.priority == P2)
    || (a.priority == b.priority && a.createdAt < b.createdAt)
  }

  /** Selectable, none more urgent, and the first of those as urgent. */
  ghost predicate IsChosen(items: seq<WorkItem>, unavailable: set<Id>, i: nat) {
    && i < |items| && IsSelectable(items, unavailable, items[i])
    && (forall j :: 0 <= j < |items| && IsSelectable(items, unavailable, items[j]) ==>
          !IsMoreUrgent(items[j], items[i]))
    && (forall j :: 0 <= j < i && IsSelectable(items, unavailable, items[j]) ==> IsMoreUrgent(items[i], items[j]))
  }

  ghost predicate NothingSelectable(items: seq<WorkItem>, unavailable: set<Id>) {
    forall x :: x in items ==> !IsSelectable(items, unavailable, x)
  }

  predicate NoGateWaits(items: seq<WorkItem>) {
    forall x :: x in items ==> !IsWaitingGate(items, x)
  }

  predicate IsHeldWork(items: seq<WorkItem>, unavailable: set<Id>, x: WorkItem) {
    IsAgentWork(items, x) && x.id in unavailable
  }

  predicate IsFirstHeld(items: seq<WorkItem>, unavailable: set<Id>, h: nat) {
    && h < |items| && IsHeldWork(items, unavailable, items[h])
    && forall j :: 0 <= j < h ==> !IsHeldWork(items, unavailable, items[j])
  }

  predicate NothingHeld(items: seq<WorkItem>, unavailable: set<Id>) {
    forall x :: x in items ==> !IsHeldWork(items, unavailable, x)
  }

  predicate IsFirstDeferred(items: seq<WorkItem>, i: nat) {
    i < |items| && items[i].status == Deferred && forall j :: 0 <= j < i ==> items[j].status != Deferred
  }

  predicate AllOver(items: seq<WorkItem>) {
    items != [] && forall x :: x in items ==> IsOver(x)
  }

  // ---------------------------------------------------------------------------
  // Goals
  // ---------------------------------------------------------------------------

  predicate ReachesLimit(goal: Goal) {
    goal.budget.Some? &&
    var b := goal.budget.value;
    || (b.maxTurns.Some? && b.maxTurns.value <= goal.consumption.turns)
    || (b.maxToolIterations.Some? && b.maxToolIterations.value <= goal.consumption.toolIterations)
    || (b.maxTokens.Some? && b.maxTokens.value <= goal.consumption.tokens)
    || (b.maxValidatedTurns.Some? && b.maxValidatedTurns.value <= goal.delivery.validatedTurns)
  }

  /** Active, with budget left, and not asked for a new plan. */
  predicate IsFree(goal: Goal) {
    goal.status == Active && !ReachesLimit(goal) && goal.forcedReplan == None
  }

  /** The reason for having no follow-up holds more than space. */
  predicate GivesNoFollowup(goal: Goal) {
    && goal.noFollowupReason.Some?
    && exists k :: 0 <= k < |goal.noFollowupReason.value| && !IsSpace(goal.noFollowupReason.value[k])
  }

  /** The last two receipts are turns on this item that changed nothing. */
  predicate ChangedNothingTwice(receipts: seq<Receipt>, id: Id) {
    && |receipts| >= 2
    && forall k :: |receipts| - 2 <= k < |receipts| ==>
        receipts[k].workItemId == Some(id) && receipts[k].outcome == NoChange
  }

  function AskForPlan(goal: Goal, trigger: string): Decision {
    Replan(trigger, Fingerprint(goal.workItems), goal.planRevision)
  }

  // ---------------------------------------------------------------------------
  // The terms of the decision
  // ---------------------------------------------------------------------------

  lemma OverIs(items: seq<WorkItem>, id: Id)
    ensures id in CompletedIds(items) <==> HasOver(items, id)
  {
    if id in CompletedIds(items) {
      var x :| x in items && Finished(x) && x.id == id;
      assert IsOver(x);
    }
  }

  lemma TermsAgree(items: seq<WorkItem>, x: WorkItem)
    ensures IsRunnable(x, CompletedIds(items)) <==> IsAgentWork(items, x)
    ensures IsReadyGate(x, CompletedIds(items)) <==> IsWaitingGate(items, x)
  {
    hide CompletedIds, HasOver;
    forall d
      ensures d in CompletedIds(items) <==> HasOver(items, d)
    {
      OverIs(items, d);
    }
  }

  lemma AllTermsAgree(items: seq<WorkItem>)
    ensures forall x :: IsRunnable(x, CompletedIds(items)) <==> IsAgentWork(items, x)
    ensures forall x :: IsReadyGate(x, CompletedIds(items)) <==> IsWaitingGate(items, x)
  {
    hide IsRunnable, IsAgentWork, IsReadyGate, IsWaitingGate;
    forall x
      ensures IsRunnable(x, CompletedIds(items)) <==> IsAgentWork(items, x)
      ensures IsReadyGate(x, CompletedIds(items)) <==> IsWaitingGate(items, x)
    {
      TermsAgree(items, x);
    }
  }

  lemma DirectIsEdge(items: seq<WorkItem>, a: Id, b: Id)
    ensures DependsDirectly(items, a, b) <==> (a, b) in Edges(items)
  {
  }

  lemma {:induction false} WalkIsChain(items: seq<WorkItem>, a: Id, b: Id, n: nat) returns (chain: seq<Id>)
    requires n > 0 && Walk(Edges(items), a, b, n)
    ensures IsChain(items, chain) && chain[0] == a && chain[|chain| - 1] == b
    decreases n
  {
    hide DependsDirectly;
    var c :| (a, c) in Edges(items) && Walk(Edges(items), c, b, n - 1);
    DirectIsEdge(items, a, c);
    if n == 1 {
      chain := [a, b];
    } else {
      var rest := WalkIsChain(items, c, b, n - 1);
      chain := [a] + rest;
      forall k | 0 <= k < |chain| - 1
        ensures DependsDirectly(items, chain[k], chain[k + 1])
      {
        assert k > 0 ==> chain[k] == rest[k - 1];
      }
    }
  }

  lemma {:induction false} ChainIsWalk(items: seq<WorkItem>, chain: seq<Id>)
    requires IsChain(items, chain)
    ensures Walk(Edges(items), chain[0], chain[|chain| - 1], |chain| - 1)
    decreases |chain|
  {
    hide DependsDirectly;
    var a, c, b := chain[0], chain[1], chain[|chain| - 1];
    DirectIsEdge(items, a, c);
    if |chain| == 2 {
      assert Walk(Edges(items), b, b, 0);
    } else {
      var rest := chain[1..];
      forall k | 0 <= k < |rest| - 1
        ensures DependsDirectly(items, rest[k], rest[k + 1])
      {
        assert rest[k] == chain[k + 1];
      }
      ChainIsWalk(items, rest);
    }
  }

  lemma WaitingIsDependence(items: seq<WorkItem>, x: WorkItem, root: Id)
    requires x in items
    ensures x.id in Dependents(items, root) <==> WaitsOn(items, x.id, root)
  {
    if x.id in Dependents(items, root) {
      var n: nat :| n > 0 && Walk(Edges(items), x.id, root, n);
      var chain := WalkIsChain(items, x.id, root, n);
    }
    if WaitsOn(items, x.id, root) {
      var chain :| IsChain(items, chain) && chain[0] == x.id && chain[|chain| - 1] == root;
      ChainIsWalk(items, chain);
    }
  }

  lemma FirstGateIs(items: seq<WorkItem>)
    ensures forall g: nat :: IsFirstGate(items, g) <==> g == GateIndex(items) && g < |items|
    ensures GateIndex(items) == |items| <==> NoGateWaits(items)
  {
    hide IsReadyGate, IsWaitingGate;
    AllTermsAgree(items);
    var gate := GateIndex(items);
    if gate == |items| {
      assert forall x :: x in items ==> exists j :: 0 <= j < |items| && items[j] == x;
    } else {
      assert items[gate] in items;
    }
  }

  lemma FencedIs(items: seq<WorkItem>, x: WorkItem)
    requires x in items
    ensures x.id in GateBlocked(items) <==> IsFenced(items, x)
  {
    hide IsFirstGate, Dependents, WaitsOn;
    FirstGateIs(items);
    var gate := GateIndex(items);
    if gate < |items| {
      WaitingIsDependence(items, x, items[gate].id);
      assert IsFirstGate(items, gate);
    }
  }

  lemma SelectableIs(items: seq<WorkItem>, unavailable: set<Id>, x: WorkItem)
    requires x in items
    ensures IsCandidate(x, CompletedIds(items), unavailable, GateBlocked(items)) <==>
        IsSelectable(items, unavailable, x)
  {
    hide IsRunnable, IsAgentWork, GateBlocked, IsFenced;
    TermsAgree(items, x);
    FencedIs(items, x);
  }

  lemma ChosenIs(items: seq<WorkItem>, unavailable: set<Id>)
    ensures forall i: nat :: IsChosen(items, unavailable, i) <==> SelectedIndex(items, unavailable) == Some(i)
    ensures SelectedIndex(items, unavailable).None? <==> NothingSelectable(items, unavailable)
  {
    hide IsCandidate, IsSelectable, SelectedIndex, GateBlocked;
    forall i | 0 <= i < |items|
      ensures IsCandidate(items[i], CompletedIds(items), unavailable, GateBlocked(items)) <==>
          IsSelectable(items, unavailable, items[i])
    {
      SelectableIs(items, unavailable, items[i]);
    }
    forall i: nat
      ensures IsChosen(items, unavailable, i) <==> IsSelection(items, unavailable, i)
    {
    }
    forall i: nat | IsSelection(items, unavailable, i)
      ensures SelectedIndex(items, unavailable) == Some(i)
    {
      SelectionIs(items, unavailable, i);
    }
    if SelectedIndex(items, unavailable).Some? {
      SelectedIsSelection(items, unavailable);
      var i := SelectedIndex(items, unavailable).value;
      assert items[i] in items && IsSelectable(items, unavailable, items[i]);
    } else {
      forall x | x in items
        ensures !IsSelectable(items, unavailable, x)
      {
        var j :| 0 <= j < |items| && items[j] == x;
      }
    }
  }

  lemma HeldIs(items: seq<WorkItem>, unavailable: set<Id>)
    ensures forall h: nat :: IsFirstHeld(items, unavailable, h) <==>
        h == HeldElsewhereIndex(items, unavailable) && h < |items|
    ensures HeldElsewhereIndex(items, unavailable) == |items| <==> NothingHeld(items, unavailable)
    ensures unavailable == {} ==> NothingHeld(items, unavailable)
  {
    hide IsRunnable, IsAgentWork;
    AllTermsAgree(items);
    var held := HeldElsewhereIndex(items, unavailable);
    if held == |items| {
      assert forall x :: x in items ==> exists j :: 0 <= j < |items| && items[j] == x;
    } else {
      assert items[held] in items;
    }
  }

  lemma DeferredIs(items: seq<WorkItem>)
    ensures forall i: nat :: IsFirstDeferred(items, i) <==> i == DeferredIndex(items) && i < |items|
    ensures DeferredIndex(items) == |items| <==> forall x :: x in items ==> x.status != Deferred
  {
    var deferred := DeferredIndex(items);
    if deferred == |items| {
      assert forall x :: x in items ==> exists j :: 0 <= j < |items| && items[j] == x;
    } else {
      assert items[deferred] in items;
    }
  }

  lemma TextIs(goal: Goal)
    ensures HasText(goal.noFollowupReason) <==> GivesNoFollowup(goal)
  {
    if goal.noFollowupReason.Some? {
      BlankIff(goal.noFollowupReason.value);
    }
  }

  lemma StalledIs(receipts: seq<Receipt>, id: Id)
    ensures TrailingNoChange(receipts, id) >= 2 <==> ChangedNothingTwice(receipts, id)
  {
    if |receipts| >= 2 {
      var front := receipts[..|receipts| - 1];
      assert front[|front| - 1] == receipts[|receipts| - 2];
    }
  }

  // ---------------------------------------------------------------------------
  // The decisions
  // ---------------------------------------------------------------------------

  /** A goal that is not free is stopped for its status or its budget, or gets the plan it was asked for. */
  lemma OnlyFreeGoalsRun(goal: Goal, unavailable: set<Id>)
    ensures var d := Decide(Some(goal), unavailable);
      && (goal.status != Active ==> d == Stop(GoalNotActive(goal.status), None))
      && (goal.status == Active && ReachesLimit(goal) ==> d == Stop(BudgetExhausted, None))
      && (goal.status == Active && !ReachesLimit(goal) && goal.forcedReplan.Some? ==>
            d == AskForPlan(goal, goal.forcedReplan.value.reason))
  {
  }

  /** The decision for a free goal, in the terms above. */
  ghost predicate IsWarranted(goal: Goal, unavailable: set<Id>, d: Decision) {
    var items := goal.workItems;
    || (exists i: nat :: IsChosen(items, unavailable, i)
         && d == if ChangedNothingTwice(goal.turnReceipts, items[i].id)
                 then AskForPlan(goal, "no_progress:" + items[i].id)
                 else Run(Work, Some(items[i].id)))
    || (NothingSelectable(items, unavailable) && IsWarrantedIdle(goal, unavailable, d))
  }

  ghost predicate IsWarrantedIdle(goal: Goal, unavailable: set<Id>, d: Decision) {
    var items := goal.workItems;
    || (exists g: nat :: IsFirstGate(items, g) && d == Stop(UserActionNeeded, Some(items[g].id)))
    || (NoGateWaits(items) &&
        exists h: nat :: IsFirstHeld(items, unavailable, h) && d == Stop(ExternalWait, Some(items[h].id)))
    || (NoGateWaits(items) && NothingHeld(items, unavailable) && IsWarrantedAlone(goal, d))
  }

  /** Without work, gates and work held by others. */
  ghost predicate IsWarrantedAlone(goal: Goal, d: Decision) {
    var items := goal.workItems;
    || (AllOver(items) && GivesNoFollowup(goal) && d == Run(Finalize, None))
    || (AllOver(items) && !GivesNoFollowup(goal) && d == AskForPlan(goal, "terminal_no_followup_missing"))
    || (!AllOver(items) &&
        exists i: nat :: IsFirstDeferred(items, i) && d == Stop(ExternalWait, Some(items[i].id)))
    || (!AllOver(items) && (forall x :: x in items ==> x.status != Deferred)
         && d == AskForPlan(goal, "frontier_empty_nonterminal"))
  }

  lemma AloneIsWarranted(goal: Goal, d: Decision)
    ensures var items := goal.workItems; var deferred := DeferredIndex(items);
      IsWarrantedAlone(goal, d) <==>
      (d == if FrontierClosed(items) then
              if HasText(goal.noFollowupReason) then Run(Finalize, None)
              else AskForPlan(goal, "terminal_no_followup_missing")
            else if deferred < |items| then Stop(ExternalWait, Some(items[deferred].id))
            else AskForPlan(goal, "frontier_empty_nonterminal"))
  {
    hide IsFirstDeferred, GivesNoFollowup, HasText, Fingerprint;
    TextIs(goal);
    DeferredIs(goal.workItems);
    var deferred := DeferredIndex(goal.workItems);
    assert deferred < |goal.workItems| ==> IsFirstDeferred(goal.workItems, deferred);
    assert forall x :: x in goal.workItems ==> (Finished(x) <==> IsOver(x));
  }

  lemma IdleIsWarranted(goal: Goal, unavailable: set<Id>, d: Decision)
    ensures DecideIdle(goal, unavailable) == d <==> IsWarrantedIdle(goal, unavailable, d)
  {
    hide IsFirstGate, IsFirstHeld, IsWarrantedAlone, NoGateWaits, NothingHeld, FrontierClosed, HasText, Fingerprint;
    var items := goal.workItems;
    FirstGateIs(items);
    HeldIs(items, unavailable);
    AloneIsWarranted(goal, d);
    var gate, held := GateIndex(items), HeldElsewhereIndex(items, unavailable);
    assert gate < |items| ==> IsFirstGate(items, gate);
    assert held < |items| ==> IsFirstHeld(items, unavailable, held);
  }

  /** Of all decisions about a free goal, exactly the warranted one is taken. */
  lemma DecisionIsWarranted(goal: Goal, unavailable: set<Id>, d: Decision)
    requires IsFree(goal)
    ensures Decide(Some(goal), unavailable) == d <==> IsWarranted(goal, unavailable, d)
  {
    hide IsChosen, IsWarrantedIdle, NothingSelectable, DecideIdle, ChangedNothingTwice, TrailingNoChange, Fingerprint;
    var items := goal.workItems;
    ChosenIs(items, unavailable);
    IdleIsWarranted(goal, unavailable, d);
    var best := SelectedIndex(items, unavailable);
    if best.Some? {
      assert IsChosen(items, unavailable, best.value);
      StalledIs(goal.turnReceipts, items[best.value].id);
    }
  }

  /** A goal is asked to finalize exactly when it is free, all of its work is over, and it says why nothing follows. */
  lemma FinalizesIff(goal: Goal, unavailable: set<Id>)
    ensures Decide(Some(goal), unavailable) == Run(Finalize, None) <==>
        IsFree(goal) && AllOver(goal.workItems) && GivesNoFollowup(goal)
  {
    hide Decide, GivesNoFollowup, IsFenced, MayStart, ChangedNothingTwice;
    OnlyFreeGoalsRun(goal, unavailable);
    if IsFree(goal) {
      DecisionIsWarranted(goal, unavailable, Run(Finalize, None));
    }
  }

  /** Without that reason it is asked for a plan. */
  lemma TerminalReplanIff(goal: Goal, unavailable: set<Id>)
    requires goal.forcedReplan == None
    ensures Decide(Some(goal), unavailable) == AskForPlan(goal, "terminal_no_followup_missing") <==>
        IsFree(goal) && AllOver(goal.workItems) && !GivesNoFollowup(goal)
  {
    hide Decide, GivesNoFollowup, IsFenced, MayStart, ChangedNothingTwice;
    OnlyFreeGoalsRun(goal, unavailable);
    if IsFree(goal) {
      TriggersDiffer(goal);
      DecisionIsWarranted(goal, unavailable, AskForPlan(goal, "terminal_no_followup_missing"));
    }
  }

  lemma TriggersDiffer(goal: Goal)
    ensures forall id :: "no_progress:" + id != "terminal_no_followup_missing"
    ensures forall id :: "no_progress:" + id != "frontier_empty_nonterminal"
  {
    forall id
      ensures "no_progress:" + id != "terminal_no_followup_missing"
      ensures "no_progress:" + id != "frontier_empty_nonterminal"
    {
      assert ("no_progress:" + id)[0] == 'n';
    }
  }

  /** It waits for others exactly when it is free and left with work they hold, or with deferred work alone. */
  lemma WaitsForOthersIff(goal: Goal, unavailable: set<Id>, id: Id)
    ensures var items := goal.workItems;
      Decide(Some(goal), unavailable) == Stop(ExternalWait, Some(id)) <==>
      && IsFree(goal) && NothingSelectable(items, unavailable) && NoGateWaits(items)
      && (|| (exists h: nat :: IsFirstHeld(items, unavailable, h) && items[h].id == id)
          || (NothingHeld(items, unavailable) && !AllOver(items)
               && exists i: nat :: IsFirstDeferred(items, i) && items[i].id == id))
  {
    hide Decide, GivesNoFollowup, IsSelectable, NothingHeld, IsWaitingGate, IsFirstHeld, ChangedNothingTwice, AllOver;
    var items := goal.workItems;
    OnlyFreeGoalsRun(goal, unavailable);
    if IsFree(goal) {
      DecisionIsWarranted(goal, unavailable, Stop(ExternalWait, Some(id)));
      ChosenIs(items, unavailable);
      FirstGateIs(items);
    }
  }
}
