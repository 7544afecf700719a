/**
 * Progress of the dependency graph: a frontier without cycles always has
 * something to do or to wait for, and a waiting gate stops only its dependents.
 */
module GoalFrontier {
  import opened Text
  import opened GoalTypes
  import opened Digraph
  import opened GoalController
  import opened GoalService

  // ---------------------------------------------------------------------------
  // The unfinished part of the frontier
  // ---------------------------------------------------------------------------

  /** What the unfinished items still wait for. */
  function WaitingEdges(items: seq<WorkItem>): Graph {
    var completed := CompletedIds(items);
    set x, d | x in items && !Finished(x) && d in x.dependsOn && d !in completed :: (x.id, d)
  }

  predicate DependencyClosed(items: seq<WorkItem>) {
    forall x, d :: x in items && d in x.dependsOn ==> d in Ids(items)
  }

  /** What a plan of agent work and gates looks like: closed, nothing deferred, users only guard gates. */
  predicate PlainFrontier(items: seq<WorkItem>) {
    && DependencyClosed(items)
    && (forall x :: x in items ==> !x.status.Deferred?)
    && (forall x :: x in items && x.role.User? ==> x.taskClass.UserGate?)
    && (exists x :: x in items && !Finished(x))
  }

  predicate FreeToRun(goal: Goal) {
    goal.status.Active? && !IsBudgetExhausted(goal) && goal.forcedReplan.None?
  }

  predicate IsReadyUnfinished(x: WorkItem, completed: set<Id>) {
    !Finished(x) && Ready(x, completed)
  }

  /** Some unfinished item has all of its dependencies completed. */
  predicate HasReadyItem(items: seq<WorkItem>) {
    exists x :: x in items && IsReadyUnfinished(x, CompletedIds(items))
  }

  lemma UnreadyHasEdge(items: seq<WorkItem>, x: WorkItem)
    requires x in items && !Finished(x) && !Ready(x, CompletedIds(items))
    ensures x.id in Sources(WaitingEdges(items))
  {
    var d :| d in x.dependsOn && d !in CompletedIds(items);
    assert (x.id, d) in WaitingEdges(items) && (x.id, d).0 == x.id;
  }

  lemma WaitingIsEndless(items: seq<WorkItem>)
    requires DependencyClosed(items) && !HasReadyItem(items)
    ensures forall e :: e in WaitingEdges(items) ==> e.1 in Sources(WaitingEdges(items))
  {
    forall e | e in WaitingEdges(items)
      ensures e.1 in Sources(WaitingEdges(items))
    {
      var x :| x in items && !Finished(x) && e.0 == x.id && e.1 in x.dependsOn && e.1 !in CompletedIds(items);
      assert e.1 in Ids(items);
      var y :| y in items && y.id == e.1;
      assert !Finished(y) && !IsReadyUnfinished(y, CompletedIds(items));
      UnreadyHasEdge(items, y);
    }
  }

  lemma ReadyHasNoEdge(items: seq<WorkItem>, x: WorkItem)
    requires DistinctIds(items) && x in items && Ready(x, CompletedIds(items))
    ensures x.id !in Sources(WaitingEdges(items))
  {
    forall e | e in WaitingEdges(items)
      ensures e.0 != x.id
    {
      var y :| y in items && !Finished(y) && e.0 == y.id && e.1 in y.dependsOn && e.1 !in CompletedIds(items);
      assert y != x;
    }
  }

  /** Nothing is ready exactly when every unfinished item waits, in the end, on a cycle. */
  lemma NothingReadyIffCycles(items: seq<WorkItem>)
    requires DependencyClosed(items) && DistinctIds(items)
    ensures !HasReadyItem(items) <==>
      forall x :: x in items && !Finished(x) ==> LeadsToCycle(WaitingEdges(items), x.id)
  {
    if !HasReadyItem(items) {
      WaitingIsEndless(items);
      forall x | x in items && !Finished(x)
        ensures LeadsToCycle(WaitingEdges(items), x.id)
      {
        assert !IsReadyUnfinished(x, CompletedIds(items));
        UnreadyHasEdge(items, x);
        EndlessLeadsToCycle(WaitingEdges(items), x.id);
      }
    } else {
      var x :| x in items && IsReadyUnfinished(x, CompletedIds(items));
      ReadyHasNoEdge(items, x);
      SinkIsFree(WaitingEdges(items), x.id);
    }
  }

  // ---------------------------------------------------------------------------
  // Progress
  // ---------------------------------------------------------------------------

  predicate IsEmptyFrontierReplan(d: Decision) {
    d.Replan? && d.trigger == FRONTIER_EMPTY_NONTERMINAL
  }

  /** Work on an item, a replan for lack of progress, or a stop that waits for someone. */
  predicate WorksOrWaits(d: Decision, items: seq<WorkItem>) {
    || (d.Run? && d.mode.Work? && d.workItemId.Some? && d.workItemId.value in Ids(items))
    || (d.Replan? && exists x :: x in items && d.trigger == NoProgressTrigger(x.id))
    || (d.Stop? && (d.reason.UserActionNeeded? || d.reason.ExternalWait?))
  }

  lemma NoProgressIsNotEmpty(id: Id)
    ensures NoProgressTrigger(id) != FRONTIER_EMPTY_NONTERMINAL
  {
    assert NoProgressTrigger(id)[0] == 'n';
    assert FRONTIER_EMPTY_NONTERMINAL[0] == 'f';
  }

  lemma SelectedDecision(goal: Goal, unavailable: set<Id>)
    requires FreeToRun(goal) && SelectedIndex(goal.workItems, unavailable).Some?
    ensures WorksOrWaits(Decide(Some(goal), unavailable), goal.workItems)
    ensures !IsEmptyFrontierReplan(Decide(Some(goal), unavailable))
  {
    var x := goal.workItems[SelectedIndex(goal.workItems, unavailable).value];
    assert x in goal.workItems;
    NoProgressIsNotEmpty(x.id);
  }

  /** A ready item is a waiting gate, is held elsewhere, is fenced off by a waiting gate, or can be selected. */
  lemma ReadyItemDecides(goal: Goal, unavailable: set<Id>, k: nat)
    requires FreeToRun(goal) && PlainFrontier(goal.workItems)
    requires k < |goal.workItems| && IsReadyUnfinished(goal.workItems[k], CompletedIds(goal.workItems))
    ensures WorksOrWaits(Decide(Some(goal), unavailable), goal.workItems)
    ensures !IsEmptyFrontierReplan(Decide(Some(goal), unavailable))
  {
    var items := goal.workItems;
    var completed := CompletedIds(items);
    if SelectedIndex(items, unavailable).Some? {
      SelectedDecision(goal, unavailable);
    } else {
      assert items[k] in items && !items[k].status.Deferred?;
      assert !IsCandidate(items[k], completed, unavailable, GateBlocked(items));
      assert items[k].role.User? ==> IsReadyGate(items[k], completed);
      assert GateIndex(items) == |items| ==> IsRunnable(items[k], completed) && items[k].id in unavailable;
    }
  }

  /** An unready frontier without deferred items asks for a new plan. */
  lemma UnreadyFrontierReplans(goal: Goal, unavailable: set<Id>)
    requires FreeToRun(goal) && PlainFrontier(goal.workItems) && !HasReadyItem(goal.workItems)
    ensures Decide(Some(goal), unavailable) == ReplanFor(goal, FRONTIER_EMPTY_NONTERMINAL)
  {
    var items := goal.workItems;
    var completed := CompletedIds(items);
    forall k | 0 <= k < |items|
      ensures !IsReadyGate(items[k], completed) && !IsRunnable(items[k], completed) && !items[k].status.Deferred?
    {
      assert items[k] in items;
      assert !IsReadyUnfinished(items[k], completed);
    }
    assert SelectedIndex(items, unavailable).None?;
    assert !FrontierClosed(items);
  }

  /** The frontier counts as empty exactly when every unfinished item waits on a dependency cycle. */
  lemma EmptyFrontierIffCycles(goal: Goal, unavailable: set<Id>)
    requires FreeToRun(goal) && PlainFrontier(goal.workItems) && DistinctIds(goal.workItems)
    ensures IsEmptyFrontierReplan(Decide(Some(goal), unavailable)) <==>
      forall x :: x in goal.workItems && !Finished(x) ==> LeadsToCycle(WaitingEdges(goal.workItems), x.id)
  {
    var items := goal.workItems;
    NothingReadyIffCycles(items);
    if HasReadyItem(items) {
      var x :| x in items && IsReadyUnfinished(x, CompletedIds(items));
      var k :| 0 <= k < |items| && items[k] == x;
      ReadyItemDecides(goal, unavailable, k);
    } else {
      UnreadyFrontierReplans(goal, unavailable);
    }
  }

  lemma {:induction false} FewerEdgesWalk(g: Graph, h: Graph, a: Node, b: Node, n: nat)
    requires g <= h && Walk(g, a, b, n)
    ensures Walk(h, a, b, n)
    decreases n
  {
    if n > 0 {
      var c :| (a, c) in g && Walk(g, c, b, n - 1);
      FewerEdgesWalk(g, h, c, b, n - 1);
      assert (a, c) in h;
    }
  }

  /** An acyclic frontier with unfinished items always works or waits. */
  lemma DagProgress(goal: Goal, unavailable: set<Id>)
    requires FreeToRun(goal) && PlainFrontier(goal.workItems) && DistinctIds(goal.workItems)
    requires Acyclic(Edges(goal.workItems))
    ensures WorksOrWaits(Decide(Some(goal), unavailable), goal.workItems)
    ensures !IsEmptyFrontierReplan(Decide(Some(goal), unavailable))
  {
    var items := goal.workItems;
    var x :| x in items && !Finished(x);
    if LeadsToCycle(WaitingEdges(items), x.id) {
      var c :| Reaches(WaitingEdges(items), c, c);
      var n: nat :| n > 0 && Walk(WaitingEdges(items), c, c, n);
      FewerEdgesWalk(WaitingEdges(items), Edges(items), c, c, n);
      assert Reaches(Edges(items), c, c);
      assert false;
    }
    NothingReadyIffCycles(items);
    var y :| y in items && IsReadyUnfinished(y, CompletedIds(items));
    var k :| 0 <= k < |items| && items[k] == y;
    ReadyItemDecides(goal, unavailable, k);
  }

  function BarePlanItem(id: Id, dependsOn: Id): PlanItemInput {
    PlanItemInput(Some(id), None, None, None, None, "work", [dependsOn], None, None, [], [])
  }

  /**
   * A planned item whose dependencies are completed can be worked on or waited
   * for, except a user item with a class of its own that is not a gate; that
   * one is left to no one.
   */
  lemma PlannedItemIsActionableIff(input: PlanItemInput, index: nat, retained: nat, at: Time, completed: set<Id>)
    requires Ready(PlannedItem(input, index, retained, at), completed)
    ensures var item := PlannedItem(input, index, retained, at);
            && (IsRunnable(item, completed) <==> input.role != Some(User))
            && (IsReadyGate(item, completed) <==>
                input.role == Some(User) && (input.taskClass.None? || input.taskClass.value.UserGate?))
  {
    hide UniqueStrings, Trim, IsBlank, PlannedId, Ready;
  }

  /** Without explicit priorities the first planned item comes before the others, however they are timed. */
  lemma FirstPlannedPrecedes(first: PlanItemInput, other: PlanItemInput, index: nat, retained: nat, at: Time)
    requires first.priority.None? && other.priority.None? && index > 0
    ensures Precedes(PlannedItem(first, 0, retained, at), PlannedItem(other, index, retained, at))
  {
    hide UniqueStrings, Trim, IsBlank, PlannedId;
  }

  /** An id as the planner stores it. */
  predicate IsCleanId(id: Id) {
    id != "" && Trim(id) == id
  }

  predicate IsBareAgentItem(item: WorkItem, id: Id, dependsOn: Id) {
    item.id == id && item.dependsOn == [dependsOn] && item.status.Open? && item.role.Agent?
  }

  lemma BarePlanItemIs(id: Id, dependsOn: Id, index: nat, at: Time)
    requires IsCleanId(id) && IsCleanId(dependsOn)
    ensures IsBareAgentItem(PlannedItem(BarePlanItem(id, dependsOn), index, 0, at), id, dependsOn)
    ensures PlannedId(BarePlanItem(id, dependsOn), index, 0) == id
  {
    assert UniqueStrings([dependsOn][..0]) == [];
  }

  /** What makes the planner accept one more input. */
  lemma PlanPrefixStep(inputs: seq<PlanItemInput>, retained: seq<WorkItem>, at: Time, k: nat, init: seq<WorkItem>)
    requires k < |inputs| && PlanPrefix(inputs, retained, at, k) == Some(init)
    requires !IsBlank(inputs[k].text)
    requires forall x :: x in retained + init ==> x.id != PlannedId(inputs[k], k, |retained|)
    ensures PlanPrefix(inputs, retained, at, k + 1) == Some(init + [PlannedItem(inputs[k], k, |retained|, at)])
  {
  }

  lemma CyclicPlanIsAccepted(x: Id, y: Id, at: Time) returns (a: WorkItem, b: WorkItem)
    requires IsCleanId(x) && IsCleanId(y) && x != y
    ensures NormalizePlan([BarePlanItem(x, y), BarePlanItem(y, x)], [], at) == Some([a, b])
    ensures IsBareAgentItem(a, x, y) && IsBareAgentItem(b, y, x)
  {
    hide PlannedItem, PlannedId, BarePlanItem, PlanPrefix;
    var inputs := [BarePlanItem(x, y), BarePlanItem(y, x)];
    a := PlannedItem(inputs[0], 0, 0, at);
    b := PlannedItem(inputs[1], 1, 0, at);
    BarePlanItemIs(x, y, 0, at);
    BarePlanItemIs(y, x, 1, at);
    TwoItemsPlanned(x, y, at, a, b);
    assert a in [a, b] && b in [a, b] && [] + [a, b] == [a, b];
  }

  lemma TwoItemsPlanned(x: Id, y: Id, at: Time, a: WorkItem, b: WorkItem)
    requires a == PlannedItem(BarePlanItem(x, y), 0, 0, at) && a.id == x == PlannedId(BarePlanItem(x, y), 0, 0)
    requires b == PlannedItem(BarePlanItem(y, x), 1, 0, at) && b.id == y == PlannedId(BarePlanItem(y, x), 1, 0)
    requires x != y
    ensures PlanPrefix([BarePlanItem(x, y), BarePlanItem(y, x)], [], at, 2) == Some([a, b])
  {
    hide PlannedItem, PlannedId;
    var inputs := [BarePlanItem(x, y), BarePlanItem(y, x)];
    assert Trim("work") == "work";
    PlanPrefixStep(inputs, [], at, 0, []);
    assert [] + [a] == [a];
    PlanPrefixStep(inputs, [], at, 1, [a]);
    assert [a] + [b] == [a, b];
  }

  lemma TwoCycleHasNothingToRun(goal: Goal, a: WorkItem, b: WorkItem)
    requires FreeToRun(goal) && goal.workItems == [a, b] && a.id != b.id
    requires IsBareAgentItem(a, a.id, b.id) && IsBareAgentItem(b, b.id, a.id)
    ensures Decide(Some(goal), {}) == ReplanFor(goal, FRONTIER_EMPTY_NONTERMINAL)
  {
    assert a in goal.workItems && b in goal.workItems;
    assert CompletedIds(goal.workItems) == {};
    assert b.id in a.dependsOn && a.id in b.dependsOn;
    assert Ids(goal.workItems) == {a.id, b.id};
    UnreadyFrontierReplans(goal, {});
  }

  /** `plan` accepts a cycle, and the planned goal then has nothing to run. */
  lemma PlannedCycleHasNothingToRun(goal: Goal, x: Id, y: Id, at: Time)
    requires FreeToRun(goal)
    requires IsCleanId(x) && IsCleanId(y) && x != y
    ensures var step := Plan(Some(goal), PlanInput([BarePlanItem(x, y), BarePlanItem(y, x)], true, None, None), at);
      step.result.Accepted? && Decide(step.next, {}) == ReplanFor(step.result.goal, FRONTIER_EMPTY_NONTERMINAL)
  {
    hide Decide, NormalizePlan;
    var a, b := CyclicPlanIsAccepted(x, y, at);
    var step := Plan(Some(goal), PlanInput([BarePlanItem(x, y), BarePlanItem(y, x)], true, None, None), at);
    assert step.next.value.workItems == [a, b];
    TwoCycleHasNothingToRun(step.next.value, a, b);
  }
}
