/**
 * Which turn a goal runs next, and how a finished run is settled.
 * The loops of the original are methods proved against the specification
 * functions that the lemmas of the other modules reason about.
 */
module GoalController {
  import opened Text
  import opened GoalTypes
  import opened Digraph

  datatype RunMode = Work | Finalize

  datatype StopReason =
    | GoalNotActive(status: GoalStatus)
    | BudgetExhausted
    | UserActionNeeded
    | ExternalWait

  datatype Decision =
    | Run(mode: RunMode, workItemId: Option<Id>)
    | Replan(trigger: string, fingerprint: string, planRevision: nat)
    | Stop(reason: StopReason, itemId: Option<Id>)

  // ---------------------------------------------------------------------------
  // Searching the frontier
  // ---------------------------------------------------------------------------

  /** Index of the first item satisfying `p`, or the length if there is none. */
  function FindIndex(items: seq<WorkItem>, p: WorkItem -> bool): (i: nat)
    ensures i <= |items|
    ensures i < |items| ==> p(items[i])
    ensures forall j :: 0 <= j < i ==> !p(items[j])
  {
    if items == [] then 0
    else if p(items[0]) then 0
    else
      var k := FindIndex(items[1..], p);
      assert forall j :: 1 <= j < k + 1 ==> items[j] == items[1..][j - 1];
      k + 1
  }

  function Rank(p: Priority): nat {
    match p case P0 => 0 case P1 => 1 case P2 => 2
  }

  /** `a` strictly precedes `b`: higher priority, then earlier creation. */
  predicate Precedes(a: WorkItem, b: WorkItem) {
    Rank(a.priority) < Rank(b.priority) || (a.priority == b.priority && a.createdAt < b.createdAt)
  }

  /** `i` is the index that a stable sort of the items satisfying `p` puts first. */
  ghost predicate IsBest(items: seq<WorkItem>, p: WorkItem -> bool, n: nat, i: nat)
    requires n <= |items|
  {
    && i < n
    && p(items[i])
    && (forall j :: 0 <= j < n && p(items[j]) ==> !Precedes(items[j], items[i]))
    && (forall j :: 0 <= j < i && p(items[j]) ==> Precedes(items[i], items[j]))
  }

  /** Head of the stably sorted candidates among the first `n` items. */
  function BestIndex(items: seq<WorkItem>, p: WorkItem -> bool, n: nat): (b: Option<nat>)
    requires n <= |items|
    ensures b.None? <==> forall j :: 0 <= j < n ==> !p(items[j])
    ensures b.Some? ==> IsBest(items, p, n, b.value)
  {
    if n == 0 then None
    else
      var b := BestIndex(items, p, n - 1);
      if !p(items[n - 1]) then b
      else if b.None? || Precedes(items[n - 1], items[b.value]) then Some(n - 1)
      else b
  }

  lemma BestIsUnique(items: seq<WorkItem>, p: WorkItem -> bool, i: nat, k: nat)
    requires IsBest(items, p, |items|, i) && IsBest(items, p, |items|, k)
    ensures i == k
  {
    assert p(items[i]) && p(items[k]);
  }

  // ---------------------------------------------------------------------------
  // Transitive dependents of a gate
  // ---------------------------------------------------------------------------

  /** An edge from every item to each of its dependencies. */
  function Edges(items: seq<WorkItem>): Graph {
    set x, d | x in items && d in x.dependsOn :: (x.id, d)
  }

  function Ids(items: seq<WorkItem>): set<Id> {
    set x | x in items :: x.id
  }

  /** Everything that depends on `root`, directly or not; never `root` itself. */
  ghost function Dependents(items: seq<WorkItem>, root: Id): set<Id> {
    set a | a in Ids(items) && a != root && Reaches(Edges(items), a, root)
  }

  lemma ExtendDependence(items: seq<WorkItem>, root: Id, item: WorkItem, d: Id)
    requires item in items && d in item.dependsOn
    requires d == root || Reaches(Edges(items), d, root)
    ensures Reaches(Edges(items), item.id, root)
  {
    assert (item.id, d) in Edges(items);
    EdgeReaches(Edges(items), item.id, d);
    if d != root {
      ReachesIsTransitive(Edges(items), item.id, d, root);
    }
  }

  /** The fixed-point loop computes exactly the transitive dependents, cycles included. */
  method DependentWorkItemIds(items: seq<WorkItem>, root: Id) returns (result: set<Id>)
    ensures result == Dependents(items, root)
  {
    var blocked := {root};
    var grew := true;
    while grew
      invariant root in blocked
      invariant blocked <= {root} + Dependents(items, root)
      invariant !grew ==> forall i :: 0 <= i < |items| && (exists d :: d in items[i].dependsOn && d in blocked)
                                      ==> items[i].id in blocked
      decreases Ids(items) + {root} - blocked, grew
    {
      grew := false;
      ghost var before := blocked;
      for k := 0 to |items|
        invariant root in blocked && before <= blocked
        invariant blocked <= {root} + Dependents(items, root)
        invariant grew ==> before < blocked
        invariant !grew ==> before == blocked
        invariant !grew ==> forall i :: 0 <= i < k && (exists d :: d in items[i].dependsOn && d in blocked)
                                        ==> items[i].id in blocked
      {
        var item := items[k];
        if item.id in blocked {
          continue;
        }
        if exists d :: d in item.dependsOn && d in blocked {
          var d :| d in item.dependsOn && d in blocked;
          ExtendDependence(items, root, item, d);
          blocked := blocked + {item.id};
          grew := true;
        }
      }
    }
    result := blocked - {root};
    forall a | a in Dependents(items, root)
      ensures a in result
    {
      var n: nat :| n > 0 && Walk(Edges(items), a, root, n);
      WalkIntoClosedSet(Edges(items), blocked, a, root, n);
    }
  }

  // ---------------------------------------------------------------------------
  // Deciding
  // ---------------------------------------------------------------------------

  predicate IsBarren(r: Receipt, itemId: Id) {
    r.workItemId == Some(itemId) && r.outcome.NoChange?
  }

  /** Length of the trailing run of no-change receipts of one item. */
  function TrailingNoChange(receipts: seq<Receipt>, itemId: Id): (n: nat)
    ensures n <= |receipts|
  {
    if receipts == [] || !IsBarren(receipts[|receipts| - 1], itemId) then 0
    else 1 + TrailingNoChange(receipts[..|receipts| - 1], itemId)
  }

  method CountTrailingNoChange(receipts: seq<Receipt>, itemId: Id) returns (count: nat)
    ensures count == TrailingNoChange(receipts, itemId)
  {
    count := 0;
    var index := |receipts| - 1;
    assert receipts[..|receipts|] == receipts;
    while index >= 0
      invariant -1 <= index < |receipts|
      invariant count + TrailingNoChange(receipts[..index + 1], itemId) == TrailingNoChange(receipts, itemId)
    {
      var receipt := receipts[index];
      assert receipts[..index + 1][..index] == receipts[..index];
      if !IsBarren(receipt, itemId) {
        break;
      }
      count := count + 1;
      index := index - 1;
    }
  }

  /** A truncated receipt log gives the same count, up to its length. */
  lemma {:induction false} TrailingNoChangeOfTail(receipts: seq<Receipt>, n: nat, itemId: Id)
    ensures TrailingNoChange(LastN(receipts, n), itemId) == Min(n, TrailingNoChange(receipts, itemId))
    decreases n, |receipts|
  {
    if |receipts| > n > 0 {
      var kept := LastN(receipts, n);
      assert kept[n - 1] == receipts[|receipts| - 1];
      if IsBarren(receipts[|receipts| - 1], itemId) {
        assert kept[..n - 1] == LastN(receipts[..|receipts| - 1], n - 1);
        TrailingNoChangeOfTail(receipts[..|receipts| - 1], n - 1, itemId);
      }
    } else if n == 0 {
      assert LastN(receipts, 0) == [];
    }
  }

  predicate Spent(limit: Option<nat>, used: nat) {
    limit.Some? && used >= limit.value
  }

  predicate IsBudgetExhausted(goal: Goal) {
    goal.budget.Some? &&
    var b := goal.budget.value;
    || Spent(b.maxTurns, goal.consumption.turns)
    || Spent(b.maxToolIterations, goal.consumption.toolIterations)
    || Spent(b.maxTokens, goal.consumption.tokens)
    || Spent(b.maxValidatedTurns, goal.delivery.validatedTurns)
  }

  function ReplanFor(goal: Goal, trigger: string): Decision {
    Replan(trigger, Fingerprint(goal.workItems), goal.planRevision)
  }

  function NoProgressTrigger(itemId: Id): string {
    "no_progress:" + itemId
  }

  const TERMINAL_NO_FOLLOWUP_MISSING := "terminal_no_followup_missing"
  const FRONTIER_EMPTY_NONTERMINAL := "frontier_empty_nonterminal"

  predicate IsReadyGate(item: WorkItem, completed: set<Id>) {
    item.role.User? && item.taskClass.UserGate? && !Finished(item) && Ready(item, completed)
  }

  /** An agent item whose dependencies are done, whoever holds it. */
  predicate IsRunnable(item: WorkItem, completed: set<Id>) {
    item.role.Agent? && HasRunnableStatus(item) && Ready(item, completed)
  }

  predicate IsCandidate(item: WorkItem, completed: set<Id>, unavailable: set<Id>, gateBlocked: set<Id>) {
    IsRunnable(item, completed) && item.id !in unavailable && item.id !in gateBlocked
  }

  function GateIndex(items: seq<WorkItem>): (i: nat)
    ensures i <= |items|
    ensures i < |items| ==> IsReadyGate(items[i], CompletedIds(items))
    ensures forall j :: 0 <= j < i ==> !IsReadyGate(items[j], CompletedIds(items))
  {
    FindIndex(items, x => IsReadyGate(x, CompletedIds(items)))
  }

  /** Items fenced off by the first ready gate. */
  ghost function GateBlocked(items: seq<WorkItem>): set<Id> {
    var g := GateIndex(items);
    if g < |items| then Dependents(items, items[g].id) else {}
  }

  /** The item that a turn would advance. */
  ghost function SelectedIndex(items: seq<WorkItem>, unavailable: set<Id>): (b: Option<nat>)
    ensures b.None? <==> forall j :: 0 <= j < |items| ==>
      !IsCandidate(items[j], CompletedIds(items), unavailable, GateBlocked(items))
    ensures b.Some? ==> b.value < |items|
    ensures b.Some? ==> IsCandidate(items[b.value], CompletedIds(items), unavailable, GateBlocked(items))
  {
    var completed, fenced := CompletedIds(items), GateBlocked(items);
    BestIndex(items, x => IsCandidate(x, completed, unavailable, fenced), |items|)
  }

  function HeldElsewhereIndex(items: seq<WorkItem>, unavailable: set<Id>): (i: nat)
    ensures i <= |items|
    ensures i < |items| ==> IsRunnable(items[i], CompletedIds(items)) && items[i].id in unavailable
    ensures forall j :: 0 <= j < i ==> !(IsRunnable(items[j], CompletedIds(items)) && items[j].id in unavailable)
  {
    FindIndex(items, x => IsRunnable(x, CompletedIds(items)) && x.id in unavailable)
  }

  function DeferredIndex(items: seq<WorkItem>): (i: nat)
    ensures i <= |items|
    ensures i < |items| ==> items[i].status.Deferred?
    ensures forall j :: 0 <= j < i ==> !items[j].status.Deferred?
  {
    FindIndex(items, (x: WorkItem) => x.status.Deferred?)
  }

  predicate FrontierClosed(items: seq<WorkItem>) {
    |items| > 0 && forall x :: x in items ==> Finished(x)
  }

  /** The outcome once no item is selectable. */
  function DecideIdle(goal: Goal, unavailable: set<Id>): Decision {
    var items := goal.workItems;
    var gate := GateIndex(items);
    var held := HeldElsewhereIndex(items, unavailable);
    var deferred := DeferredIndex(items);
    if gate < |items| then Stop(UserActionNeeded, Some(items[gate].id))
    else if unavailable != {} && held < |items| then Stop(ExternalWait, Some(items[held].id))
    else if FrontierClosed(items) then
      if HasText(goal.noFollowupReason) then Run(Finalize, None)
      else ReplanFor(goal, TERMINAL_NO_FOLLOWUP_MISSING)
    else if deferred < |items| then Stop(ExternalWait, Some(items[deferred].id))
    else ReplanFor(goal, FRONTIER_EMPTY_NONTERMINAL)
  }

  ghost function Decide(current: Option<Goal>, unavailable: set<Id>): Decision {
    if current.None? then Run(Work, None)
    else
      var goal := current.value;
      if !goal.status.Active? then Stop(GoalNotActive(goal.status), None)
      else if IsBudgetExhausted(goal) then Stop(BudgetExhausted, None)
      else if goal.forcedReplan.Some? then ReplanFor(goal, goal.forcedReplan.value.reason)
      else
        var best := SelectedIndex(goal.workItems, unavailable);
        if best.Some? then
          var id := goal.workItems[best.value].id;
          if TrailingNoChange(goal.turnReceipts, id) >= 2 then ReplanFor(goal, NoProgressTrigger(id))
          else Run(Work, Some(id))
        else DecideIdle(goal, unavailable)
  }

  method DecideGoalExecution(current: Option<Goal>, unavailable: set<Id>) returns (d: Decision)
    ensures d == Decide(current, unavailable)
  {
    if current.None? {
      return Run(Work, None);
    }
    var goal := current.value;
    if !goal.status.Active? {
      return Stop(GoalNotActive(goal.status), None);
    }
    if IsBudgetExhausted(goal) {
      return Stop(BudgetExhausted, None);
    }
    if goal.forcedReplan.Some? {
      return ReplanFor(goal, goal.forcedReplan.value.reason);
    }
    var items := goal.workItems;
    var completed := CompletedIds(items);
    var gate := GateIndex(items);
    var gateBlocked := {};
    if gate < |items| {
      gateBlocked := DependentWorkItemIds(items, items[gate].id);
    }
    var best := BestIndex(items, x => IsCandidate(x, completed, unavailable, gateBlocked), |items|);
    ghost var spec := SelectedIndex(items, unavailable);
    if best.Some? && spec.Some? {
      SameBest(items, completed, unavailable, gateBlocked, best.value);
    }
    if best.Some? {
      var id := items[best.value].id;
      var noChange := CountTrailingNoChange(goal.turnReceipts, id);
      if noChange >= 2 {
        return ReplanFor(goal, NoProgressTrigger(id));
      }
      return Run(Work, Some(id));
    }
    return DecideIdle(goal, unavailable);
  }

  ghost predicate IsSelection(items: seq<WorkItem>, unavailable: set<Id>, i: nat) {
    var completed, fenced := CompletedIds(items), GateBlocked(items);
    && i < |items|
    && IsCandidate(items[i], completed, unavailable, fenced)
    && (forall j :: 0 <= j < |items| && IsCandidate(items[j], completed, unavailable, fenced) ==>
        !Precedes(items[j], items[i]))
    && (forall j :: 0 <= j < i && IsCandidate(items[j], completed, unavailable, fenced) ==>
        Precedes(items[i], items[j]))
  }

  /** The selection is determined by its order property alone. */
  lemma SelectionIs(items: seq<WorkItem>, unavailable: set<Id>, i: nat)
    requires IsSelection(items, unavailable, i)
    ensures SelectedIndex(items, unavailable) == Some(i)
  {
    var completed, fenced := CompletedIds(items), GateBlocked(items);
    var p := x => IsCandidate(x, completed, unavailable, fenced);
    assert IsBest(items, p, |items|, i);
    var b := BestIndex(items, p, |items|);
    assert p(items[i]);
    BestIsUnique(items, p, i, b.value);
  }

  lemma SelectedIsSelection(items: seq<WorkItem>, unavailable: set<Id>)
    requires SelectedIndex(items, unavailable).Some?
    ensures IsSelection(items, unavailable, SelectedIndex(items, unavailable).value)
  {
    var completed, fenced := CompletedIds(items), GateBlocked(items);
    var p := x => IsCandidate(x, completed, unavailable, fenced);
    var b := BestIndex(items, p, |items|);
    assert IsBest(items, p, |items|, b.value);
    forall j | 0 <= j < |items| && IsCandidate(items[j], completed, unavailable, fenced)
      ensures !Precedes(items[j], items[b.value]) && (j < b.value ==> Precedes(items[b.value], items[j]))
    {
      assert p(items[j]);
    }
  }

  lemma SameBest(items: seq<WorkItem>, completed: set<Id>, unavailable: set<Id>, fenced: set<Id>, i: nat)
    requires completed == CompletedIds(items) && fenced == GateBlocked(items)
    requires IsBest(items, x => IsCandidate(x, completed, unavailable, fenced), |items|, i)
    ensures SelectedIndex(items, unavailable) == Some(i)
  {
    var p := x => IsCandidate(x, completed, unavailable, fenced);
    assert IsBest(items, p, |items|, i);
    forall j | 0 <= j < |items| && IsCandidate(items[j], completed, unavailable, fenced)
      ensures !Precedes(items[j], items[i]) && (j < i ==> Precedes(items[i], items[j]))
    {
      assert p(items[j]);
    }
    SelectionIs(items, unavailable, i);
  }

  /**
   * No candidate is more urgent than the selected item, nor as urgent and older, nor
   * as urgent, as old and earlier on the frontier.
   */
  lemma SelectedIsMostUrgent(items: seq<WorkItem>, unavailable: set<Id>, j: nat)
    requires SelectedIndex(items, unavailable).Some? && j < |items|
    requires IsCandidate(items[j], CompletedIds(items), unavailable, GateBlocked(items))
    ensures var i := SelectedIndex(items, unavailable).value;
            && (items[j].priority.P0? ==> items[i].priority.P0?)
            && (items[i].priority.P2? ==> items[j].priority.P2?)
            && (items[i].priority == items[j].priority ==> items[i].createdAt <= items[j].createdAt)
            && (items[i].priority == items[j].priority && items[i].createdAt == items[j].createdAt ==> i <= j)
  {
    SelectedIsSelection(items, unavailable);
  }
}
