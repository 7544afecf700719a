/**
 * A waiting user gate stops exactly the work that depends on it, and the
 * turn selector and the claim selector pick the same item.
 */
module GateIsolation {
  import opened Text
  import opened GoalTypes
  import opened Digraph
  import opened GoalController
  import opened GoalFrontier
  import opened GoalTables

  /** Nothing that a turn selects depends on the waiting gate. */
  lemma SelectionAvoidsGate(items: seq<WorkItem>, unavailable: set<Id>)
    requires DistinctIds(items) && GateIndex(items) < |items| && SelectedIndex(items, unavailable).Some?
    ensures var x := items[SelectedIndex(items, unavailable).value]; var gate := items[GateIndex(items)];
      x.id != gate.id && !Reaches(Edges(items), x.id, gate.id)
  {
    var i := SelectedIndex(items, unavailable).value;
    assert items[i] in items;
    assert i != GateIndex(items);
  }

  predicate IsUnrelatedWork(items: seq<WorkItem>, unavailable: set<Id>, x: WorkItem) {
    x in items && IsRunnable(x, CompletedIds(items)) && x.id !in unavailable
  }

  /** While a gate waits, a runnable item that does not depend on it keeps the goal running. */
  lemma UnrelatedWorkContinues(goal: Goal, unavailable: set<Id>, x: WorkItem)
    requires FreeToRun(goal) && IsUnrelatedWork(goal.workItems, unavailable, x)
    requires GateIndex(goal.workItems) < |goal.workItems| ==>
      !Reaches(Edges(goal.workItems), x.id, goal.workItems[GateIndex(goal.workItems)].id)
    ensures !Decide(Some(goal), unavailable).Stop?
  {
    var items := goal.workItems;
    var i :| 0 <= i < |items| && items[i] == x;
    assert x.id !in GateBlocked(items);
    assert IsCandidate(items[i], CompletedIds(items), unavailable, GateBlocked(items));
  }

  /** The goal waits for the user exactly when a gate waits and all other runnable work depends on it or is held. */
  lemma WaitsForUserIff(goal: Goal, unavailable: set<Id>)
    requires FreeToRun(goal) && DistinctIds(goal.workItems)
    ensures (Decide(Some(goal), unavailable).Stop? && Decide(Some(goal), unavailable).reason.UserActionNeeded?)
      <==> GateIndex(goal.workItems) < |goal.workItems|
           && forall x :: IsUnrelatedWork(goal.workItems, unavailable, x) ==>
                Reaches(Edges(goal.workItems), x.id, goal.workItems[GateIndex(goal.workItems)].id)
  {
    var items := goal.workItems;
    var g := GateIndex(items);
    if g < |items| {
      if SelectedIndex(items, unavailable).Some? {
        SelectionAvoidsGate(items, unavailable);
        var x := items[SelectedIndex(items, unavailable).value];
        assert IsUnrelatedWork(items, unavailable, x);
      } else {
        forall x | IsUnrelatedWork(items, unavailable, x)
          ensures Reaches(Edges(items), x.id, items[g].id)
        {
          var i :| 0 <= i < |items| && items[i] == x;
          assert !IsCandidate(items[i], CompletedIds(items), unavailable, GateBlocked(items));
        }
      }
    }
  }

  // ---------------------------------------------------------------------------
  // The two selectors agree
  // ---------------------------------------------------------------------------

  /** Whatever is done had its dependencies done. */
  predicate CompletionClosed(items: seq<WorkItem>) {
    forall x :: x in items && Finished(x) ==> Ready(x, CompletedIds(items))
  }

  lemma CompletedEdgesStayCompleted(items: seq<WorkItem>)
    requires CompletionClosed(items) && DistinctIds(items)
    ensures forall e :: e in Edges(items) && e.0 in CompletedIds(items) ==> e.1 in CompletedIds(items)
  {
    forall e | e in Edges(items) && e.0 in CompletedIds(items)
      ensures e.1 in CompletedIds(items)
    {
      var x :| x in items && x.id == e.0 && e.1 in x.dependsOn;
      var y :| y in items && Finished(y) && y.id == e.0;
      assert x == y;
    }
  }

  /** Whatever a ready item depends on, however indirectly, is completed. */
  lemma ReadyReachesCompleted(items: seq<WorkItem>, x: WorkItem, b: Id)
    requires CompletionClosed(items) && DistinctIds(items)
    requires x in items && Ready(x, CompletedIds(items)) && Reaches(Edges(items), x.id, b)
    ensures b in CompletedIds(items)
  {
    var n: nat :| n > 0 && Walk(Edges(items), x.id, b, n);
    var c :| (x.id, c) in Edges(items) && Walk(Edges(items), c, b, n - 1);
    var y :| y in items && y.id == x.id && c in y.dependsOn;
    assert y == x;
    CompletedEdgesStayCompleted(items);
    WalkInClosedSet(Edges(items), CompletedIds(items), c, b, n - 1);
  }

  lemma UnfinishedIsNotCompleted(items: seq<WorkItem>, i: nat)
    requires DistinctIds(items) && i < |items| && !Finished(items[i])
    ensures items[i].id !in CompletedIds(items)
  {
  }

  /** A ready item cannot depend on an unfinished gate. */
  lemma ReadyItemsAreUnfenced(items: seq<WorkItem>, i: nat)
    requires CompletionClosed(items) && DistinctIds(items)
    requires i < |items| && Ready(items[i], CompletedIds(items))
    ensures items[i].id !in GateBlocked(items)
  {
    hide CompletionClosed, DistinctIds;
    var g := GateIndex(items);
    if g < |items| {
      UnfinishedIsNotCompleted(items, g);
      if Reaches(Edges(items), items[i].id, items[g].id) {
        ReadyReachesCompleted(items, items[i], items[g].id);
      }
    }
  }

  /** An agent that no item excludes and whose scopes cover every scoped item. */
  predicate Unrestricted(items: seq<WorkItem>, agentId: Id, scopes: seq<string>) {
    forall x :: x in items ==> agentId !in x.excludedAgentIds && (x.roleScopes == [] || SharesScope(x, scopes))
  }

  /** No item that could run depends on the waiting gate. */
  ghost predicate NothingRunnableIsFenced(items: seq<WorkItem>) {
    forall x :: x in items && IsRunnable(x, CompletedIds(items)) ==> x.id !in GateBlocked(items)
  }

  /** Two selections by the same condition are the same. */
  lemma SameConditionSameBest(items: seq<WorkItem>, p: WorkItem -> bool, q: WorkItem -> bool)
    requires forall j :: 0 <= j < |items| ==> p(items[j]) == q(items[j])
    ensures BestIndex(items, p, |items|) == BestIndex(items, q, |items|)
  {
    var a, b := BestIndex(items, p, |items|), BestIndex(items, q, |items|);
    if a.Some? {
      assert q(items[a.value]) && IsBest(items, q, |items|, a.value);
      BestIsUnique(items, q, a.value, b.value);
    } else {
      assert forall j :: 0 <= j < |items| ==> !q(items[j]);
    }
  }

  /** With live claims unavailable, `claimNextWork` claims the item that a turn would advance. */
  lemma UnfencedSelectorsAgree(items: seq<WorkItem>, live: set<Id>, agentId: Id, scopes: seq<string>)
    requires NothingRunnableIsFenced(items) && Unrestricted(items, agentId, scopes)
    ensures NextClaimIndex(items, live, agentId, scopes) == SelectedIndex(items, live)
  {
    var completed, fenced := CompletedIds(items), GateBlocked(items);
    var p := x => MayClaimNext(x, completed, live, agentId, scopes);
    var q := x => IsCandidate(x, completed, live, fenced);
    forall j | 0 <= j < |items|
      ensures p(items[j]) == q(items[j])
    {
      assert items[j] in items;
    }
    SameConditionSameBest(items, p, q);
  }

  /** When everything else is claimed, a fenced item can still be claimed and is never selected. */
  lemma FencedSelectorsDiffer(items: seq<WorkItem>, j: nat, agentId: Id, scopes: seq<string>)
    requires Unrestricted(items, agentId, scopes)
    requires j < |items| && IsRunnable(items[j], CompletedIds(items)) && items[j].id in GateBlocked(items)
    ensures NextClaimIndex(items, Ids(items) - {items[j].id}, agentId, scopes).Some?
    ensures SelectedIndex(items, Ids(items) - {items[j].id}).None?
  {
    hide GateBlocked;
    var live := Ids(items) - {items[j].id};
    assert items[j] in items;
    var p := x => MayClaimNext(x, CompletedIds(items), live, agentId, scopes);
    assert p(items[j]);
    assert BestIndex(items, p, |items|).Some?;
    forall i | 0 <= i < |items|
      ensures !IsCandidate(items[i], CompletedIds(items), live, GateBlocked(items))
    {
      assert items[i].id in Ids(items);
    }
  }

  /**
   * For an unrestricted agent the two selectors agree, whatever is claimed, exactly
   * when nothing runnable depends on the waiting gate.
   */
  lemma SelectorsAgreeIff(items: seq<WorkItem>, agentId: Id, scopes: seq<string>)
    requires Unrestricted(items, agentId, scopes)
    ensures (forall live: set<Id> :: NextClaimIndex(items, live, agentId, scopes) == SelectedIndex(items, live))
       <==> NothingRunnableIsFenced(items)
  {
    hide GateBlocked, NextClaimIndex, SelectedIndex, Unrestricted, IsRunnable;
    if NothingRunnableIsFenced(items) {
      forall live: set<Id>
        ensures NextClaimIndex(items, live, agentId, scopes) == SelectedIndex(items, live)
      {
        UnfencedSelectorsAgree(items, live, agentId, scopes);
      }
    } else {
      var x :| x in items && IsRunnable(x, CompletedIds(items)) && x.id in GateBlocked(items);
      var j :| 0 <= j < |items| && items[j] == x;
      FencedSelectorsDiffer(items, j, agentId, scopes);
      var live := Ids(items) - {items[j].id};
      assert NextClaimIndex(items, live, agentId, scopes) != SelectedIndex(items, live);
    }
  }

  /** Completion that is closed under dependencies is enough for that. */
  lemma ClosedCompletionFencesNothing(items: seq<WorkItem>)
    requires CompletionClosed(items) && DistinctIds(items)
    ensures NothingRunnableIsFenced(items)
  {
    forall x | x in items && IsRunnable(x, CompletedIds(items))
      ensures x.id !in GateBlocked(items)
    {
      var i :| 0 <= i < |items| && items[i] == x;
      ReadyItemsAreUnfenced(items, i);
    }
  }

  lemma SelectorsAgree(items: seq<WorkItem>, live: set<Id>, agentId: Id, scopes: seq<string>)
    requires CompletionClosed(items) && DistinctIds(items) && Unrestricted(items, agentId, scopes)
    ensures NextClaimIndex(items, live, agentId, scopes) == SelectedIndex(items, live)
  {
    ClosedCompletionFencesNothing(items);
    UnfencedSelectorsAgree(items, live, agentId, scopes);
  }

  lemma TriggerNamesItem(a: Id, b: Id)
    ensures NoProgressTrigger(a) == NoProgressTrigger(b) ==> a == b
    ensures NoProgressTrigger(a) != TERMINAL_NO_FOLLOWUP_MISSING && NoProgressTrigger(a) != FRONTIER_EMPTY_NONTERMINAL
  {
    var n := |"no_progress:"|;
    assert NoProgressTrigger(a)[n..] == a && NoProgressTrigger(b)[n..] == b;
    assert NoProgressTrigger(a)[0] == 'n';
  }

  /**
   * So a claim is issued exactly for the item that the next turn works on, or whose
   * lack of progress it replans for.
   */
  lemma ClaimMatchesDecision(t: Tables, goalId: Id, agentId: Id, scopes: seq<string>, leaseMs: Option<nat>, now: Time,
                             goal: Goal, id: Id)
    requires ReadSnapshot(t.goals, goalId) == Some(goal) && FreeToRun(goal)
    requires NothingRunnableIsFenced(goal.workItems) && Unrestricted(goal.workItems, agentId, UniqueStrings(scopes))
    ensures var decision := Decide(Some(goal), LiveItems(t.claims, goalId, now));
      var claim := ClaimNext(t, goalId, agentId, scopes, leaseMs, now).claim;
      (claim.Some? && claim.value.workItemId == id) <==>
          decision in {Run(Work, Some(id)), ReplanFor(goal, NoProgressTrigger(id))}
  {
    hide NextClaimIndex, SelectedIndex, NoProgressTrigger, Unrestricted, NothingRunnableIsFenced, FindIndex,
         FrontierClosed;
    UnfencedSelectorsAgree(goal.workItems, LiveItems(t.claims, goalId, now), agentId, UniqueStrings(scopes));
    TriggerNamesItem(id, id);
    var best := SelectedIndex(goal.workItems, LiveItems(t.claims, goalId, now));
    if best.Some? {
      TriggerNamesItem(id, goal.workItems[best.value].id);
    }
  }

  predicate CancelledBehindGate(gate: WorkItem, middle: WorkItem, last: WorkItem) {
    && gate.id != middle.id && gate.id != last.id && middle.id != last.id
    && gate.role.User? && gate.taskClass.UserGate? && gate.status.Open? && gate.dependsOn == []
    && middle.role.Agent? && middle.status.Cancelled? && middle.dependsOn == [gate.id]
    && last.role.Agent? && last.status.Open? && last.dependsOn == [middle.id]
    && last.roleScopes == [] && last.excludedAgentIds == []
  }

  lemma LastIsFenced(gate: WorkItem, middle: WorkItem, last: WorkItem)
    requires CancelledBehindGate(gate, middle, last)
    ensures CompletedIds([gate, middle, last]) == {middle.id}
    ensures GateIndex([gate, middle, last]) == 0 && last.id in GateBlocked([gate, middle, last])
  {
    var items := [gate, middle, last];
    assert middle in items && last in items && gate in items;
    assert middle.id in last.dependsOn && gate.id in middle.dependsOn;
    assert (last.id, middle.id) in Edges(items) && (middle.id, gate.id) in Edges(items);
    EdgeReaches(Edges(items), last.id, middle.id);
    EdgeReaches(Edges(items), middle.id, gate.id);
    ReachesIsTransitive(Edges(items), last.id, middle.id, gate.id);
  }

  /**
   * The two can differ: work that depends on a cancelled item whose own gate
   * still waits can be claimed, while a turn waits for the user.
   */
  lemma WorkBehindCancelledItemDiffers(gate: WorkItem, middle: WorkItem, last: WorkItem, agentId: Id)
    requires CancelledBehindGate(gate, middle, last)
    ensures NextClaimIndex([gate, middle, last], {}, agentId, []) == Some(2)
    ensures SelectedIndex([gate, middle, last], {}) == None
  {
    hide GateBlocked, GateIndex;
    var items := [gate, middle, last];
    LastIsFenced(gate, middle, last);
    assert MayClaimNext(items[2], CompletedIds(items), {}, agentId, []);
    var p := x => MayClaimNext(x, CompletedIds(items), {}, agentId, []);
    assert IsBest(items, p, 3, 2);
    BestIsUnique(items, p, 2, BestIndex(items, p, 3).value);
  }
}
