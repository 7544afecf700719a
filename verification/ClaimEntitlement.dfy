/**
 * Who gets which claim, written out over the fields of the stored goal, its items
 * and the claim rows. Nothing here is defined by the claiming operations.
 */
module ClaimEntitlement {
  import opened Text
  import opened GoalTypes
  import opened GoalController
  import opened GoalService
  import opened GoalDecisions
  import opened ClaimMutations
  import opened GoalTables
  import opened ClaimLifecycle

  // ---------------------------------------------------------------------------
  // Terms
  // ---------------------------------------------------------------------------

  predicate IsActiveGoal(t: Tables, goalId: Id) {
    goalId in t.goals && !t.goals[goalId].archived && t.goals[goalId].goal.status == Active
  }

  predicate HasLiveClaim(t: Tables, goalId: Id, itemId: Id, now: Time) {
    (goalId, itemId) in t.claims && now < t.claims[(goalId, itemId)].leaseExpiresAt
  }

  /** One of the scopes an agent names, spaces around it aside, is a scope of the item. */
  predicate HasCommonScope(x: WorkItem, scopes: seq<string>) {
    exists s, k :: s in x.roleScopes && s != "" && 0 <= k < |scopes| && Trim(scopes[k]) == s
  }

  predicate NamesNothing(scopes: seq<string>) {
    forall k :: 0 <= k < |scopes| ==> Trim(scopes[k]) == ""
  }

  predicate IsOpenTo(items: seq<WorkItem>, x: WorkItem, agentId: Id, scopes: seq<string>) {
    IsAgentWork(items, x) && agentId !in x.excludedAgentIds && (x.roleScopes == [] || HasCommonScope(x, scopes))
  }

  predicate IsFreeFor(t: Tables, goalId: Id, x: WorkItem, agentId: Id, scopes: seq<string>, now: Time)
    requires goalId in t.goals
  {
    IsOpenTo(t.goals[goalId].goal.workItems, x, agentId, scopes) && !HasLiveClaim(t, goalId, x.id, now)
  }

  /** Free for the agent, none more urgent, and the first of those as urgent. */
  predicate IsNextFor(t: Tables, goalId: Id, i: nat, agentId: Id, scopes: seq<string>, now: Time)
    requires goalId in t.goals
  {
    var items := t.goals[goalId].goal.workItems;
    && i < |items| && IsFreeFor(t, goalId, items[i], agentId, scopes, now)
    && (forall j :: 0 <= j < |items| && IsFreeFor(t, goalId, items[j], agentId, scopes, now) ==>
          !IsMoreUrgent(items[j], items[i]))
    && (forall j :: 0 <= j < i && IsFreeFor(t, goalId, items[j], agentId, scopes, now) ==>
          IsMoreUrgent(items[i], items[j]))
  }

  predicate IsLeaseFrom(until: Time, now: Time, leaseMs: Option<nat>) {
    if leaseMs.None? then until == now + 900_000
    else if leaseMs.value < 1000 then until == now + 1000
    else until == now + leaseMs.value
  }

  /** A new claim row and the next token; everything else is as before. */
  predicate IsIssued(t: Tables, r: Claimed, goalId: Id, itemId: Id, agentId: Id, scopes: seq<string>,
                     leaseMs: Option<nat>, now: Time) {
    && r.claim.Some?
    && var c := r.claim.value;
       && c.goalId == goalId && c.workItemId == itemId && c.agentId == agentId && c.token == t.nextToken
       && c.roleScopes == UniqueStrings(scopes) && c.claimedAt == now && c.updatedAt == now
       && IsLeaseFrom(c.leaseExpiresAt, now, leaseMs)
       && r.tables.claims == t.claims[(goalId, itemId) := c] && r.tables.nextToken == t.nextToken + 1
       && r.tables.goals == t.goals && r.tables.handoffs == t.handoffs
  }

  lemma ScopesAre(x: WorkItem, scopes: seq<string>)
    ensures SharesScope(x, UniqueStrings(scopes)) <==> HasCommonScope(x, scopes)
    ensures UniqueStrings(scopes) == [] <==> NamesNothing(scopes)
  {
    NothingIsNamed(scopes);
    var u := UniqueStrings(scopes);
    if SharesScope(x, u) {
      var s :| s in x.roleScopes && s in u;
      var k :| 0 <= k < |scopes| && Trim(scopes[k]) == s;
    }
    if HasCommonScope(x, scopes) {
      var s, k :| s in x.roleScopes && s != "" && 0 <= k < |scopes| && Trim(scopes[k]) == s;
      assert s in u;
    }
  }

  lemma NothingIsNamed(texts: seq<string>)
    ensures UniqueStrings(texts) == [] <==> NamesNothing(texts)
  {
    var u := UniqueStrings(texts);
    if u != [] {
      assert u[0] in u;
    }
    if k :| 0 <= k < |texts| && Trim(texts[k]) != "" {
      assert Trim(texts[k]) in u;
    }
  }

  lemma OpenIs(items: seq<WorkItem>, x: WorkItem, agentId: Id, scopes: seq<string>, live: set<Id>)
    ensures MayClaimNext(x, CompletedIds(items), live, agentId, UniqueStrings(scopes)) <==>
        IsOpenTo(items, x, agentId, scopes) && x.id !in live
  {
    hide IsRunnable, IsAgentWork, UniqueStrings, SharesScope, HasCommonScope;
    TermsAgree(items, x);
    ScopesAre(x, scopes);
  }

  lemma LiveIs(t: Tables, goalId: Id, itemId: Id, now: Time)
    ensures itemId in LiveItems(t.claims, goalId, now) <==> HasLiveClaim(t, goalId, itemId, now)
  {
    LiveRowIsListed(t.claims, (goalId, itemId), now);
  }

  lemma FreeIs(t: Tables, goalId: Id, x: WorkItem, agentId: Id, scopes: seq<string>, now: Time)
    requires goalId in t.goals
    ensures var items := t.goals[goalId].goal.workItems;
      MayClaimNext(x, CompletedIds(items), LiveItems(t.claims, goalId, now), agentId, UniqueStrings(scopes)) <==>
          IsFreeFor(t, goalId, x, agentId, scopes, now)
  {
    hide MayClaimNext, IsOpenTo, HasLiveClaim, LiveItems, UniqueStrings;
    OpenIs(t.goals[goalId].goal.workItems, x, agentId, scopes, LiveItems(t.claims, goalId, now));
    LiveIs(t, goalId, x.id, now);
  }

  // ---------------------------------------------------------------------------
  // Claiming the next item
  // ---------------------------------------------------------------------------

  lemma NextIs(t: Tables, goalId: Id, agentId: Id, scopes: seq<string>, now: Time)
    requires goalId in t.goals
    ensures var items := t.goals[goalId].goal.workItems;
      var best := NextClaimIndex(items, LiveItems(t.claims, goalId, now), agentId, UniqueStrings(scopes));
      && (best.Some? ==> IsNextFor(t, goalId, best.value, agentId, scopes, now))
      && (best.None? ==> forall x :: x in items ==> !IsFreeFor(t, goalId, x, agentId, scopes, now))
  {
    hide MayClaimNext, IsFreeFor, LiveItems, UniqueStrings;
    var items := t.goals[goalId].goal.workItems;
    var live, wanted := LiveItems(t.claims, goalId, now), UniqueStrings(scopes);
    var p := (x: WorkItem) => MayClaimNext(x, CompletedIds(items), live, agentId, wanted);
    forall x
      ensures p(x) <==> IsFreeFor(t, goalId, x, agentId, scopes, now)
    {
      FreeIs(t, goalId, x, agentId, scopes, now);
    }
    var best := NextClaimIndex(items, live, agentId, wanted);
    SameNext(items, p, live, agentId, wanted);
    if best.None? {
      assert forall x :: x in items ==> exists j :: 0 <= j < |items| && items[j] == x;
    }
  }

  lemma SameNext(items: seq<WorkItem>, p: WorkItem -> bool, live: set<Id>, agentId: Id, wanted: seq<string>)
    requires forall x :: p(x) <==> MayClaimNext(x, CompletedIds(items), live, agentId, wanted)
    ensures var best := NextClaimIndex(items, live, agentId, wanted);
      && (best.None? ==> forall j :: 0 <= j < |items| ==> !p(items[j]))
      && (best.Some? ==> IsBest(items, p, |items|, best.value))
  {
    hide MayClaimNext;
    var q := (x: WorkItem) => MayClaimNext(x, CompletedIds(items), live, agentId, wanted);
    var best := BestIndex(items, q, |items|);
    assert best == NextClaimIndex(items, live, agentId, wanted);
    forall j | 0 <= j < |items|
      ensures q(items[j]) <==> p(items[j])
    {
    }
    if best.Some? {
      assert IsBest(items, q, |items|, best.value);
    }
  }

  /**
   * `claimNextWork` issues a claim exactly when the goal is active and has unclaimed
   * agent work, ready to start, that does not exclude the agent and asks for no scope or
   * for one of the agent's; the claim is for the most urgent such item.
   */
  lemma NextClaimIff(t: Tables, goalId: Id, agentId: Id, scopes: seq<string>, leaseMs: Option<nat>, now: Time)
    ensures var r := ClaimNext(t, goalId, agentId, scopes, leaseMs, now);
      && (r.claim.Some? <==>
           IsActiveGoal(t, goalId) &&
           exists x :: x in t.goals[goalId].goal.workItems && IsFreeFor(t, goalId, x, agentId, scopes, now))
      && (r.claim.None? ==> r.tables == t)
      && (r.claim.Some? ==>
           exists i: nat :: IsNextFor(t, goalId, i, agentId, scopes, now) &&
             IsIssued(t, r, goalId, t.goals[goalId].goal.workItems[i].id, agentId, scopes, leaseMs, now))
  {
    hide IsFreeFor, LiveItems, UniqueStrings, NextClaimIndex;
    if IsActiveGoal(t, goalId) {
      NextIs(t, goalId, agentId, scopes, now);
      var items := t.goals[goalId].goal.workItems;
      var best := NextClaimIndex(items, LiveItems(t.claims, goalId, now), agentId, UniqueStrings(scopes));
      if best.Some? {
        assert IsNextFor(t, goalId, best.value, agentId, scopes, now) && items[best.value] in items;
      }
    }
  }

  // ---------------------------------------------------------------------------
  // Claiming a named item
  // ---------------------------------------------------------------------------

  predicate IsFirstWithId(items: seq<WorkItem>, id: Id, i: nat) {
    i < |items| && items[i].id == id && forall j :: 0 <= j < i ==> items[j].id != id
  }

  /** Like `IsOpenTo`, except that an agent that names no scope may work on every item. */
  predicate IsOpenByName(items: seq<WorkItem>, x: WorkItem, agentId: Id, scopes: seq<string>) {
    && IsAgentWork(items, x) && agentId !in x.excludedAgentIds
    && (NamesNothing(scopes) || x.roleScopes == [] || HasCommonScope(x, scopes))
  }

  lemma NamedIs(items: seq<WorkItem>, id: Id)
    ensures forall i: nat :: IsFirstWithId(items, id, i) <==> i == IndexOfId(items, id) && i < |items|
  {
  }

  /**
   * `claimWorkItem` hands an agent its own live claim back, refuses one that another
   * holds, and otherwise issues a claim exactly when the item is there and open to the agent.
   */
  lemma NamedClaimIff(t: Tables, goalId: Id, itemId: Id, agentId: Id, scopes: seq<string>, leaseMs: Option<nat>,
                      now: Time)
    ensures var r := ClaimItem(t, goalId, itemId, agentId, scopes, leaseMs, now);
      if !IsActiveGoal(t, goalId) then r == ClaimedAs(t, None)
      else if HasLiveClaim(t, goalId, itemId, now) then
        var held := t.claims[(goalId, itemId)];
        r == ClaimedAs(t, if held.agentId == agentId then Some(held) else None)
      else
        var items := t.goals[goalId].goal.workItems;
        if exists i: nat :: IsFirstWithId(items, itemId, i) && IsOpenByName(items, items[i], agentId, scopes)
        then IsIssued(t, r, goalId, itemId, agentId, scopes, leaseMs, now)
        else r == ClaimedAs(t, None)
  {
    hide UniqueStrings, IsRunnable, IsAgentWork, SharesScope, HasCommonScope, NamesNothing, FindIndex;
    if IsActiveGoal(t, goalId) {
      var items := t.goals[goalId].goal.workItems;
      var i := IndexOfId(items, itemId);
      NamedIs(items, itemId);
      if i < |items| {
        assert IsFirstWithId(items, itemId, i);
        TermsAgree(items, items[i]);
        ScopesAre(items[i], scopes);
      }
    }
  }

  // ---------------------------------------------------------------------------
  // Handing off
  // ---------------------------------------------------------------------------

  /** The item of the claim, if it can be found, excludes the agent or asks for scopes it does not have. */
  predicate ShutsOut(t: Tables, k: ClaimKey, agentId: Id, scopes: seq<string>) {
    k.0 in t.goals && !t.goals[k.0].archived &&
    var items := t.goals[k.0].goal.workItems;
    exists i :: 0 <= i < |items| && IsFirstWithId(items, k.1, i)
      && (agentId in items[i].excludedAgentIds || (items[i].roleScopes != [] && !HasCommonScope(items[i], scopes)))
  }

  lemma ReceivingIs(t: Tables, k: ClaimKey, agentId: Id, scopes: seq<string>)
    ensures MayReceive(ReadSnapshot(t.goals, k.0), k.1, Some(agentId), UniqueStrings(scopes)) <==>
        !ShutsOut(t, k, agentId, scopes)
  {
    hide UniqueStrings, SharesScope, HasCommonScope, FindIndex;
    if k.0 in t.goals {
      var items := t.goals[k.0].goal.workItems;
      var i := IndexOfId(items, k.1);
      NamedIs(items, k.1);
      if i < |items| {
        assert IsFirstWithId(items, k.1, i);
        ScopesAre(items[i], scopes);
      }
    }
  }

  /** The log entry of a handoff. */
  predicate IsLogOf(h: Handoff, c: Claim, k: ClaimKey, input: HandoffInput, now: Time) {
    && h.goalId == k.0 && h.workItemId == k.1 && h.fromAgentId == c.agentId && h.toAgentId == input.toAgentId
    && h.reason == (if Trim(input.reason) == "" then "handoff" else Trim(input.reason))
    && h.evidenceRefs == UniqueStrings(input.evidenceRefs) && h.at == now
  }

  /**
   * A handoff of a live claim is refused exactly when the item shuts the receiver out.
   * Otherwise it is logged, the claim is gone, and a receiver has a new one.
   */
  lemma HandoffIff(t: Tables, k: ClaimKey, input: HandoffInput, now: Time)
    requires Coherent(t) && k in t.claims && t.claims[k].token == input.token && now < t.claims[k].leaseExpiresAt
    ensures var r := HandOffClaim(t, input, now); var to := input.toAgentId;
      if to.Some? && ShutsOut(t, k, to.value, input.toAgentRoleScopes) then r == ClaimedAs(t, None)
      else
        && |r.tables.handoffs| == |t.handoffs| + 1 && t.handoffs <= r.tables.handoffs
        && IsLogOf(r.tables.handoffs[|t.handoffs|], t.claims[k], k, input, now)
        && (if to.None? then r.claim == None && r.tables == t.(claims := WithoutKey(t.claims, k),
                                                               handoffs := r.tables.handoffs)
            else IsIssued(t.(handoffs := r.tables.handoffs), r, k.0, k.1, to.value, input.toAgentRoleScopes,
                          input.leaseMs, now))
  {
    hide UniqueStrings, MayReceive, ShutsOut;
    OnlyRowOf(t, k);
    if input.toAgentId.Some? {
      ReceivingIs(t, k, input.toAgentId.value, input.toAgentRoleScopes);
      var c := NewClaim(t, k, input.toAgentId.value, UniqueStrings(input.toAgentRoleScopes), input.leaseMs, now);
      assert WithoutKey(t.claims, k)[k := c] == t.claims[k := c];
    } else {
      assert MayReceive(ReadSnapshot(t.goals, k.0), k.1, None, UniqueStrings(input.toAgentRoleScopes)) by {
        NobodyMayReceive(ReadSnapshot(t.goals, k.0), k.1, UniqueStrings(input.toAgentRoleScopes));
      }
    }
  }

  lemma NobodyMayReceive(goal: Option<Goal>, id: Id, scopes: seq<string>)
    ensures MayReceive(goal, id, None, scopes)
  {
  }

  /** A token without a live claim hands nothing off. */
  lemma ExpiredHandoffIsRefused(t: Tables, input: HandoffInput, now: Time)
    requires forall k :: k in t.claims && t.claims[k].token == input.token ==> t.claims[k].leaseExpiresAt <= now
    ensures HandOffClaim(t, input, now) == ClaimedAs(t, None)
  {
    hide MayReceive, UniqueStrings;
  }

  // ---------------------------------------------------------------------------
  // What a holder writes
  // ---------------------------------------------------------------------------

  /** Marking changes every item, releasing one that runs or is claimed, completing one that is not done. */
  predicate IsChangedBy(x: WorkItem, write: ItemWrite) {
    match write
    case Marking => true
    case Releasing => x.status == Running || x.status == Claimed
    case Completing(_) => x.status != Done
  }

  predicate IsWritten(x: WorkItem, y: WorkItem, write: ItemWrite, at: Time) {
    match write
    case Marking => y == x.(status := Running, updatedAt := at)
    case Releasing => y == x.(status := Open, updatedAt := at)
    case Completing(refs) =>
      y == x.(status := Done, evidenceRefs := UniqueStrings(x.evidenceRefs + refs), updatedAt := at)
  }

  /** The goal has an item with this id that the write changes. */
  predicate IsConcerned(goal: Goal, id: Id, write: ItemWrite) {
    exists x :: x in goal.workItems && x.id == id && IsChangedBy(x, write)
  }

  lemma ConcernedIs(goal: Goal, id: Id, write: ItemWrite)
    ensures Affects(goal, id, write) <==> IsConcerned(goal, id, write)
  {
  }

  /**
   * A write of a claim holder changes exactly the items with the id that are in a fitting
   * status; completing one counts a delivery and advances the plan; without one nothing changes.
   */
  lemma WritesAreExact(goal: Goal, id: Id, write: ItemWrite, at: Time)
    ensures var next := Rewrite(goal, id, write, at);
      if !IsConcerned(goal, id, write) then next == goal
      else
        && |next.workItems| == |goal.workItems|
        && (forall i :: 0 <= i < |goal.workItems| ==>
             if goal.workItems[i].id == id && IsChangedBy(goal.workItems[i], write)
             then IsWritten(goal.workItems[i], next.workItems[i], write, at)
             else next.workItems[i] == goal.workItems[i])
        && next.delivery.completedWorkItems
            == goal.delivery.completedWorkItems + (if write.Completing? then 1 else 0)
        && next == goal.(workItems := next.workItems, updatedAt := at, revision := goal.revision + 1,
             planRevision := goal.planRevision + (if write.Completing? then 1 else 0),
             delivery := goal.delivery.(completedWorkItems := next.delivery.completedWorkItems))
  {
    hide UniqueStrings;
    ConcernedIs(goal, id, write);
    match write
    case Marking => assert Affects(goal, id, write) <==> HasItem(goal, id);
    case Releasing =>
    case Completing(_) =>
  }

  // ---------------------------------------------------------------------------
  // What the store keeps
  // ---------------------------------------------------------------------------

  predicate IsEnded(goal: Goal) {
    goal.status in {Complete, GoalStatus.Cancelled, Blocked}
  }

  /** The claims of the goal are gone, and no others. */
  ghost predicate IsPurged(before: map<ClaimKey, Claim>, after: map<ClaimKey, Claim>, goalId: Id) {
    && (forall k :: k in after <==> k in before && k.0 != goalId)
    && forall k :: k in after ==> after[k] == before[k]
  }

  /** A goal loses its claims exactly when it is archived, or stored as complete, cancelled or blocked. */
  lemma SnapshotStores(t: Tables, goalId: Id, next: Option<Goal>)
    ensures var u := PutSnapshot(t, goalId, next);
      && u.handoffs == t.handoffs && u.nextToken == t.nextToken
      && (next.Some? ==> u.goals == t.goals[goalId := GoalRow(next.value, false)])
      && (next == None && goalId in t.goals ==> u.goals == t.goals[goalId := GoalRow(t.goals[goalId].goal, true)])
      && (next == None && goalId !in t.goals ==> u.goals == t.goals)
      && (if next == None || IsEnded(next.value) then IsPurged(t.claims, u.claims, goalId) else u.claims == t.claims)
  {
  }

  /** In coherent tables no claim belongs to a goal that is missing, archived, complete, cancelled or blocked. */
  lemma ClaimsAreOfOpenGoals(t: Tables, k: ClaimKey)
    requires Coherent(t) && k in t.claims
    ensures k.0 in t.goals && !t.goals[k.0].archived && !IsEnded(t.goals[k.0].goal)
    ensures t.claims[k].goalId == k.0 && t.claims[k].workItemId == k.1 && t.claims[k].token < t.nextToken
    ensures forall j :: j in t.claims && t.claims[j].token == t.claims[k].token ==> j == k
  {
  }

  /** Renewing a live claim starts its lease anew; nothing else changes. */
  lemma RenewalStores(t: Tables, k: ClaimKey, leaseMs: Option<nat>, now: Time)
    requires Coherent(t) && k in t.claims && now < t.claims[k].leaseExpiresAt
    ensures var u := RenewClaim(t, t.claims[k].token, leaseMs, now);
      && k in u.claims && IsLeaseFrom(u.claims[k].leaseExpiresAt, now, leaseMs)
      && u == t.(claims := t.claims[k := t.claims[k].(leaseExpiresAt := u.claims[k].leaseExpiresAt, updatedAt := now)])
  {
    OnlyRowOf(t, k);
  }

  /** A claim whose lease is over can only be released. */
  lemma ExpiredClaimOnlyReleases(t: Tables, token: Token, leaseMs: Option<nat>, refs: seq<string>, now: Time)
    requires forall k :: k in t.claims && t.claims[k].token == token ==> t.claims[k].leaseExpiresAt <= now
    ensures RenewClaim(t, token, leaseMs, now) == t && MarkClaimRunning(t, token, now) == t
    ensures CompleteClaim(t, token, refs, now) == t
  {
    hide UniqueStrings;
  }

  /** A claim is not completed without evidence. */
  lemma CompletionNeedsEvidence(t: Tables, token: Token, refs: seq<string>, now: Time)
    requires NamesNothing(refs)
    ensures CompleteClaim(t, token, refs, now) == t
  {
    NothingIsNamed(refs);
  }

  /** Release of a claim, live or not: the row goes, and a claimed or running item is open again. */
  lemma ReleaseStores(t: Tables, k: ClaimKey, now: Time)
    requires Coherent(t) && k in t.claims
    ensures var u := ReleaseClaim(t, t.claims[k].token, now);
      && u.claims == WithoutKey(t.claims, k) && u.handoffs == t.handoffs && u.nextToken == t.nextToken
      && u.goals == t.goals[k.0 := GoalRow(Rewrite(t.goals[k.0].goal, k.1, Releasing, now), false)]
  {
    hide ReleaseItem;
    OnlyRowOf(t, k);
    RewriteKeepsStatus(t.goals[k.0].goal, k.1, Releasing, now);
  }

  /** Marking a live claim makes its item run and keeps the claim. */
  lemma MarkingStores(t: Tables, k: ClaimKey, now: Time)
    requires Coherent(t) && k in t.claims && now < t.claims[k].leaseExpiresAt
    ensures var u := MarkClaimRunning(t, t.claims[k].token, now);
      u == t.(goals := t.goals[k.0 := GoalRow(Rewrite(t.goals[k.0].goal, k.1, Marking, now), false)])
  {
    hide MarkRunning;
    OnlyRowOf(t, k);
    RewriteKeepsStatus(t.goals[k.0].goal, k.1, Marking, now);
  }

  /** Completing a live claim with evidence finishes its item; the claim goes exactly when the item was not done. */
  lemma CompletingStores(t: Tables, k: ClaimKey, refs: seq<string>, now: Time)
    requires Coherent(t) && k in t.claims && now < t.claims[k].leaseExpiresAt && UniqueStrings(refs) != []
    ensures var u := CompleteClaim(t, t.claims[k].token, refs, now);
      var write := Completing(UniqueStrings(refs));
      && u.goals == t.goals[k.0 := GoalRow(Rewrite(t.goals[k.0].goal, k.1, write, now), false)]
      && u.claims == (if IsConcerned(t.goals[k.0].goal, k.1, write) then WithoutKey(t.claims, k) else t.claims)
      && u.handoffs == t.handoffs && u.nextToken == t.nextToken
  {
    hide CompleteItem, UniqueStrings, CanComplete, IsConcerned;
    OnlyRowOf(t, k);
    var write := Completing(UniqueStrings(refs));
    RewriteKeepsStatus(t.goals[k.0].goal, k.1, write, now);
    ConcernedIs(t.goals[k.0].goal, k.1, write);
  }
}
