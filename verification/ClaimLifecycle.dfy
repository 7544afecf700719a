/** One work claim from issue to release, completion or handoff. */
module ClaimLifecycle {
  import opened Text
  import opened GoalTypes
  import opened GoalController
  import opened GoalService
  import opened ClaimMutations
  import opened GoalTables

  /**
   * An item of the stored goal that its agent may work on now; `anyScope` lets an
   * agent without scopes work on every item.
   */
  predicate IsEntitled(t: Tables, c: Claim, anyScope: bool) {
    var goal := ReadSnapshot(t.goals, c.goalId);
    goal.Some? && goal.value.status.Active? &&
    exists x :: x in goal.value.workItems && x.id == c.workItemId
                && IsRunnable(x, CompletedIds(goal.value.workItems)) && c.agentId !in x.excludedAgentIds
                && (x.roleScopes == [] || SharesScope(x, c.roleScopes) || (anyScope && c.roleScopes == []))
  }

  predicate IsFreshClaim(t: Tables, u: Tables, c: Claim, now: Time) {
    && c.token == t.nextToken && c.claimedAt == now && c.leaseExpiresAt >= now + MIN_LEASE_MS
    && !((c.goalId, c.workItemId) in t.claims && Live(t.claims[(c.goalId, c.workItemId)], now))
    && u == t.(claims := t.claims[(c.goalId, c.workItemId) := c], nextToken := t.nextToken + 1)
  }

  /** Claiming any item takes the place of no live claim and only gives an agent work it is entitled to. */
  lemma NextClaimIsEntitled(t: Tables, goalId: Id, agentId: Id, scopes: seq<string>, leaseMs: Option<nat>, now: Time)
    ensures var r := ClaimNext(t, goalId, agentId, scopes, leaseMs, now);
            if r.claim.None? then r.tables == t
            else IsFreshClaim(t, r.tables, r.claim.value, now) && IsEntitled(t, r.claim.value, false)
                 && r.claim.value.goalId == goalId && r.claim.value.agentId == agentId
  {
    hide UniqueStrings, CompletedIds, Ready, BestIndex;
    var r := ClaimNext(t, goalId, agentId, scopes, leaseMs, now);
    if r.claim.Some? {
      var c := r.claim.value;
      var items := ReadSnapshot(t.goals, goalId).value.workItems;
      var i := NextClaimIndex(items, LiveItems(t.claims, goalId, now), agentId, UniqueStrings(scopes)).value;
      assert items[i] in items;
      LiveRowIsListed(t.claims, (goalId, items[i].id), now);
    }
  }

  lemma LiveRowIsListed(claims: map<ClaimKey, Claim>, k: ClaimKey, now: Time)
    ensures k in claims && Live(claims[k], now) ==> k.1 in LiveItems(claims, k.0, now)
  {
  }

  /** Claiming a named item does the same, or hands its own live claim back to an agent. */
  lemma NamedClaimIsEntitled(t: Tables, goalId: Id, workItemId: Id, agentId: Id, scopes: seq<string>,
                             leaseMs: Option<nat>, now: Time)
    requires KeyedByItem(t)
    ensures var r := ClaimItem(t, goalId, workItemId, agentId, scopes, leaseMs, now);
            if r.claim.None? then r.tables == t
            else
              var c := r.claim.value;
              && c.goalId == goalId && c.workItemId == workItemId && c.agentId == agentId
              && if r.tables == t
                  then (goalId, workItemId) in t.claims && t.claims[(goalId, workItemId)] == c && Live(c, now)
                 else IsFreshClaim(t, r.tables, c, now) && IsEntitled(t, c, true)
  {
    hide UniqueStrings, CompletedIds, Ready, FindIndex;
    var r := ClaimItem(t, goalId, workItemId, agentId, scopes, leaseMs, now);
    if r.claim.Some? && r.tables != t {
      var items := ReadSnapshot(t.goals, goalId).value.workItems;
      assert items[IndexOfId(items, workItemId)] in items;
    }
  }

  // ---------------------------------------------------------------------------
  // Claim, run, release
  // ---------------------------------------------------------------------------

  /** The frontier is the same, times of the last update aside. */
  predicate SameFrontier(a: seq<WorkItem>, b: seq<WorkItem>) {
    |a| == |b| && forall i :: 0 <= i < |a| ==> b[i] == a[i].(updatedAt := b[i].updatedAt)
  }

  lemma RunAndReleaseRestore(goal: Goal, id: Id, now: Time, later: Time)
    requires forall x :: x in goal.workItems && x.id == id ==> x.status.Open?
    ensures SameFrontier(goal.workItems, ReleaseItem(MarkRunning(goal, id, now), id, later).workItems)
    ensures ReleaseItem(MarkRunning(goal, id, now), id, later).status == goal.status
  {
  }

  lemma OnlyRowOf(t: Tables, k: ClaimKey)
    requires Coherent(t) && k in t.claims
    ensures RowOf(t, t.claims[k].token) == Some(k)
  {
    assert HasToken(t, t.claims[k].token);
  }

  /** An open item that is claimed, run and released is back on the frontier, free of claims. */
  lemma ClaimReleaseRestores(t: Tables, k: ClaimKey, c: Claim, now: Time, later: Time)
    requires Coherent(t) && k !in t.claims && Claimable(t.goals, k.0)
    requires c.goalId == k.0 && c.workItemId == k.1 && c.token == t.nextToken && Live(c, now)
    requires forall x :: x in t.goals[k.0].goal.workItems && x.id == k.1 ==> x.status.Open?
    ensures var done := ReleaseClaim(MarkClaimRunning(InsertClaim(t, c), c.token, now), c.token, later);
            && done.claims == t.claims && done.handoffs == t.handoffs
            && done.goals.Keys == t.goals.Keys && (forall g :: g in t.goals && g != k.0 ==> done.goals[g] == t.goals[g])
            && !done.goals[k.0].archived
            && SameFrontier(t.goals[k.0].goal.workItems, done.goals[k.0].goal.workItems)
  {
    hide MarkRunning, ReleaseItem, SameFrontier, MarkClaimRunning, ReleaseClaim, Coherent;
    var goal, claimed := t.goals[k.0].goal, InsertClaim(t, c);
    InsertKeepsCoherence(t, c);
    StatusesStay(goal, k.1, now, later);
    MarkIs(claimed, k, now);
    MarkKeepsCoherence(claimed, c.token, now);
    ReleaseIs(MarkClaimRunning(claimed, c.token, now), k, later);
    RunAndReleaseRestore(goal, k.1, now, later);
    assert WithoutKey(claimed.claims, k) == t.claims;
  }

  lemma MarkKeepsCoherence(t: Tables, token: Token, now: Time)
    requires Coherent(t)
    ensures Coherent(MarkClaimRunning(t, token, now))
  {
    hide MarkClaimRunning, Coherent;
    ApplyKeepsCoherence(t, MarkRunningOp(token), now);
  }

  lemma MarkIs(t: Tables, k: ClaimKey, now: Time)
    requires Coherent(t) && k in t.claims && Live(t.claims[k], now)
    requires MarkRunning(t.goals[k.0].goal, k.1, now).status == t.goals[k.0].goal.status
    ensures MarkClaimRunning(t, t.claims[k].token, now)
         == t.(goals := t.goals[k.0 := GoalRow(MarkRunning(t.goals[k.0].goal, k.1, now), false)])
  {
    hide MarkRunning;
    OnlyRowOf(t, k);
  }

  lemma ReleaseIs(t: Tables, k: ClaimKey, now: Time)
    requires Coherent(t) && k in t.claims
    requires ReleaseItem(t.goals[k.0].goal, k.1, now).status == t.goals[k.0].goal.status
    ensures ReleaseClaim(t, t.claims[k].token, now)
         == t.(goals := t.goals[k.0 := GoalRow(ReleaseItem(t.goals[k.0].goal, k.1, now), false)],
             claims := WithoutKey(t.claims, k))
  {
    hide ReleaseItem;
    OnlyRowOf(t, k);
  }

  lemma StatusesStay(goal: Goal, id: Id, now: Time, later: Time)
    ensures MarkRunning(goal, id, now).status == goal.status
    ensures ReleaseItem(MarkRunning(goal, id, now), id, later).status == goal.status
  {
  }

  // ---------------------------------------------------------------------------
  // Completing
  // ---------------------------------------------------------------------------

  lemma CompletingFinishes(goal: Goal, id: Id, refs: seq<string>, now: Time)
    requires CanComplete(goal, id) && refs == UniqueStrings(refs)
    ensures var after := CompleteItem(goal, id, refs, now);
            && (forall x :: x in after.workItems && x.id == id ==> x.status.Done?)
            && after.delivery.completedWorkItems == goal.delivery.completedWorkItems + 1
            && after.status == goal.status
  {
  }

  /** The item is done wherever it appears, and no claim row names it. */
  predicate IsRetired(t: Tables, k: ClaimKey) {
    && k !in t.claims
    && (k.0 in t.goals ==> IsDoneIn(t.goals[k.0].goal, k.1))
  }

  predicate IsDoneIn(goal: Goal, id: Id) {
    forall x :: x in goal.workItems && x.id == id ==> x.status.Done?
  }

  /** A completed claim is gone, its item is done, and one delivery is counted. */
  lemma CompletionRetires(t: Tables, k: ClaimKey, refs: seq<string>, now: Time)
    requires Coherent(t) && k in t.claims && Live(t.claims[k], now)
    requires UniqueStrings(refs) != [] && CanComplete(t.goals[k.0].goal, k.1)
    ensures var u := CompleteClaim(t, t.claims[k].token, refs, now);
            && IsRetired(u, k) && k.0 in u.goals
            && u.goals[k.0].goal.delivery.completedWorkItems == t.goals[k.0].goal.delivery.completedWorkItems + 1
  {
    hide CompleteItem, CanComplete, UniqueStrings;
    OnlyRowOf(t, k);
    UniqueIsIdempotent(refs);
    CompletingFinishes(t.goals[k.0].goal, k.1, UniqueStrings(refs), now);
  }

  /** An update of the goal's snapshot that takes the item out of `done`, or a late write that marks it as running. */
  predicate Reopens(op: StoreOp, k: ClaimKey) {
    || (op.PutOp? && op.goalId == k.0 && op.next.Some? && !IsDoneIn(op.next.value, k.1))
    || (op.WriteItemOp? && op.key == k && op.write.Marking?)
  }

  lemma MutationKeepsOthersDone(goal: Goal, id: Id, other: Id, refs: seq<string>, now: Time)
    requires IsDoneIn(goal, id)
    ensures other != id ==> IsDoneIn(MarkRunning(goal, other, now), id)
    ensures IsDoneIn(ReleaseItem(goal, other, now), id)
    ensures IsDoneIn(CompleteItem(goal, other, refs, now), id)
  {
    hide UniqueStrings;
  }

  lemma MutateKeepsRetired(t: Tables, k: ClaimKey, goalId: Id, f: Goal -> Goal)
    requires IsRetired(t, k)
    requires goalId == k.0 && goalId in t.goals ==> IsDoneIn(f(t.goals[goalId].goal), k.1)
    ensures IsRetired(Mutate(t, goalId, f), k)
  {
    hide IsDoneIn;
  }

  lemma RetiredIsNotClaimed(t: Tables, k: ClaimKey, agentId: Id, scopes: seq<string>, leaseMs: Option<nat>, now: Time)
    requires Coherent(t) && IsRetired(t, k)
    ensures ClaimItem(t, k.0, k.1, agentId, scopes, leaseMs, now).claim.None?
    ensures var r := ClaimNext(t, k.0, agentId, scopes, leaseMs, now); r.claim.Some? ==> r.claim.value.workItemId != k.1
  {
    hide ClaimItem, ClaimNext, UniqueStrings;
    NamedClaimIsEntitled(t, k.0, k.1, agentId, scopes, leaseMs, now);
    NextClaimIsEntitled(t, k.0, agentId, scopes, leaseMs, now);
  }

  lemma ClaimingKeepsRetired(t: Tables, k: ClaimKey, op: StoreOp, now: Time)
    requires Coherent(t) && IsRetired(t, k) && (op.ClaimNextOp? || op.ClaimItemOp?)
    ensures IsRetired(Apply(t, op, now), k)
  {
    hide ClaimItem, ClaimNext, UniqueStrings, IsDoneIn;
    RetiredIsNotClaimed(t, k, op.agentId, op.scopes, op.leaseMs, now);
    if op.ClaimNextOp? {
      NextClaimIsEntitled(t, op.goalId, op.agentId, op.scopes, op.leaseMs, now);
    } else {
      NamedClaimIsEntitled(t, op.goalId, op.workItemId, op.agentId, op.scopes, op.leaseMs, now);
    }
  }

  lemma HoldingKeepsRetired(t: Tables, k: ClaimKey, op: StoreOp, now: Time)
    requires Coherent(t) && IsRetired(t, k) && Presents(op).Some?
    ensures IsRetired(Apply(t, op, now), k)
  {
    hide IsDoneIn, UniqueStrings, MarkRunning, ReleaseItem, CompleteItem, Mutate, CanComplete, MayReceive,
         HandoffReason;
    var row := RowOf(t, Presents(op).value);
    if row.Some? {
      var key := row.value;
      if key.0 == k.0 && k.0 in t.goals {
        MutationKeepsOthersDone(
            t.goals[k.0].goal, k.1, key.1, if op.CompleteOp? then UniqueStrings(op.refs) else [], now);
      }
      match op
      case MarkRunningOp(_) => MutateKeepsRetired(t, k, key.0, g => MarkRunning(g, key.1, now));
      case ReleaseOp(_) =>
        MutateKeepsRetired(t.(claims := WithoutKey(t.claims, key)), k, key.0, g => ReleaseItem(g, key.1, now));
      case CompleteOp(_, refs) =>
          MutateKeepsRetired(t, k, key.0, g => CompleteItem(g, key.1, UniqueStrings(refs), now));
      case _ =>
    }
  }

  lemma WritingKeepsRetired(t: Tables, k: ClaimKey, op: StoreOp, now: Time)
    requires IsRetired(t, k) && op.WriteItemOp? && !Reopens(op, k)
    ensures IsRetired(Apply(t, op, now), k)
  {
    hide IsDoneIn, MarkRunning, ReleaseItem, CompleteItem, Mutate;
    if op.key.0 == k.0 && k.0 in t.goals {
      MutationKeepsOthersDone(
          t.goals[k.0].goal, k.1, op.key.1, if op.write.Completing? then op.write.refs else [], now);
    }
    MutateKeepsRetired(t, k, op.key.0, g => Rewrite(g, op.key.1, op.write, now));
  }

  lemma StepKeepsRetired(t: Tables, k: ClaimKey, op: StoreOp, now: Time)
    requires Coherent(t) && IsRetired(t, k) && !Reopens(op, k)
    ensures Coherent(Apply(t, op, now)) && IsRetired(Apply(t, op, now), k)
  {
    hide Coherent;
    ApplyKeepsCoherence(t, op, now);
    if op.PutOp? {
      hide IsDoneIn;
    } else if op.WriteItemOp? {
      hide Apply, IsRetired, Reopens;
      WritingKeepsRetired(t, k, op, now);
    } else if Presents(op).Some? {
      hide Apply, IsRetired;
      HoldingKeepsRetired(t, k, op, now);
    } else {
      hide Apply, IsRetired;
      ClaimingKeepsRetired(t, k, op, now);
    }
  }

  ghost function ApplyAll(t: Tables, ops: seq<(StoreOp, Time)>): Tables
    decreases |ops|
  {
    if ops == [] then t else ApplyAll(Apply(t, ops[0].0, ops[0].1), ops[1..])
  }

  lemma {:induction false} RunKeepsRetired(t: Tables, k: ClaimKey, ops: seq<(StoreOp, Time)>)
    requires Coherent(t) && IsRetired(t, k) && forall i :: 0 <= i < |ops| ==> !Reopens(ops[i].0, k)
    ensures Coherent(ApplyAll(t, ops)) && IsRetired(ApplyAll(t, ops), k)
    decreases |ops|
  {
    if ops != [] {
      hide Apply, Coherent, IsRetired, Reopens;
      StepKeepsRetired(t, k, ops[0].0, ops[0].1);
      RunKeepsRetired(Apply(t, ops[0].0, ops[0].1), k, ops[1..]);
    }
  }

  /** Once a claim is completed, nobody can claim its item in any run that does not write it back as unfinished. */
  lemma CompletedItemStaysUnclaimed(t: Tables, k: ClaimKey, refs: seq<string>, now: Time, ops: seq<(StoreOp, Time)>,
                                    agentId: Id, scopes: seq<string>, leaseMs: Option<nat>, later: Time)
    requires Coherent(t) && k in t.claims && Live(t.claims[k], now)
    requires UniqueStrings(refs) != [] && CanComplete(t.goals[k.0].goal, k.1)
    requires forall i :: 0 <= i < |ops| ==> !Reopens(ops[i].0, k)
    ensures var u := ApplyAll(CompleteClaim(t, t.claims[k].token, refs, now), ops);
            && IsRetired(u, k)
            && ClaimItem(u, k.0, k.1, agentId, scopes, leaseMs, later).claim.None?
            && var r := ClaimNext(u, k.0, agentId, scopes, leaseMs, later);
               r.claim.Some? ==> r.claim.value.workItemId != k.1
  {
    hide CanComplete, UniqueStrings, ClaimItem, ClaimNext, CompleteClaim, IsRetired, Reopens, ApplyAll;
    CompletionRetires(t, k, refs, now);
    var done := CompleteClaim(t, t.claims[k].token, refs, now);
    assert Coherent(done) by { ApplyKeepsCoherence(t, CompleteOp(t.claims[k].token, refs), now); }
    RunKeepsRetired(done, k, ops);
    RetiredIsNotClaimed(ApplyAll(done, ops), k, agentId, scopes, leaseMs, later);
  }

  // ---------------------------------------------------------------------------
  // Operations in several statements
  // ---------------------------------------------------------------------------

  /** The goal is stored, and has the item in a status that the write changes. */
  predicate Admits(t: Tables, k: ClaimKey, write: ItemWrite) {
    ReadSnapshot(t.goals, k.0).Some? && Affects(ReadSnapshot(t.goals, k.0).value, k.1, write)
  }

  /** The statements of an operation run back to back, after the read that finds the row. */
  ghost function Statements(t: Tables, op: StoreOp, k: ClaimKey, now: Time): Tables {
    match op
    case RenewOp(token, leaseMs) => Apply(t, WriteLeaseOp(token, LeaseEnd(now, leaseMs)), now)
    case MarkRunningOp(_) => Apply(t, WriteItemOp(k, Marking), now)
    case ReleaseOp(token) => Apply(Apply(t, DeleteClaimOp(token), now), WriteItemOp(k, Releasing), now)
    case CompleteOp(token, refs) =>
      var u := Apply(t, WriteItemOp(k, Completing(UniqueStrings(refs))), now);
      if Admits(t, k, Completing(UniqueStrings(refs))) then Apply(u, DeleteClaimOp(token), now) else u
    case _ => t
  }

  /** Without an operation in between, its statements are the operation. */
  lemma StatementsMakeTheOperation(t: Tables, op: StoreOp, k: ClaimKey, now: Time)
    requires Coherent(t) && Presents(op).Some? && RowOf(t, Presents(op).value) == Some(k)
    requires op.RenewOp? || op.MarkRunningOp? || op.ReleaseOp? || (op.CompleteOp? && UniqueStrings(op.refs) != [])
    requires op.ReleaseOp? || Live(t.claims[k], now)
    ensures Apply(t, op, now) == Statements(t, op, k, now)
  {
    hide UniqueStrings, MarkRunning, ReleaseItem, CompleteItem, CanComplete, Coherent;
    if op.MarkRunningOp? {
      SameMutation(t, k.0, g => MarkRunning(g, k.1, now), g => Rewrite(g, k.1, Marking, now));
    } else if op.ReleaseOp? {
      SameMutation(t.(claims := WithoutKey(t.claims, k)), k.0,
          g => ReleaseItem(g, k.1, now), g => Rewrite(g, k.1, Releasing, now));
    } else if op.CompleteOp? {
      StatementsMakeTheCompletion(t, op, k, now);
    }
  }

  lemma StatementsMakeTheCompletion(t: Tables, op: StoreOp, k: ClaimKey, now: Time)
    requires Coherent(t) && op.CompleteOp? && LiveRowOf(t, op.token, now) == Some(k) && UniqueStrings(op.refs) != []
    ensures CompleteClaim(t, op.token, op.refs, now) == Statements(t, op, k, now)
  {
    hide UniqueStrings, CompleteItem, CanComplete, Coherent, Mutate, ReadSnapshot;
    var refs := UniqueStrings(op.refs);
    SameMutation(t, k.0, g => CompleteItem(g, k.1, refs, now), g => Rewrite(g, k.1, Completing(refs), now));
    CompletionKeepsRow(t, k, refs, now);
  }

  lemma SameMutation(t: Tables, goalId: Id, f: Goal -> Goal, g: Goal -> Goal)
    requires goalId in t.goals ==> f(t.goals[goalId].goal) == g(t.goals[goalId].goal)
    ensures Mutate(t, goalId, f) == Mutate(t, goalId, g)
  {
  }

  lemma CompletionKeepsRow(t: Tables, k: ClaimKey, refs: seq<string>, now: Time)
    requires Coherent(t) && k in t.claims
    ensures var u := Mutate(t, k.0, g => CompleteItem(g, k.1, refs, now));
      u.claims == t.claims && RowOf(u, t.claims[k].token) == Some(k)
  {
    hide CanComplete;
    var u := Mutate(t, k.0, g => CompleteItem(g, k.1, refs, now));
    RewriteKeepsStatus(t.goals[k.0].goal, k.1, Completing(refs), now);
    OnlyRowOf(t, k);
    assert HasToken(u, t.claims[k].token);
  }

  lemma RewriteChangesIff(goal: Goal, id: Id, write: ItemWrite, now: Time)
    ensures Rewrite(goal, id, write, now) == goal <==> !Affects(goal, id, write)
  {
    hide UniqueStrings, MapItem;
  }

  /**
   * A late write is not fenced: whatever has become of the token, of the claim and of
   * the goal since the read, it changes the goal exactly when that is stored and
   * has the item in a fitting status, and it changes nothing else.
   */
  lemma LateWriteEscapesFenceIff(t: Tables, k: ClaimKey, write: ItemWrite, now: Time)
    requires Coherent(t)
    ensures var u := Apply(t, WriteItemOp(k, write), now);
      && (u != t <==> Admits(t, k, write))
      && u.claims == t.claims && u.handoffs == t.handoffs && u.nextToken == t.nextToken
      && u.goals.Keys == t.goals.Keys
      && forall id :: id in t.goals && u.goals[id] != t.goals[id] ==>
          id == k.0 && u.goals[id] == GoalRow(Rewrite(t.goals[id].goal, k.1, write, now), false)
  {
    hide Rewrite, Affects;
    var u := Apply(t, WriteItemOp(k, write), now);
    if k.0 in t.goals {
      RewriteChangesIff(t.goals[k.0].goal, k.1, write, now);
      RewriteKeepsStatus(t.goals[k.0].goal, k.1, write, now);
    }
    assert u.claims == t.claims;
    if k.0 in t.goals && !t.goals[k.0].archived {
      assert u.goals == t.goals[k.0 := GoalRow(Rewrite(t.goals[k.0].goal, k.1, write, now), false)];
      if u.goals[k.0] == t.goals[k.0] {
        assert u.goals == t.goals;
      }
    } else {
      assert u.goals == t.goals;
    }
  }

  /** The late write leaves an affected item running although it was done, open although it is held anew, or done. */
  lemma LateWriteLeaves(goal: Goal, id: Id, write: ItemWrite, now: Time, i: nat)
    requires Affects(goal, id, write) && i < |goal.workItems|
    ensures |Rewrite(goal, id, write, now).workItems| == |goal.workItems|
    ensures var before, after := goal.workItems[i], Rewrite(goal, id, write, now).workItems[i];
      if before.id != id then after == before
      else match write
        case Marking => after == before.(status := Running, updatedAt := now)
        case Releasing => if IsHeld(before) then after == before.(status := Open, updatedAt := now) else after == before
        case Completing(refs) => after.status.Done? && (before.status.Done? ==> after == before)
  {
    hide UniqueStrings;
  }

  lemma UniqueIsIdempotent(refs: seq<string>)
    ensures UniqueStrings(UniqueStrings(refs)) == UniqueStrings(refs)
  {
    var u := UniqueStrings(refs);
    forall x | x in u
      ensures IsTrimmed(x) && x != ""
    {
      var k :| 0 <= k < |refs| && Trim(refs[k]) == x;
      TrimTrims(refs[k]);
    }
    CleanStaysClean(u);
  }

  lemma {:induction false} CleanStaysClean(u: seq<string>)
    requires NoDuplicates(u) && forall x :: x in u ==> IsTrimmed(x) && x != ""
    ensures UniqueStrings(u) == u
  {
    if u != [] {
      var init, last := u[..|u| - 1], u[|u| - 1];
      assert u == init + [last];
      CleanStaysClean(init);
      TrimTrims(last);
    }
  }

  /** Renewing a live claim extends its own lease and nothing else; an expired one cannot be renewed. */
  lemma RenewalExtends(t: Tables, k: ClaimKey, leaseMs: Option<nat>, now: Time)
    requires Coherent(t) && k in t.claims
    ensures var u := RenewClaim(t, t.claims[k].token, leaseMs, now);
            if Live(t.claims[k], now) then
              && u.goals == t.goals && u.claims.Keys == t.claims.Keys
              && u.claims[k].token == t.claims[k].token && u.claims[k].leaseExpiresAt >= now + MIN_LEASE_MS
              && (leaseMs.None? ==> u.claims[k].leaseExpiresAt == now + 900_000)
              && forall j :: j in t.claims && j != k ==> u.claims[j] == t.claims[j]
            else u == t
  {
    OnlyRowOf(t, k);
  }

  // ---------------------------------------------------------------------------
  // Handing off
  // ---------------------------------------------------------------------------

  /** A handoff to an allowed agent moves the claim to it under a new token; a refused one changes nothing. */
  lemma HandoffTransfersOrRefuses(t: Tables, k: ClaimKey, input: HandoffInput, now: Time)
    requires Coherent(t) && k in t.claims && t.claims[k].token == input.token && Live(t.claims[k], now)
    requires input.toAgentId.Some?
    ensures var allowed := MayReceive(
        ReadSnapshot(t.goals, k.0), k.1, input.toAgentId, UniqueStrings(input.toAgentRoleScopes));
            var r := HandOffClaim(t, input, now);
            if !allowed then r == ClaimedAs(t, None)
            else
              && k in r.tables.claims && r.claim == Some(r.tables.claims[k])
              && r.tables.claims[k].agentId == input.toAgentId.value
              && r.tables.claims[k].token != input.token && !HasToken(r.tables, input.token)
              && Live(r.tables.claims[k], now)
              && (forall j :: j != k ==>
                  (j in r.tables.claims <==> j in t.claims) && (j in t.claims ==> r.tables.claims[j] == t.claims[j]))
              && r.tables.goals == t.goals
              && |r.tables.handoffs| == |t.handoffs| + 1
              && r.tables.handoffs[|t.handoffs|].fromAgentId == t.claims[k].agentId
              && r.tables.handoffs[|t.handoffs|].toAgentId == input.toAgentId
  {
    hide MayReceive, UniqueStrings, HandoffReason;
    OnlyRowOf(t, k);
  }
}
