/** The project goal store as the object that applies each transaction to its tables in place. */
module ProjectGoalStore {
  import opened Text
  import opened GoalTypes
  import opened GoalController
  import opened GoalService
  import opened ClaimMutations
  import opened GoalTables
  import opened ClaimLifecycle
  import C = Continuation

  class Store {
    var goals: map<Id, GoalRow>
    var claims: map<ClaimKey, Claim>
    var handoffs: seq<Handoff>
    var nextToken: Token
    var continuations: map<Id, C.ContinuationRow>
    var sessions: map<Id, Id>

    /** The tables of goals and claims as one value. */
    ghost function View(): Tables
      reads this
    {
      Tables(goals, claims, handoffs, nextToken)
    }

    ghost predicate Valid()
      reads this
    {
      Coherent(View())
    }

    constructor ()
      ensures Valid() && View() == EMPTY_TABLES && continuations == map[] && sessions == map[]
    {
      goals, claims, handoffs, nextToken := map[], map[], [], 0;
      continuations, sessions := map[], map[];
    }

    /** Stores the goal that `next` holds, or archives it; ended goals lose their claims. */
    method UpdateSnapshot(goalId: Id, next: Option<Goal>)
      requires Valid()
      modifies this`goals, this`claims
      ensures Valid() && View() == PutSnapshot(old(View()), goalId, next)
    {
      PutKeepsCoherence(View(), goalId, next);
      if next.None? {
        if goalId in goals {
          goals := goals[goalId := goals[goalId].(archived := true)];
        }
        claims := WithoutGoal(claims, goalId);
      } else {
        goals := goals[goalId := GoalRow(next.value, false)];
        if ClosesClaims(next.value.status) {
          claims := WithoutGoal(claims, goalId);
        }
      }
    }

    /** Claims the best runnable item that no live claim holds. */
    method ClaimNextWork(goalId: Id, agentId: Id, scopes: seq<string>, leaseMs: Option<nat>, now: Time)
      returns (claim: Option<Claim>)
      requires Valid()
      modifies this`claims, this`nextToken
      ensures Valid()
      ensures ClaimedAs(View(), claim) == ClaimNext(old(View()), goalId, agentId, scopes, leaseMs, now)
    {
      hide UniqueStrings, ClaimItem;
      ClaimsKeepCoherence(View(), goalId, "", agentId, scopes, leaseMs, now);
      var goal := ReadSnapshot(goals, goalId);
      if goal.None? || !goal.value.status.Active? {
        return None;
      }
      var items := goal.value.workItems;
      var wanted := UniqueStrings(scopes);
      var best := NextClaimIndex(items, LiveItems(claims, goalId, now), agentId, wanted);
      if best.None? {
        return None;
      }
      var key := (goalId, items[best.value].id);
      var c := Claim(goalId, key.1, agentId, nextToken, wanted, now, LeaseEnd(now, leaseMs), now);
      claims := claims[key := c];
      nextToken := nextToken + 1;
      claim := Some(c);
    }

    /** Claims one item, hands a live claim back to its own agent, or refuses. */
    method ClaimWorkItem(goalId: Id, workItemId: Id, agentId: Id, scopes: seq<string>, leaseMs: Option<nat>, now: Time)
        returns (claim: Option<Claim>)
      requires Valid()
      modifies this`claims, this`nextToken
      ensures Valid()
      ensures ClaimedAs(View(), claim) == ClaimItem(old(View()), goalId, workItemId, agentId, scopes, leaseMs, now)
    {
      hide MayClaimItem, UniqueStrings, ClaimNext;
      ClaimsKeepCoherence(View(), goalId, workItemId, agentId, scopes, leaseMs, now);
      var goal := ReadSnapshot(goals, goalId);
      if goal.None? || !goal.value.status.Active? {
        return None;
      }
      var key := (goalId, workItemId);
      if key in claims && Live(claims[key], now) {
        return if claims[key].agentId == agentId then Some(claims[key]) else None;
      }
      var items := goal.value.workItems;
      var wanted := UniqueStrings(scopes);
      var i := IndexOfId(items, workItemId);
      if i == |items| || !MayClaimItem(items[i], CompletedIds(items), agentId, wanted) {
        return None;
      }
      var c := Claim(goalId, workItemId, agentId, nextToken, wanted, now, LeaseEnd(now, leaseMs), now);
      claims := claims[key := c];
      nextToken := nextToken + 1;
      claim := Some(c);
    }

    /** The row a token names; at most one exists. */
    method FindRow(token: Token) returns (row: Option<ClaimKey>)
      requires Valid()
      ensures row == RowOf(View(), token)
    {
      if k :| k in claims && claims[k].token == token {
        row := Some(k);
      } else {
        row := None;
      }
    }

    method FindLiveRow(token: Token, now: Time) returns (row: Option<ClaimKey>)
      requires Valid()
      ensures row == LiveRowOf(View(), token, now)
    {
      row := FindRow(token);
      if row.Some? && !Live(claims[row.value], now) {
        row := None;
      }
    }

    // -------------------------------------------------------------------------
    // Single statements, and the operations made of them
    // -------------------------------------------------------------------------

    method WriteLease(token: Token, until: Time, now: Time)
      requires Valid()
      modifies this`claims
      ensures Valid() && View() == GoalTables.WriteLease(old(View()), token, until, now)
    {
      ApplyKeepsCoherence(View(), WriteLeaseOp(token, until), now);
      var row := FindRow(token);
      if row.Some? {
        claims := claims[row.value := claims[row.value].(leaseExpiresAt := until, updatedAt := now)];
      }
    }

    method DeleteClaim(token: Token) returns (deleted: bool)
      requires Valid()
      modifies this`claims
      ensures Valid() && View() == GoalTables.DeleteClaim(old(View()), token)
      ensures deleted == old(HasToken(View(), token))
      ensures !HasToken(View(), token)
    {
      ApplyKeepsCoherence(View(), DeleteClaimOp(token), 0);
      var row := FindRow(token);
      deleted := row.Some?;
      if deleted {
        claims := WithoutKey(claims, row.value);
      }
    }

    /** Rewrites the claimed item in the snapshot of its goal, as it is now. */
    method WriteItem(k: ClaimKey, write: ItemWrite, now: Time) returns (changed: bool)
      requires Valid()
      modifies this`goals, this`claims
      ensures Valid() && View() == GoalTables.WriteItem(old(View()), k, write, now)
      ensures changed == old(Admits(View(), k, write))
    {
      hide Rewrite, Affects;
      var goal := ReadSnapshot(goals, k.0);
      changed := goal.Some? && Affects(goal.value, k.1, write);
      UpdateSnapshot(k.0, if goal.Some? then Some(Rewrite(goal.value, k.1, write, now)) else None);
    }

    method RenewWorkClaim(token: Token, leaseMs: Option<nat>, now: Time) returns (renewed: bool)
      requires Valid()
      modifies this`claims
      ensures Valid() && View() == RenewClaim(old(View()), token, leaseMs, now)
      ensures renewed == old(LiveRowOf(View(), token, now)).Some?
    {
      var row := FindLiveRow(token, now);
      if row.None? {
        return false;
      }
      WriteLease(token, LeaseEnd(now, leaseMs), now);
      renewed := true;
    }

    method MarkClaimRunning(token: Token, now: Time) returns (changed: bool)
      requires Valid()
      modifies this`goals, this`claims
      ensures Valid() && View() == GoalTables.MarkClaimRunning(old(View()), token, now)
      ensures changed <==>
          old(LiveRowOf(View(), token, now).Some? && Admits(View(), LiveRowOf(View(), token, now).value, Marking))
    {
      hide MarkRunning, HasItem;
      var row := FindLiveRow(token, now);
      if row.None? {
        return false;
      }
      StatementsMakeTheOperation(View(), MarkRunningOp(token), row.value, now);
      changed := WriteItem(row.value, Marking, now);
    }

    method ReleaseWorkClaim(token: Token, now: Time) returns (released: bool)
      requires Valid()
      modifies this`goals, this`claims
      ensures Valid() && View() == ReleaseClaim(old(View()), token, now)
      ensures released == old(HasToken(View(), token))
    {
      hide ReleaseItem;
      var row := FindRow(token);
      if row.None? {
        return false;
      }
      StatementsMakeTheOperation(View(), ReleaseOp(token), row.value, now);
      released := DeleteClaim(token);
      if released {
        var _ := WriteItem(row.value, Releasing, now);
      }
    }

    method CompleteWorkClaim(token: Token, refs: seq<string>, now: Time) returns (completed: bool)
      requires Valid()
      modifies this`goals, this`claims
      ensures Valid() && View() == CompleteClaim(old(View()), token, refs, now)
      ensures completed <==> (UniqueStrings(refs) != [] && old(LiveRowOf(View(), token, now).Some?
        && Admits(View(), LiveRowOf(View(), token, now).value, Completing(UniqueStrings(refs)))))
      ensures completed ==> !HasToken(View(), token)
    {
      hide UniqueStrings, Mutate, Admits, Coherent;
      var given := UniqueStrings(refs);
      if given == [] {
        return false;
      }
      var row := FindLiveRow(token, now);
      if row.None? {
        return false;
      }
      hide CompleteClaim;
      StatementsMakeTheOperation(View(), CompleteOp(token, refs), row.value, now);
      completed := WriteItem(row.value, Completing(given), now);
      if completed {
        var _ := DeleteClaim(token);
      }
    }

    method HandoffWork(input: HandoffInput, now: Time) returns (accepted: bool, claim: Option<Claim>)
      requires Valid()
      modifies this`claims, this`handoffs, this`nextToken
      ensures Valid() && ClaimedAs(View(), claim) == HandOffClaim(old(View()), input, now)
      ensures handoffs == old(handoffs) <==> !accepted
    {
      hide MayReceive, HandoffReason, UniqueStrings;
      HandOffKeepsCoherence(View(), input, now);
      claim := None;
      var row := FindLiveRow(input.token, now);
      if row.None? {
        return false, None;
      }
      var scopes := UniqueStrings(input.toAgentRoleScopes);
      if !MayReceive(ReadSnapshot(goals, row.value.0), row.value.1, input.toAgentId, scopes) {
        return false, None;
      }
      var entry := Handoff(row.value.0, row.value.1, claims[row.value].agentId, input.toAgentId,
                           HandoffReason(input.reason), UniqueStrings(input.evidenceRefs), now);
      handoffs := handoffs + [entry];
      claims := WithoutKey(claims, row.value);
      accepted := true;
      if input.toAgentId.Some? {
        var c := Claim(
            row.value.0, row.value.1, input.toAgentId.value, nextToken, scopes, now, LeaseEnd(now, input.leaseMs), now);
        claims := claims[row.value := c];
        nextToken := nextToken + 1;
        claim := Some(c);
      }
    }

    // -------------------------------------------------------------------------
    // Continuation
    // -------------------------------------------------------------------------

    method ConfigureContinuation(goalId: Id, mode: C.WakeMode, profile: Option<string>,
                                 minSeconds: Option<int>, maxSeconds: Option<int>, now: Time)
      requires goalId in goals
      modifies this`continuations
      ensures goalId in continuations && C.InRange(continuations[goalId]) && continuations[goalId].mode == mode
      ensures goalId in old(continuations) ==>
        && continuations[goalId].leaseOwner == old(continuations)[goalId].leaseOwner
        && continuations[goalId].leaseExpiresAt == old(continuations)[goalId].leaseExpiresAt
      ensures continuations == old(continuations)[goalId := C.Configure(
        if goalId in old(continuations) then Some(old(continuations)[goalId]) else None,
        mode, profile, minSeconds, maxSeconds, now)]
    {
      var current := if goalId in continuations then Some(continuations[goalId]) else None;
      continuations := continuations[goalId := C.Configure(current, mode, profile, minSeconds, maxSeconds, now)];
    }

    /** True exactly when the lease was free or had run out; the caller then owns it. */
    method AcquireContinuationLease(goalId: Id, owner: Id, now: Time, leaseMs: nat) returns (acquired: bool)
      modifies this`continuations
      ensures acquired <==> goalId in old(continuations) && !C.LeaseHeld(old(continuations)[goalId], now)
      ensures continuations == if goalId in old(continuations)
        then old(continuations)[goalId := C.Acquire(old(continuations)[goalId], owner, now, leaseMs)]
            else old(continuations)
    {
      if goalId !in continuations {
        return false;
      }
      var row := continuations[goalId];
      if C.LeaseHeld(row, now) {
        return false;
      }
      continuations := continuations[goalId :=
        row.(leaseOwner := Some(owner), leaseExpiresAt := Some(now + leaseMs), updatedAt := now)];
      acquired := true;
    }

    method SettleContinuation(goalId: Id, owner: Id, outcome: Outcome, error: Option<string>, now: Time)
      modifies this`continuations
      ensures continuations == if goalId in old(continuations)
        then old(continuations)[goalId := C.Settle(old(continuations)[goalId], owner, outcome, error, now)]
            else old(continuations)
    {
      if goalId in continuations && continuations[goalId].leaseOwner == Some(owner) {
        var row := continuations[goalId];
        var stall := C.IsStall(outcome, error);
        var interval := C.NextInterval(row, stall);
        continuations := continuations[goalId := row.(
          currentInterval := interval,
          nextWakeAt := C.WakeTime(row.mode, interval, now),
          lastWakeAt := Some(now),
          lastOutcome := Some(outcome),
          consecutiveNoChange := if stall then row.consecutiveNoChange + 1 else 0,
          leaseOwner := None,
          leaseExpiresAt := None,
          lastError := if error.Some? then Some(Clip(error.value, 4000)) else None,
          updatedAt := now)];
      }
    }
  }
}
