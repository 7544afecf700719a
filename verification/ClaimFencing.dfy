/**
 * Fencing of work claims over whole runs of the store: every token owns its
 * item during one stretch of time, stretches of different tokens on one item
 * never overlap, and a token that lost its row changes nothing any more.
 */
module ClaimFencing {
  import opened Text
  import opened GoalTypes
  import opened GoalController
  import opened GoalService
  import opened ClaimMutations
  import opened GoalTables

  // ---------------------------------------------------------------------------
  // What one operation does to the claim rows
  // ---------------------------------------------------------------------------

  predicate Kept(t: Tables, u: Tables, k: ClaimKey) {
    && k in t.claims && k in u.claims
    && u.claims[k].token == t.claims[k].token && u.claims[k].claimedAt == t.claims[k].claimedAt
  }

  /** Rows are kept, dropped, or issued now under a fresh token. */
  predicate RowsEvolve(t: Tables, u: Tables, now: Time) {
    && t.nextToken <= u.nextToken
    && (forall k :: k in u.claims ==>
          Kept(t, u, k) || (t.nextToken <= u.claims[k].token && u.claims[k].claimedAt == now))
  }

  /** A live row is lost only through its own token, or because its goal is archived or ended. */
  ghost predicate NoTheft(t: Tables, u: Tables, op: StoreOp, now: Time) {
    forall k :: k in t.claims && Live(t.claims[k], now) && !Kept(t, u, k) ==>
      || Presents(op) == Some(t.claims[k].token)
      || (op.PutOp? && op.goalId == k.0 && (op.next.Some? ==> ClosesClaims(op.next.value.status)))
  }

  ghost predicate StepOk(t: Tables, u: Tables, op: StoreOp, now: Time) {
    RowsEvolve(t, u, now) && NoTheft(t, u, op, now)
  }

  lemma PutSteps(t: Tables, goalId: Id, next: Option<Goal>, now: Time)
    ensures StepOk(t, PutSnapshot(t, goalId, next), PutOp(goalId, next), now)
  {
  }

  /** Rewriting a claimed goal without ending it keeps every row. */
  lemma MutateKeepsRows(t: Tables, goalId: Id, f: Goal -> Goal)
    requires Claimable(t.goals, goalId) && f(t.goals[goalId].goal).status == t.goals[goalId].goal.status
    ensures Mutate(t, goalId, f).claims == t.claims && Mutate(t, goalId, f).nextToken == t.nextToken
  {
  }

  lemma ClaimNextSteps(t: Tables, goalId: Id, agentId: Id, scopes: seq<string>, leaseMs: Option<nat>, now: Time)
    ensures StepOk(
        t, ClaimNext(t, goalId, agentId, scopes, leaseMs, now).tables,
        ClaimNextOp(goalId, agentId, scopes, leaseMs), now)
  {
    var r := ClaimNext(t, goalId, agentId, scopes, leaseMs, now);
    if r.claim.Some? {
      var k := (goalId, r.claim.value.workItemId);
      assert k.1 !in LiveItems(t.claims, goalId, now);
      assert k in t.claims && Live(t.claims[k], now) ==> k.1 in LiveItems(t.claims, goalId, now);
    }
  }

  lemma ClaimItemSteps(t: Tables, goalId: Id, itemId: Id, agentId: Id, scopes: seq<string>, leaseMs: Option<nat>,
                       now: Time)
    ensures StepOk(t, ClaimItem(t, goalId, itemId, agentId, scopes, leaseMs, now).tables,
                   ClaimItemOp(goalId, itemId, agentId, scopes, leaseMs), now)
  {
  }

  lemma MarkRunningSteps(t: Tables, token: Token, now: Time)
    requires Coherent(t)
    ensures StepOk(t, MarkClaimRunning(t, token, now), MarkRunningOp(token), now)
  {
    var row := LiveRowOf(t, token, now);
    if row.Some? {
      MutateKeepsRows(t, row.value.0, g => MarkRunning(g, row.value.1, now));
    }
  }

  lemma ReleaseSteps(t: Tables, token: Token, now: Time)
    requires Coherent(t)
    ensures StepOk(t, ReleaseClaim(t, token, now), ReleaseOp(token), now)
  {
    var row := RowOf(t, token);
    if row.Some? {
      MutateKeepsRows(
          t.(claims := WithoutKey(t.claims, row.value)), row.value.0, g => ReleaseItem(g, row.value.1, now));
    }
  }

  lemma CompleteSteps(t: Tables, token: Token, refs: seq<string>, now: Time)
    requires Coherent(t)
    ensures StepOk(t, CompleteClaim(t, token, refs, now), CompleteOp(token, refs), now)
  {
    var row := LiveRowOf(t, token, now);
    if row.Some? {
      MutateKeepsRows(t, row.value.0, g => CompleteItem(g, row.value.1, UniqueStrings(refs), now));
    }
  }

  lemma RenewSteps(t: Tables, token: Token, leaseMs: Option<nat>, now: Time)
    ensures StepOk(t, RenewClaim(t, token, leaseMs, now), RenewOp(token, leaseMs), now)
  {
  }

  lemma HandOffSteps(t: Tables, input: HandoffInput, now: Time)
    ensures StepOk(t, HandOffClaim(t, input, now).tables, HandoffOp(input), now)
  {
    hide MayReceive, HandoffReason;
  }

  lemma StatementSteps(t: Tables, op: StoreOp, now: Time)
    requires Coherent(t) && (op.WriteLeaseOp? || op.DeleteClaimOp? || op.WriteItemOp?)
    ensures StepOk(t, Apply(t, op, now), op, now)
  {
    if op.WriteItemOp? && Claimable(t.goals, op.key.0) {
      RewriteKeepsStatus(t.goals[op.key.0].goal, op.key.1, op.write, now);
      MutateKeepsRows(t, op.key.0, g => Rewrite(g, op.key.1, op.write, now));
    } else if op.WriteItemOp? {
      WritesElsewhere(t, op.key, op.write, now);
    }
  }

  /** A goal that cannot be claimed has no rows that a late write could purge. */
  lemma WritesElsewhere(t: Tables, k: ClaimKey, write: ItemWrite, now: Time)
    requires Coherent(t) && !Claimable(t.goals, k.0)
    ensures WriteItem(t, k, write, now).claims == t.claims && WriteItem(t, k, write, now).nextToken == t.nextToken
  {
    hide Rewrite;
  }

  lemma ApplySteps(t: Tables, op: StoreOp, now: Time)
    requires Coherent(t)
    ensures StepOk(t, Apply(t, op, now), op, now)
  {
    hide PutSnapshot, ClaimNext, ClaimItem, RenewClaim, MarkClaimRunning, ReleaseClaim, CompleteClaim, HandOffClaim;
    match op
    case PutOp(goalId, next) => PutSteps(t, goalId, next, now);
    case ClaimNextOp(goalId, agentId, scopes, leaseMs) => ClaimNextSteps(t, goalId, agentId, scopes, leaseMs, now);
    case ClaimItemOp(goalId, itemId, agentId, scopes, leaseMs) =>
        ClaimItemSteps(t, goalId, itemId, agentId, scopes, leaseMs, now);
    case RenewOp(token, leaseMs) => RenewSteps(t, token, leaseMs, now);
    case MarkRunningOp(token) => MarkRunningSteps(t, token, now);
    case ReleaseOp(token) => ReleaseSteps(t, token, now);
    case CompleteOp(token, refs) => CompleteSteps(t, token, refs, now);
    case HandoffOp(input) => HandOffSteps(t, input, now);
    case _ => StatementSteps(t, op, now);
  }

  // ---------------------------------------------------------------------------
  // Ownership over time
  // ---------------------------------------------------------------------------

  /** `token` owned the item from `from` until just before `until`. */
  datatype Tenure = Tenure(key: ClaimKey, token: Token, from: Time, until: Time)

  function Earlier(a: Time, b: Time): Time { if a <= b then a else b }

  /** The tenure of a row that disappears now: its lease, cut short at the present. */
  function Ended(c: Claim, k: ClaimKey, now: Time): Tenure {
    Tenure(k, c.token, c.claimedAt, Earlier(c.leaseExpiresAt, now))
  }

  /** The store together with every tenure that has ended so far. */
  datatype History = History(tables: Tables, ended: set<Tenure>, clock: Time)

  function EndedBy(h: History, u: Tables, now: Time): set<Tenure> {
    h.ended + (set k | k in h.tables.claims && !Kept(h.tables, u, k) :: Ended(h.tables.claims[k], k, now))
  }

  ghost function Advance(h: History, op: StoreOp, now: Time): History {
    var u := Apply(h.tables, op, now);
    History(u, EndedBy(h, u, now), now)
  }

  /** All tenures: the ended ones and one for each present row. */
  function Tenures(h: History): set<Tenure> {
    h.ended + (set k | k in h.tables.claims ::
      Tenure(k, h.tables.claims[k].token, h.tables.claims[k].claimedAt, h.tables.claims[k].leaseExpiresAt))
  }

  predicate Disjoint(a: Tenure, b: Tenure) {
    a.until <= b.from || b.until <= a.from
  }

  ghost predicate Fenced(h: History) {
    && Coherent(h.tables)
    && (forall k :: k in h.tables.claims ==> h.tables.claims[k].claimedAt <= h.clock)
    && (forall e :: e in h.ended ==> e.until <= h.clock && e.token < h.tables.nextToken && !HasToken(h.tables, e.token))
    && (forall e :: e in h.ended && e.key in h.tables.claims ==> e.until <= h.tables.claims[e.key].claimedAt)
    && (forall e, f :: e in h.ended && f in h.ended && e.key == f.key && e.token != f.token ==> Disjoint(e, f))
    && (forall e, f :: e in h.ended && f in h.ended && e.token == f.token ==> e == f)
  }

  lemma EndedTokensStayEnded(h: History, u: Tables, now: Time, token: Token)
    requires Coherent(h.tables) && RowsEvolve(h.tables, u, now)
    requires token < h.tables.nextToken && !HasToken(h.tables, token)
    ensures !HasToken(u, token)
  {
  }

  lemma VanishedTokenIsGone(t: Tables, u: Tables, now: Time, k: ClaimKey)
    requires Coherent(t) && RowsEvolve(t, u, now) && k in t.claims && !Kept(t, u, k)
    ensures !HasToken(u, t.claims[k].token)
  {
  }

  lemma EndedAreBehind(h: History, u: Tables, now: Time, e: Tenure)
    requires Fenced(h) && h.clock <= now && RowsEvolve(h.tables, u, now) && e in EndedBy(h, u, now)
    ensures e.until <= now && e.token < u.nextToken && !HasToken(u, e.token)
    ensures e.key in u.claims ==> e.until <= u.claims[e.key].claimedAt
  {
    if e in h.ended {
      EndedTokensStayEnded(h, u, now, e.token);
    } else {
      VanishedTokenIsGone(h.tables, u, now, e.key);
    }
  }

  lemma EndedAreApart(h: History, u: Tables, now: Time, e: Tenure, f: Tenure)
    requires Fenced(h) && h.clock <= now && e in EndedBy(h, u, now) && f in EndedBy(h, u, now)
    ensures e.key == f.key && e.token != f.token ==> Disjoint(e, f)
    ensures e.token == f.token ==> e == f
  {
    assert e !in h.ended ==> HasToken(h.tables, e.token);
    assert f !in h.ended ==> HasToken(h.tables, f.token);
  }

  lemma AdvanceKeepsFence(h: History, op: StoreOp, now: Time)
    requires Fenced(h) && h.clock <= now
    ensures Fenced(Advance(h, op, now))
    ensures h.ended <= Advance(h, op, now).ended
  {
    hide Apply, EndedBy, HasToken;
    ApplySteps(h.tables, op, now);
    ApplyKeepsCoherence(h.tables, op, now);
    var u := Apply(h.tables, op, now);
    forall e | e in EndedBy(h, u, now)
      ensures e.until <= now && e.token < u.nextToken && !HasToken(u, e.token)
      ensures e.key in u.claims ==> e.until <= u.claims[e.key].claimedAt
    {
      EndedAreBehind(h, u, now, e);
    }
    forall e, f | e in EndedBy(h, u, now) && f in EndedBy(h, u, now)
      ensures e.key == f.key && e.token != f.token ==> Disjoint(e, f)
      ensures e.token == f.token ==> e == f
    {
      EndedAreApart(h, u, now, e, f);
    }
    EndedOnlyGrow(h, u, now);
  }

  lemma EndedOnlyGrow(h: History, u: Tables, now: Time)
    ensures h.ended <= EndedBy(h, u, now)
  {
  }

  // ---------------------------------------------------------------------------
  // Whole runs
  // ---------------------------------------------------------------------------

  datatype TimedOp = TimedOp(op: StoreOp, at: Time)

  predicate ClockNonDecreasing(start: Time, ops: seq<TimedOp>) {
    && (forall i :: 0 <= i < |ops| ==> start <= ops[i].at)
    && (forall i, j :: 0 <= i < j < |ops| ==> ops[i].at <= ops[j].at)
  }

  ghost function Replay(h: History, ops: seq<TimedOp>): History
    decreases |ops|
  {
    if ops == [] then h else Replay(Advance(h, ops[0].op, ops[0].at), ops[1..])
  }

  lemma {:induction false} ReplayKeepsFence(h: History, ops: seq<TimedOp>)
    requires Fenced(h) && ClockNonDecreasing(h.clock, ops)
    ensures Fenced(Replay(h, ops)) && h.ended <= Replay(h, ops).ended
    decreases |ops|
  {
    if ops != [] {
      hide Advance, Fenced;
      AdvanceKeepsFence(h, ops[0].op, ops[0].at);
      AdvanceSetsClock(h, ops[0].op, ops[0].at);
      ReplayKeepsFence(Advance(h, ops[0].op, ops[0].at), ops[1..]);
    }
  }

  lemma AdvanceSetsClock(h: History, op: StoreOp, now: Time)
    ensures Advance(h, op, now).clock == now && Advance(h, op, now).tables == Apply(h.tables, op, now)
  {
  }

  const START: History := History(EMPTY_TABLES, {}, 0)

  /** In every run, the tenures of two tokens on one item never overlap, and no token has two tenures. */
  lemma OwnershipNeverOverlaps(ops: seq<TimedOp>, a: Tenure, b: Tenure)
    requires ClockNonDecreasing(0, ops)
    requires a in Tenures(Replay(START, ops)) && b in Tenures(Replay(START, ops))
    ensures a.key == b.key && a.token != b.token ==> Disjoint(a, b)
    ensures a.token == b.token ==> a == b
  {
    ReplayKeepsFence(START, ops);
    FenceSeparates(Replay(START, ops), a, b);
  }

  lemma FenceSeparates(h: History, a: Tenure, b: Tenure)
    requires Fenced(h) && a in Tenures(h) && b in Tenures(h)
    ensures a.key == b.key && a.token != b.token ==> Disjoint(a, b)
    ensures a.token == b.token ==> a == b
  {
    assert a !in h.ended ==> HasToken(h.tables, a.token);
    assert b !in h.ended ==> HasToken(h.tables, b.token);
  }

  /** An operation that presents a token without a row changes nothing at all. */
  lemma DeadTokenChangesNothing(t: Tables, op: StoreOp, now: Time)
    requires Presents(op).Some? && !HasToken(t, Presents(op).value)
    ensures Apply(t, op, now) == t
  {
  }

  /** A released, completed, handed-off or taken-over token is inert for the rest of every run. */
  lemma EndedTokenIsInertForever(ops: seq<TimedOp>, more: seq<TimedOp>, e: Tenure, op: StoreOp, now: Time)
    requires ClockNonDecreasing(0, ops) && e in Replay(START, ops).ended
    requires ClockNonDecreasing(Replay(START, ops).clock, more)
    requires Presents(op) == Some(e.token)
    ensures var later := Replay(Replay(START, ops), more).tables; Apply(later, op, now) == later
  {
    hide Apply, Replay;
    ReplayKeepsFence(START, ops);
    ReplayKeepsFence(Replay(START, ops), more);
    DeadTokenChangesNothing(Replay(Replay(START, ops), more).tables, op, now);
  }

  /** In every run, a claim row belongs to a stored goal that is neither archived, complete, cancelled nor blocked. */
  lemma ClaimsBelongToOpenGoals(ops: seq<TimedOp>, k: ClaimKey)
    requires ClockNonDecreasing(0, ops) && k in Replay(START, ops).tables.claims
    ensures Claimable(Replay(START, ops).tables.goals, k.0)
  {
    ReplayKeepsFence(START, ops);
  }

  /** A claim under a live lease is never taken over by another agent's operation. */
  lemma LiveClaimIsSafe(ops: seq<TimedOp>, op: StoreOp, now: Time, k: ClaimKey)
    requires ClockNonDecreasing(0, ops)
    requires k in Replay(START, ops).tables.claims && Live(Replay(START, ops).tables.claims[k], now)
    requires Presents(op) != Some(Replay(START, ops).tables.claims[k].token)
    requires op.PutOp? && op.goalId == k.0 ==> op.next.Some? && !ClosesClaims(op.next.value.status)
    ensures Kept(Replay(START, ops).tables, Apply(Replay(START, ops).tables, op, now), k)
  {
    hide Apply, Replay;
    ReplayKeepsFence(START, ops);
    ApplySteps(Replay(START, ops).tables, op, now);
  }

  // ---------------------------------------------------------------------------
  // What a holder can touch
  // ---------------------------------------------------------------------------

  /** The two goals agree on everything but the work items called `itemId`, revisions and counters aside. */
  predicate SameOutside(before: Goal, after: Goal, itemId: Id) {
    && after.status == before.status && after.objective == before.objective
    && |after.workItems| == |before.workItems|
    && forall i :: 0 <= i < |before.workItems| && before.workItems[i].id != itemId ==>
        after.workItems[i] == before.workItems[i]
  }

  /** A holder's operation changes no goal but its own and no work item but the one its row names. */
  lemma HolderTouchesOnlyItsItem(t: Tables, op: StoreOp, now: Time, goalId: Id)
    requires Coherent(t) && Presents(op).Some? && goalId in t.goals
    ensures var u := Apply(t, op, now); var row := RowOf(t, Presents(op).value);
      && goalId in u.goals
      && (u.goals[goalId] != t.goals[goalId] ==> row.Some? && row.value.0 == goalId)
      && (u.goals[goalId] != t.goals[goalId] ==> SameOutside(t.goals[goalId].goal, u.goals[goalId].goal, row.value.1))
  {
    hide SameOutside, MayReceive, HandoffReason, UniqueStrings;
    var row := RowOf(t, Presents(op).value);
    if row.Some? {
      var g := t.goals[row.value.0].goal;
      MutationsStayOnItem(g, row.value.1, now, if op.CompleteOp? then UniqueStrings(op.refs) else []);
    }
  }

  lemma MutationsStayOnItem(g: Goal, itemId: Id, now: Time, refs: seq<string>)
    ensures SameOutside(g, MarkRunning(g, itemId, now), itemId)
    ensures SameOutside(g, ReleaseItem(g, itemId, now), itemId)
    ensures SameOutside(g, CompleteItem(g, itemId, refs, now), itemId)
  {
  }
}
