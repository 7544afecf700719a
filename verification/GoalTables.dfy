/**
 * The tables of the project goal store and what one transaction does to them.
 * Claims are keyed by goal and work item; a claim token is a number that is
 * never issued twice.
 */
module GoalTables {
  import opened Text
  import opened GoalTypes
  import opened GoalController
  import opened GoalService
  import opened ClaimMutations

  type Token = nat
  type ClaimKey = (Id, Id)

  datatype Claim = Claim(
    goalId: Id,
    workItemId: Id,
    agentId: Id,
    token: Token,
    roleScopes: seq<string>,
    claimedAt: Time,
    leaseExpiresAt: Time,
    updatedAt: Time)

  datatype GoalRow = GoalRow(goal: Goal, archived: bool)

  datatype Handoff = Handoff(
    goalId: Id,
    workItemId: Id,
    fromAgentId: Id,
    toAgentId: Option<Id>,
    reason: string,
    evidenceRefs: seq<string>,
    at: Time)

  datatype Tables = Tables(
    goals: map<Id, GoalRow>,
    claims: map<ClaimKey, Claim>,
    handoffs: seq<Handoff>,
    nextToken: Token)

  const DEFAULT_LEASE_MS: nat := 15 * 60 * 1000
  const MIN_LEASE_MS: nat := 1000

  function LeaseEnd(now: Time, leaseMs: Option<nat>): Time {
    var wanted := if leaseMs.Some? then leaseMs.value else DEFAULT_LEASE_MS;
    now + if wanted < MIN_LEASE_MS then MIN_LEASE_MS else wanted
  }

  predicate Live(c: Claim, now: Time) {
    c.leaseExpiresAt > now
  }

  predicate ClosesClaims(s: GoalStatus) {
    s.Complete? || s.Cancelled? || s.Blocked?
  }

  // ---------------------------------------------------------------------------
  // Snapshots
  // ---------------------------------------------------------------------------

  function ReadSnapshot(goals: map<Id, GoalRow>, goalId: Id): Option<Goal> {
    if goalId in goals && !goals[goalId].archived then Some(goals[goalId].goal) else None
  }

  function WithoutGoal(claims: map<ClaimKey, Claim>, goalId: Id): (r: map<ClaimKey, Claim>)
    ensures forall k :: k in r <==> k in claims && k.0 != goalId
    ensures forall k :: k in r ==> r[k] == claims[k]
  {
    map k | k in claims && k.0 != goalId :: claims[k]
  }

  function WithoutKey(claims: map<ClaimKey, Claim>, key: ClaimKey): (r: map<ClaimKey, Claim>)
    ensures forall k :: k in r <==> k in claims && k != key
    ensures forall k :: k in r ==> r[k] == claims[k]
  {
    map k | k in claims && k != key :: claims[k]
  }

  /** Stores a snapshot, or archives the goal; ended goals lose their claims. */
  function PutSnapshot(t: Tables, goalId: Id, next: Option<Goal>): Tables {
    if next.None? then
      t.(goals := if goalId in t.goals then t.goals[goalId := t.goals[goalId].(archived := true)] else t.goals,
         claims := WithoutGoal(t.claims, goalId))
    else
      t.(goals := t.goals[goalId := GoalRow(next.value, false)],
         claims := if ClosesClaims(next.value.status) then WithoutGoal(t.claims, goalId) else t.claims)
  }

  /** Rewrites the snapshot of a goal by `f`. */
  function Mutate(t: Tables, goalId: Id, f: Goal -> Goal): Tables {
    var current := ReadSnapshot(t.goals, goalId);
    PutSnapshot(t, goalId, if current.Some? then Some(f(current.value)) else None)
  }

  // ---------------------------------------------------------------------------
  // Claiming
  // ---------------------------------------------------------------------------

  function LiveItems(claims: map<ClaimKey, Claim>, goalId: Id, now: Time): set<Id> {
    set k | k in claims && k.0 == goalId && Live(claims[k], now) :: k.1
  }

  predicate SharesScope(item: WorkItem, scopes: seq<string>) {
    exists s :: s in item.roleScopes && s in scopes
  }

  predicate MayClaimNext(item: WorkItem, completed: set<Id>, live: set<Id>, agentId: Id, scopes: seq<string>) {
    && IsRunnable(item, completed)
    && item.id !in live
    && agentId !in item.excludedAgentIds
    && (item.roleScopes == [] || SharesScope(item, scopes))
  }

  function NextClaimIndex(items: seq<WorkItem>, live: set<Id>, agentId: Id, scopes: seq<string>): (b: Option<nat>)
    ensures b.Some? ==> b.value < |items| && MayClaimNext(items[b.value], CompletedIds(items), live, agentId, scopes)
  {
    BestIndex(items, x => MayClaimNext(x, CompletedIds(items), live, agentId, scopes), |items|)
  }

  function NewClaim(t: Tables, key: ClaimKey, agentId: Id, scopes: seq<string>, leaseMs: Option<nat>,
                    now: Time): Claim {
    Claim(key.0, key.1, agentId, t.nextToken, scopes, now, LeaseEnd(now, leaseMs), now)
  }

  function InsertClaim(t: Tables, c: Claim): Tables {
    t.(claims := t.claims[(c.goalId, c.workItemId) := c], nextToken := t.nextToken + 1)
  }

  datatype Claimed = ClaimedAs(tables: Tables, claim: Option<Claim>)

  function ClaimNext(t: Tables, goalId: Id, agentId: Id, scopes: seq<string>, leaseMs: Option<nat>,
                     now: Time): Claimed {
    var goal := ReadSnapshot(t.goals, goalId);
    if goal.None? || !goal.value.status.Active? then ClaimedAs(t, None)
    else
      var items := goal.value.workItems;
      var best := NextClaimIndex(items, LiveItems(t.claims, goalId, now), agentId, UniqueStrings(scopes));
      if best.None? then ClaimedAs(t, None)
      else
        var c := NewClaim(t, (goalId, items[best.value].id), agentId, UniqueStrings(scopes), leaseMs, now);
        ClaimedAs(InsertClaim(t, c), Some(c))
  }

  predicate MayClaimItem(item: WorkItem, completed: set<Id>, agentId: Id, scopes: seq<string>) {
    && IsRunnable(item, completed)
    && agentId !in item.excludedAgentIds
    && (scopes == [] || item.roleScopes == [] || SharesScope(item, scopes))
  }

  /** A live claim is handed back to its own agent and refused to every other. */
  function ClaimItem(t: Tables, goalId: Id, workItemId: Id, agentId: Id, scopes: seq<string>, leaseMs: Option<nat>,
                     now: Time): Claimed {
    var goal := ReadSnapshot(t.goals, goalId);
    var key := (goalId, workItemId);
    if goal.None? || !goal.value.status.Active? then ClaimedAs(t, None)
    else if key in t.claims && Live(t.claims[key], now) then
      ClaimedAs(t, if t.claims[key].agentId == agentId then Some(t.claims[key]) else None)
    else
      var items := goal.value.workItems;
      var i := IndexOfId(items, workItemId);
      if i == |items| || !MayClaimItem(items[i], CompletedIds(items), agentId, UniqueStrings(scopes))
          then ClaimedAs(t, None)
      else
        var c := NewClaim(t, key, agentId, UniqueStrings(scopes), leaseMs, now);
        ClaimedAs(InsertClaim(t, c), Some(c))
  }

  // ---------------------------------------------------------------------------
  // Operations of a claim holder
  // ---------------------------------------------------------------------------

  ghost predicate HasToken(t: Tables, token: Token) {
    exists k :: k in t.claims && t.claims[k].token == token
  }

  /** The row that a token names. */
  ghost function RowOf(t: Tables, token: Token): (r: Option<ClaimKey>)
    ensures r.Some? <==> HasToken(t, token)
    ensures r.Some? ==> r.value in t.claims && t.claims[r.value].token == token
  {
    if HasToken(t, token) then
      var k :| k in t.claims && t.claims[k].token == token;
      Some(k)
    else None
  }

  ghost function LiveRowOf(t: Tables, token: Token, now: Time): (r: Option<ClaimKey>)
    ensures r.Some? ==> r == RowOf(t, token) && Live(t.claims[r.value], now)
  {
    var r := RowOf(t, token);
    if r.Some? && Live(t.claims[r.value], now) then r else None
  }

  ghost function RenewClaim(t: Tables, token: Token, leaseMs: Option<nat>, now: Time): Tables {
    var row := LiveRowOf(t, token, now);
    if row.None? then t
    else t.(claims := t.claims[row.value := t.claims[row.value].(
        leaseExpiresAt := LeaseEnd(now, leaseMs), updatedAt := now)])
  }

  ghost function MarkClaimRunning(t: Tables, token: Token, now: Time): Tables {
    var row := LiveRowOf(t, token, now);
    if row.None? then t
    else Mutate(t, row.value.0, g => MarkRunning(g, row.value.1, now))
  }

  /** Releasing needs the row but not a live lease. */
  ghost function ReleaseClaim(t: Tables, token: Token, now: Time): Tables {
    var row := RowOf(t, token);
    if row.None? then t
    else Mutate(t.(claims := WithoutKey(t.claims, row.value)), row.value.0, g => ReleaseItem(g, row.value.1, now))
  }

  /** Completing needs evidence; a claim whose item was already done is kept. */
  ghost function CompleteClaim(t: Tables, token: Token, refs: seq<string>, now: Time): Tables {
    var row := LiveRowOf(t, token, now);
    if UniqueStrings(refs) == [] || row.None? then t
    else
      var goal := ReadSnapshot(t.goals, row.value.0);
      var u := Mutate(t, row.value.0, g => CompleteItem(g, row.value.1, UniqueStrings(refs), now));
      if goal.Some? && CanComplete(goal.value, row.value.1) then u.(claims := WithoutKey(u.claims, row.value)) else u
  }

  datatype HandoffInput = HandoffInput(
    token: Token,
    reason: string,
    toAgentId: Option<Id>,
    toAgentRoleScopes: seq<string>,
    evidenceRefs: seq<string>,
    leaseMs: Option<nat>)

  /** The receiver must be allowed on the item, when the item can be found. */
  predicate MayReceive(goal: Option<Goal>, workItemId: Id, toAgentId: Option<Id>, scopes: seq<string>) {
    toAgentId.Some? && goal.Some? && IndexOfId(goal.value.workItems, workItemId) < |goal.value.workItems| ==>
      var item := goal.value.workItems[IndexOfId(goal.value.workItems, workItemId)];
      && toAgentId.value !in item.excludedAgentIds
      && (item.roleScopes == [] || SharesScope(item, scopes))
  }

  function HandoffReason(reason: string): string {
    if IsBlank(reason) then "handoff" else Trim(reason)
  }

  /** Records the handoff and, with a receiver, replaces the claim by a new token in one step. */
  ghost function HandOffClaim(t: Tables, input: HandoffInput, now: Time): Claimed {
    var row := LiveRowOf(t, input.token, now);
    var scopes := UniqueStrings(input.toAgentRoleScopes);
    if row.None? || !MayReceive(ReadSnapshot(t.goals, row.value.0), row.value.1, input.toAgentId, scopes)
        then ClaimedAs(t, None)
    else
      var entry := Handoff(row.value.0, row.value.1, t.claims[row.value].agentId, input.toAgentId,
                           HandoffReason(input.reason), UniqueStrings(input.evidenceRefs), now);
      var u := t.(handoffs := t.handoffs + [entry], claims := WithoutKey(t.claims, row.value));
      if input.toAgentId.None? then ClaimedAs(u, None)
      else
        var c := NewClaim(u, row.value, input.toAgentId.value, scopes, input.leaseMs, now);
        ClaimedAs(InsertClaim(u, c), Some(c))
  }

  // ---------------------------------------------------------------------------
  // Single statements
  // ---------------------------------------------------------------------------

  // Renewing, marking, releasing and completing read the row of their token first and
  // write in later statements, each of which meets whatever others have done meanwhile.

  ghost function WriteLease(t: Tables, token: Token, until: Time, now: Time): Tables {
    var row := RowOf(t, token);
    if row.None? then t
    else t.(claims := t.claims[row.value := t.claims[row.value].(leaseExpiresAt := until, updatedAt := now)])
  }

  ghost function DeleteClaim(t: Tables, token: Token): Tables {
    var row := RowOf(t, token);
    if row.None? then t else t.(claims := WithoutKey(t.claims, row.value))
  }

  function WriteItem(t: Tables, k: ClaimKey, write: ItemWrite, now: Time): Tables {
    Mutate(t, k.0, g => Rewrite(g, k.1, write, now))
  }

  // ---------------------------------------------------------------------------
  // All store operations
  // ---------------------------------------------------------------------------

  datatype StoreOp =
    | PutOp(goalId: Id, next: Option<Goal>)
    | ClaimNextOp(goalId: Id, agentId: Id, scopes: seq<string>, leaseMs: Option<nat>)
    | ClaimItemOp(goalId: Id, workItemId: Id, agentId: Id, scopes: seq<string>, leaseMs: Option<nat>)
    | RenewOp(token: Token, leaseMs: Option<nat>)
    | MarkRunningOp(token: Token)
    | ReleaseOp(token: Token)
    | CompleteOp(token: Token, refs: seq<string>)
    | HandoffOp(input: HandoffInput)
    | WriteLeaseOp(token: Token, until: Time)
    | DeleteClaimOp(token: Token)
    | WriteItemOp(key: ClaimKey, write: ItemWrite)

  ghost function Apply(t: Tables, op: StoreOp, now: Time): Tables {
    match op
    case PutOp(goalId, next) => PutSnapshot(t, goalId, next)
    case ClaimNextOp(goalId, agentId, scopes, leaseMs) => ClaimNext(t, goalId, agentId, scopes, leaseMs, now).tables
    case ClaimItemOp(goalId, itemId, agentId, scopes, leaseMs) =>
        ClaimItem(t, goalId, itemId, agentId, scopes, leaseMs, now).tables
    case RenewOp(token, leaseMs) => RenewClaim(t, token, leaseMs, now)
    case MarkRunningOp(token) => MarkClaimRunning(t, token, now)
    case ReleaseOp(token) => ReleaseClaim(t, token, now)
    case CompleteOp(token, refs) => CompleteClaim(t, token, refs, now)
    case HandoffOp(input) => HandOffClaim(t, input, now).tables
    case WriteLeaseOp(token, until) => WriteLease(t, token, until, now)
    case DeleteClaimOp(token) => DeleteClaim(t, token)
    case WriteItemOp(key, write) => WriteItem(t, key, write, now)
  }

  /** The token an operation presents, if it is a claim holder's operation. */
  function Presents(op: StoreOp): Option<Token> {
    match op
    case RenewOp(token, _) => Some(token)
    case MarkRunningOp(token) => Some(token)
    case ReleaseOp(token) => Some(token)
    case CompleteOp(token, _) => Some(token)
    case HandoffOp(input) => Some(input.token)
    case WriteLeaseOp(token, _) => Some(token)
    case DeleteClaimOp(token) => Some(token)
    case _ => None
  }

  // ---------------------------------------------------------------------------
  // Coherence
  // ---------------------------------------------------------------------------

  ghost predicate DistinctTokens(t: Tables) {
    && (forall k :: k in t.claims ==> t.claims[k].token < t.nextToken)
    && (forall j, k :: j in t.claims && k in t.claims && t.claims[j].token == t.claims[k].token ==> j == k)
  }

  ghost predicate KeyedByItem(t: Tables) {
    forall k :: k in t.claims ==> t.claims[k].goalId == k.0 && t.claims[k].workItemId == k.1
  }

  predicate Claimable(goals: map<Id, GoalRow>, goalId: Id) {
    goalId in goals && !goals[goalId].archived && !ClosesClaims(goals[goalId].goal.status)
  }

  /** Only stored goals that are neither archived nor ended have claims. */
  ghost predicate ClaimsAreOpen(t: Tables) {
    forall k :: k in t.claims ==> Claimable(t.goals, k.0)
  }

  ghost predicate Coherent(t: Tables) {
    DistinctTokens(t) && KeyedByItem(t) && ClaimsAreOpen(t)
  }

  const EMPTY_TABLES: Tables := Tables(map[], map[], [], 0)

  lemma PutKeepsCoherence(t: Tables, goalId: Id, next: Option<Goal>)
    requires Coherent(t)
    ensures Coherent(PutSnapshot(t, goalId, next))
  {
  }

  lemma MutateKeepsCoherence(t: Tables, goalId: Id, f: Goal -> Goal)
    requires Coherent(t)
    ensures Coherent(Mutate(t, goalId, f))
  {
    PutKeepsCoherence(t, goalId, var g := ReadSnapshot(t.goals, goalId); if g.Some? then Some(f(g.value)) else None);
  }

  lemma InsertKeepsCoherence(t: Tables, c: Claim)
    requires Coherent(t) && c.token == t.nextToken && Claimable(t.goals, c.goalId)
    ensures Coherent(InsertClaim(t, c))
  {
  }

  lemma RemoveKeepsCoherence(t: Tables, key: ClaimKey)
    requires Coherent(t)
    ensures Coherent(t.(claims := WithoutKey(t.claims, key)))
  {
  }

  lemma ClaimsKeepCoherence(t: Tables, goalId: Id, workItemId: Id, agentId: Id, scopes: seq<string>,
                            leaseMs: Option<nat>, now: Time)
    requires Coherent(t)
    ensures Coherent(ClaimNext(t, goalId, agentId, scopes, leaseMs, now).tables)
    ensures Coherent(ClaimItem(t, goalId, workItemId, agentId, scopes, leaseMs, now).tables)
  {
    var next := ClaimNext(t, goalId, agentId, scopes, leaseMs, now);
    if next.claim.Some? {
      InsertKeepsCoherence(t, next.claim.value);
    }
    var one := ClaimItem(t, goalId, workItemId, agentId, scopes, leaseMs, now);
    if one.tables != t {
      InsertKeepsCoherence(t, one.claim.value);
    }
  }

  lemma ReleaseKeepsCoherence(t: Tables, token: Token, now: Time)
    requires Coherent(t)
    ensures Coherent(ReleaseClaim(t, token, now))
  {
    var row := RowOf(t, token);
    if row.Some? {
      RemoveKeepsCoherence(t, row.value);
      MutateKeepsCoherence(
          t.(claims := WithoutKey(t.claims, row.value)), row.value.0, g => ReleaseItem(g, row.value.1, now));
    }
  }

  lemma CompleteKeepsCoherence(t: Tables, token: Token, refs: seq<string>, now: Time)
    requires Coherent(t)
    ensures Coherent(CompleteClaim(t, token, refs, now))
  {
    var row := LiveRowOf(t, token, now);
    if row.Some? {
      var f := g => CompleteItem(g, row.value.1, UniqueStrings(refs), now);
      MutateKeepsCoherence(t, row.value.0, f);
      RemoveKeepsCoherence(Mutate(t, row.value.0, f), row.value);
    }
  }

  lemma HandOffKeepsCoherence(t: Tables, input: HandoffInput, now: Time)
    requires Coherent(t)
    ensures Coherent(HandOffClaim(t, input, now).tables)
  {
    var row := LiveRowOf(t, input.token, now);
    var r := HandOffClaim(t, input, now);
    if row.Some? && r.tables != t {
      var u := t.(handoffs := r.tables.handoffs, claims := WithoutKey(t.claims, row.value));
      RemoveKeepsCoherence(t, row.value);
      assert Coherent(u);
      if r.claim.Some? {
        InsertKeepsCoherence(u, r.claim.value);
      }
    }
  }

  lemma LeaseKeepsCoherence(t: Tables, token: Token, until: Time, now: Time)
    requires Coherent(t)
    ensures Coherent(WriteLease(t, token, until, now))
  {
  }

  lemma DeletionKeepsCoherence(t: Tables, token: Token)
    requires Coherent(t)
    ensures Coherent(DeleteClaim(t, token))
  {
    hide Coherent;
    if HasToken(t, token) {
      RemoveKeepsCoherence(t, RowOf(t, token).value);
    }
  }

  lemma WriteKeepsCoherence(t: Tables, k: ClaimKey, write: ItemWrite, now: Time)
    requires Coherent(t)
    ensures Coherent(WriteItem(t, k, write, now))
  {
    hide Coherent, Mutate;
    MutateKeepsCoherence(t, k.0, g => Rewrite(g, k.1, write, now));
  }

  /** No interleaving of operations and single statements leaves a claim on an ended goal, or one token in two rows. */
  lemma ApplyKeepsCoherence(t: Tables, op: StoreOp, now: Time)
    requires Coherent(t)
    ensures Coherent(Apply(t, op, now))
  {
    hide PutSnapshot, ClaimNext, ClaimItem, ReleaseClaim, CompleteClaim, HandOffClaim, Mutate;
    hide WriteLease, DeleteClaim, WriteItem;
    match op
    case PutOp(goalId, next) => PutKeepsCoherence(t, goalId, next);
    case ClaimNextOp(goalId, agentId, scopes, leaseMs) =>
        ClaimsKeepCoherence(t, goalId, "", agentId, scopes, leaseMs, now);
    case ClaimItemOp(goalId, itemId, agentId, scopes, leaseMs) =>
        ClaimsKeepCoherence(t, goalId, itemId, agentId, scopes, leaseMs, now);
    case RenewOp(token, leaseMs) =>
    case MarkRunningOp(token) =>
      var row := LiveRowOf(t, token, now);
      if row.Some? { MutateKeepsCoherence(t, row.value.0, g => MarkRunning(g, row.value.1, now)); }
    case ReleaseOp(token) => ReleaseKeepsCoherence(t, token, now);
    case CompleteOp(token, refs) => CompleteKeepsCoherence(t, token, refs, now);
    case HandoffOp(input) => HandOffKeepsCoherence(t, input, now);
    case WriteLeaseOp(token, until) => LeaseKeepsCoherence(t, token, until, now);
    case DeleteClaimOp(token) => DeletionKeepsCoherence(t, token);
    case WriteItemOp(key, write) => WriteKeepsCoherence(t, key, write, now);
  }
}
