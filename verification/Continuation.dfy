/**
 * The continuation row of a goal: a lease that one wake holds at a time, and a
 * wake interval that doubles while nothing changes and halves on progress.
 */
module Continuation {
  import opened Text
  import opened GoalTypes

  datatype WakeMode = Manual | Foreground | Scheduled

  datatype ContinuationRow = ContinuationRow(
    mode: WakeMode,
    profile: Option<string>,
    minInterval: nat,
    maxInterval: nat,
    currentInterval: nat,
    nextWakeAt: Option<Time>,
    lastWakeAt: Option<Time>,
    lastOutcome: Option<Outcome>,
    consecutiveNoChange: nat,
    leaseOwner: Option<Id>,
    leaseExpiresAt: Option<Time>,
    lastError: Option<string>,
    updatedAt: Time)

  function AtLeast(a: nat, b: nat): nat { if a >= b then a else b }
  function AtMost(a: nat, b: nat): nat { if a <= b then a else b }

  function ClampSeconds(value: int, low: nat, high: nat): (r: nat)
    requires low <= high
    ensures low <= r <= high
  {
    if value < low then low else if value > high then high else value
  }

  function WakeTime(mode: WakeMode, interval: nat, now: Time): Option<Time> {
    if mode.Scheduled? then Some(now + interval * 1000) else None
  }

  /** Reconfiguring keeps the lease and the outcome history, and pulls the interval into the new range. */
  function Configure(current: Option<ContinuationRow>, mode: WakeMode, profile: Option<string>,
                     minSeconds: Option<int>, maxSeconds: Option<int>, now: Time): ContinuationRow {
    var low := ClampSeconds(if minSeconds.Some? then minSeconds.value else 30, 1, 86_400);
    var high := ClampSeconds(if maxSeconds.Some? then maxSeconds.value else 1_800, low, 604_800);
    var interval := AtLeast(low, AtMost(if current.Some? then current.value.currentInterval else low, high));
    var wake := WakeTime(mode, interval, now);
    if current.None? then
      ContinuationRow(mode, profile, low, high, interval, wake, None, None, 0, None, None, None, now)
    else
      current.value.(mode := mode, profile := profile, minInterval := low, maxInterval := high,
                     currentInterval := interval, nextWakeAt := wake, lastError := None, updatedAt := now)
  }

  predicate LeaseHeld(c: ContinuationRow, now: Time) {
    c.leaseOwner.Some? && c.leaseExpiresAt.Some? && c.leaseExpiresAt.value > now
  }

  function Acquire(c: ContinuationRow, owner: Id, now: Time, leaseMs: nat): ContinuationRow {
    if LeaseHeld(c, now) then c
    else c.(leaseOwner := Some(owner), leaseExpiresAt := Some(now + leaseMs), updatedAt := now)
  }

  /** Outcomes that back off: a replan is an attempt, not a stall. */
  predicate IsStall(outcome: Outcome, error: Option<string>) {
    outcome.NoChange? || outcome.Failed? || outcome.Interrupted? || outcome.ValidationFailed?
    || (error.Some? && error.value != "")
  }

  function NextInterval(c: ContinuationRow, stall: bool): nat {
    if stall then AtMost(c.maxInterval, AtLeast(c.minInterval, c.currentInterval * 2))
    else AtLeast(c.minInterval, c.currentInterval / 2)
  }

  /** Only the owner of the lease settles; the lease is then free. */
  function Settle(c: ContinuationRow, owner: Id, outcome: Outcome, error: Option<string>, now: Time): ContinuationRow {
    if c.leaseOwner != Some(owner) then c
    else
      var stall := IsStall(outcome, error);
      var interval := NextInterval(c, stall);
      c.(currentInterval := interval,
         nextWakeAt := WakeTime(c.mode, interval, now),
         lastWakeAt := Some(now),
         lastOutcome := Some(outcome),
         consecutiveNoChange := if stall then c.consecutiveNoChange + 1 else 0,
         leaseOwner := None,
         leaseExpiresAt := None,
         lastError := if error.Some? then Some(Clip(error.value, 4000)) else None,
         updatedAt := now)
  }

  // ---------------------------------------------------------------------------
  // The interval stays in range
  // ---------------------------------------------------------------------------

  predicate InRange(c: ContinuationRow) {
    1 <= c.minInterval <= c.currentInterval <= c.maxInterval
  }

  datatype WakeOp =
    | ConfigureOp(mode: WakeMode, profile: Option<string>, minSeconds: Option<int>, maxSeconds: Option<int>)
    | AcquireOp(owner: Id, leaseMs: nat)
    | SettleOp(owner: Id, outcome: Outcome, error: Option<string>)

  function WakeStep(c: Option<ContinuationRow>, op: WakeOp, now: Time): Option<ContinuationRow> {
    match op
    case ConfigureOp(mode, profile, low, high) => Some(Configure(c, mode, profile, low, high, now))
    case AcquireOp(owner, leaseMs) => if c.None? then None else Some(Acquire(c.value, owner, now, leaseMs))
    case SettleOp(owner, outcome, error) => if c.None? then None else Some(Settle(c.value, owner, outcome, error, now))
  }

  function WakeRun(c: Option<ContinuationRow>, ops: seq<(WakeOp, Time)>): Option<ContinuationRow>
    decreases |ops|
  {
    if ops == [] then c else WakeRun(WakeStep(c, ops[0].0, ops[0].1), ops[1..])
  }

  /** Whatever is configured, leased and settled, the interval lies between its bounds. */
  lemma {:induction false} IntervalStaysInRange(c: Option<ContinuationRow>, ops: seq<(WakeOp, Time)>)
    requires c.Some? ==> InRange(c.value)
    ensures WakeRun(c, ops).Some? ==> InRange(WakeRun(c, ops).value)
    decreases |ops|
  {
    if ops != [] {
      IntervalStaysInRange(WakeStep(c, ops[0].0, ops[0].1), ops[1..]);
    }
  }

  // ---------------------------------------------------------------------------
  // What a wake leaves behind
  // ---------------------------------------------------------------------------

  /** Nothing changed, the turn failed, was interrupted or failed its validation, or an error is given. */
  predicate IsFruitless(outcome: Outcome, error: Option<string>) {
    outcome in {NoChange, Failed, Interrupted, ValidationFailed} || (error.Some? && |error.value| > 0)
  }

  /** Twice the interval, as far as the upper bound allows. */
  predicate IsDoubled(c: ContinuationRow, interval: nat) {
    if 2 * c.currentInterval <= c.maxInterval then interval == 2 * c.currentInterval else interval == c.maxInterval
  }

  /** Half the interval, rounded down, as far as the lower bound allows. */
  predicate IsHalved(c: ContinuationRow, interval: nat) {
    if c.currentInterval < 2 * c.minInterval then interval == c.minInterval
    else 2 * interval <= c.currentInterval < 2 * interval + 2
  }

  predicate IsDue(mode: WakeMode, wake: Option<Time>, interval: nat, now: Time) {
    if mode == Scheduled then wake == Some(now + 1000 * interval) else wake == None
  }

  predicate IsFirstPart(whole: Option<string>, part: Option<string>, n: nat) {
    && whole.Some? == part.Some?
    && (whole.Some? ==> part.value <= whole.value && |part.value| == if |whole.value| <= n then |whole.value| else n)
  }

  /**
   * A fruitless wake doubles the interval and counts as one more; every other wake,
   * a replan for instance, halves it and starts the count again. The lease is free,
   * the next wake comes after the new interval, and nothing else changes.
   */
  lemma OutcomeSetsInterval(c: ContinuationRow, owner: Id, outcome: Outcome, error: Option<string>, now: Time)
    requires InRange(c) && c.leaseOwner == Some(owner)
    ensures var next := Settle(c, owner, outcome, error, now);
      && (if IsFruitless(outcome, error)
          then IsDoubled(c, next.currentInterval) && next.consecutiveNoChange == c.consecutiveNoChange + 1
          else IsHalved(c, next.currentInterval) && next.consecutiveNoChange == 0)
      && IsDue(c.mode, next.nextWakeAt, next.currentInterval, now)
      && next.lastWakeAt == Some(now) && next.updatedAt == now && next.lastOutcome == Some(outcome)
      && IsFirstPart(error, next.lastError, 4000)
      && next.leaseOwner == None && next.leaseExpiresAt == None
      && next.mode == c.mode && next.profile == c.profile
      && next.minInterval == c.minInterval && next.maxInterval == c.maxInterval
  {
  }

  /** Whoever does not own the lease leaves the row alone. */
  lemma OnlyOwnerSettles(c: ContinuationRow, owner: Id, outcome: Outcome, error: Option<string>, now: Time)
    ensures Settle(c, owner, outcome, error, now) == c || c.leaseOwner == Some(owner)
  {
  }

  /** A lease is taken exactly when nobody holds one that outlasts the present, and then for the time asked for. */
  lemma LeaseIsTakenIff(c: ContinuationRow, owner: Id, now: Time, leaseMs: nat)
    ensures var next := Acquire(c, owner, now, leaseMs);
      if c.leaseOwner.Some? && c.leaseExpiresAt.Some? && now < c.leaseExpiresAt.value then next == c
      else
        && next.leaseOwner == Some(owner) && next.leaseExpiresAt == Some(now + leaseMs) && next.updatedAt == now
        && next == c.(leaseOwner := next.leaseOwner, leaseExpiresAt := next.leaseExpiresAt, updatedAt := now)
  {
  }

  /** The wanted bound, or the nearest one allowed. */
  predicate IsNearest(wanted: int, low: nat, high: nat, chosen: nat) {
    && low <= chosen <= high
    && (low <= wanted <= high ==> chosen == wanted)
    && (wanted < low ==> chosen == low)
    && (wanted > high ==> chosen == high)
  }

  /**
   * Whatever bounds are asked for, reconfiguring takes the nearest ones allowed,
   * moves the interval only as far as they demand, neither frees nor takes the
   * lease, and repeats without effect.
   */
  lemma ReconfiguringClamps(c: ContinuationRow, mode: WakeMode, profile: Option<string>, low: Option<int>,
                            high: Option<int>, now: Time)
    ensures var next := Configure(Some(c), mode, profile, low, high, now);
            && IsNearest(if low.Some? then low.value else 30, 1, 86_400, next.minInterval)
            && IsNearest(if high.Some? then high.value else 1_800, next.minInterval, 604_800, next.maxInterval)
            && IsNearest(c.currentInterval, next.minInterval, next.maxInterval, next.currentInterval)
            && next.mode == mode && next.profile == profile && next.lastError == None && next.updatedAt == now
            && IsDue(mode, next.nextWakeAt, next.currentInterval, now)
            && next.leaseOwner == c.leaseOwner && next.leaseExpiresAt == c.leaseExpiresAt
            && next.consecutiveNoChange == c.consecutiveNoChange
            && next.lastWakeAt == c.lastWakeAt && next.lastOutcome == c.lastOutcome
            && Configure(Some(next), mode, profile, low, high, now) == next
  {
  }

  /** The first configuration wakes at the lower bound, free and without a history. */
  lemma FirstConfiguration(mode: WakeMode, profile: Option<string>, low: Option<int>, high: Option<int>, now: Time)
    ensures var row := Configure(None, mode, profile, low, high, now);
      && IsNearest(if low.Some? then low.value else 30, 1, 86_400, row.minInterval)
      && IsNearest(if high.Some? then high.value else 1_800, row.minInterval, 604_800, row.maxInterval)
      && row.currentInterval == row.minInterval && row.consecutiveNoChange == 0
      && row.mode == mode && row.profile == profile && row.updatedAt == now
      && IsDue(mode, row.nextWakeAt, row.currentInterval, now)
      && row.leaseOwner == None && row.leaseExpiresAt == None
      && row.lastWakeAt == None && row.lastOutcome == None && row.lastError == None
  {
  }

  // ---------------------------------------------------------------------------
  // Back-off in closed form
  // ---------------------------------------------------------------------------

  function Pow2(k: nat): (p: nat)
    ensures p >= 1
  {
    if k == 0 then 1 else 2 * Pow2(k - 1)
  }

  datatype Wake = Wake(owner: Id, outcome: Outcome, error: Option<string>, startedAt: Time, settledAt: Time)

  /** Wakes that each take the free lease and settle it. */
  function Wakes(c: ContinuationRow, wakes: seq<Wake>): ContinuationRow
    decreases |wakes|
  {
    if wakes == [] then c
    else
      var before := Wakes(c, wakes[..|wakes| - 1]);
      var w := wakes[|wakes| - 1];
      Settle(Acquire(before, w.owner, w.startedAt, 15 * 60_000), w.owner, w.outcome, w.error, w.settledAt)
  }

  predicate AllFruitless(wakes: seq<Wake>) {
    forall w :: w in wakes ==> IsFruitless(w.outcome, w.error)
  }

  predicate NoneFruitless(wakes: seq<Wake>) {
    forall w :: w in wakes ==> !IsFruitless(w.outcome, w.error)
  }

  /** `k` fruitless wakes in a row give `min(max, i * 2^k)`. */
  lemma {:induction false} StallsDouble(c: ContinuationRow, wakes: seq<Wake>)
    requires InRange(c) && c.leaseOwner.None? && AllFruitless(wakes)
    ensures var after := Wakes(c, wakes);
      && after.currentInterval == AtMost(c.maxInterval, c.currentInterval * Pow2(|wakes|))
      && after.consecutiveNoChange == c.consecutiveNoChange + |wakes|
      && after.leaseOwner.None? && after.minInterval == c.minInterval && after.maxInterval == c.maxInterval
    decreases |wakes|
  {
    if wakes != [] {
      var n := |wakes| - 1;
      StallsDouble(c, wakes[..n]);
      assert wakes[n] in wakes;
      DoubleOnce(c.minInterval, c.maxInterval, c.currentInterval, Pow2(n));
    }
  }

  lemma DoubleOnce(low: nat, high: nat, i: nat, p: nat)
    requires low <= i <= high && p >= 1
    ensures AtMost(high, AtLeast(low, AtMost(high, i * p) * 2)) == AtMost(high, i * (2 * p))
  {
    assert i * (2 * p) == 2 * (i * p);
    GrowsBy(i, p);
  }

  lemma GrowsBy(a: nat, b: nat)
    requires b >= 1
    ensures a * b >= a
  {
  }

  lemma HalveOnce(a: nat, p: nat)
    requires p >= 1
    ensures (a / p) / 2 == a / (2 * p)
  {
    var q, r := a / p, a % p;
    assert a == p * q + r;
    var h, e := q / 2, q % 2;
    assert a == 2 * p * h + (p * e + r) by {
      assert q == 2 * h + e;
      assert p * (2 * h + e) == 2 * p * h + p * e;
    }
    assert p * e <= p by { assert e <= 1; GrowsBy(p, 1); }
    DivisionIs(a, 2 * p, h, p * e + r);
  }

  lemma DivisionIs(a: nat, d: nat, q: nat, r: nat)
    requires d >= 1 && a == d * q + r && r < d
    ensures a / d == q
  {
    var k := q - a / d;
    assert a == d * (a / d) + a % d;
    assert d * k == a % d - r;
    SmallMultiple(d, k);
  }

  lemma SmallMultiple(d: int, k: int)
    requires -d < d * k < d
    ensures k == 0
  {
    assert k >= 1 ==> d * k >= d;
    assert k <= -1 ==> d * k <= -d;
  }

  /** `k` other wakes in a row give `max(min, floor(i / 2^k))`. */
  lemma {:induction false} ProgressHalves(c: ContinuationRow, wakes: seq<Wake>)
    requires InRange(c) && c.leaseOwner.None? && NoneFruitless(wakes)
    ensures var after := Wakes(c, wakes);
      && after.currentInterval == AtLeast(c.minInterval, c.currentInterval / Pow2(|wakes|))
      && (wakes != [] ==> after.consecutiveNoChange == 0)
      && after.leaseOwner.None? && after.minInterval == c.minInterval && after.maxInterval == c.maxInterval
    decreases |wakes|
  {
    if wakes != [] {
      var n := |wakes| - 1;
      ProgressHalves(c, wakes[..n]);
      assert wakes[n] in wakes;
      HalveOnce(c.currentInterval, Pow2(n));
    }
  }

  // ---------------------------------------------------------------------------
  // The lease
  // ---------------------------------------------------------------------------

  /** A wake whose lease was taken over cannot settle over its successor. */
  lemma SupersededOwnerSettlesNothing(c: ContinuationRow, first: Id, second: Id, t1: Time, t2: Time, lease1: nat,
                                      lease2: nat,
                                      outcome: Outcome, error: Option<string>, now: Time)
    requires first != second && c.leaseOwner.None?
    ensures var taken := Acquire(Acquire(c, first, t1, lease1), second, t2, lease2);
      Settle(taken, first, outcome, error, now) == taken <==> t2 >= t1 + lease1
  {
  }

  /** A wake loses its lease only by settling, or to an acquisition after its expiry. */
  lemma LeaseEndsExactlyBy(c: ContinuationRow, op: WakeOp, now: Time, owner: Id)
    requires c.leaseOwner == Some(owner) && c.leaseExpiresAt.Some?
    ensures WakeStep(Some(c), op, now).Some?
    ensures WakeStep(Some(c), op, now).value.leaseOwner != Some(owner) <==>
              (op.SettleOp? && op.owner == owner)
                  || (op.AcquireOp? && op.owner != owner && now >= c.leaseExpiresAt.value)
  {
  }

  /**
   * Until the lease expires, its owner keeps it whatever the others configure,
   * acquire or settle; and it alone moves the interval.
   */
  lemma {:induction false} LeaseIsExclusive(c: ContinuationRow, ops: seq<(WakeOp, Time)>, owner: Id)
    requires c.leaseOwner == Some(owner) && c.leaseExpiresAt.Some?
    requires forall i :: 0 <= i < |ops| ==>
        ops[i].1 < c.leaseExpiresAt.value && !(ops[i].0.SettleOp? && ops[i].0.owner == owner)
    ensures WakeRun(Some(c), ops).Some?
    ensures var after := WakeRun(Some(c), ops).value;
            && after.leaseOwner == Some(owner) && after.leaseExpiresAt == c.leaseExpiresAt
            && after.consecutiveNoChange == c.consecutiveNoChange && after.lastOutcome == c.lastOutcome
            && ((forall i :: 0 <= i < |ops| ==> !ops[i].0.ConfigureOp?) ==> after == c)
    decreases |ops|
  {
    if ops != [] {
      assert ops[0].1 < c.leaseExpiresAt.value;
      var next := WakeStep(Some(c), ops[0].0, ops[0].1).value;
      assert next.leaseOwner == Some(owner) && next.leaseExpiresAt == c.leaseExpiresAt;
      LeaseIsExclusive(next, ops[1..], owner);
    }
  }
}
