/**
 * The life of an E2B desktop sandbox as a protocol over the variables
 * `sandbox`, `pending` and `closing` of the computer-use toolkit. A step is
 * what runs between two suspension points; the steps of any number of callers
 * interleave freely.
 */
module SandboxLifecycle {

  import opened GoalTypes

  type Box = nat       // a sandbox the provider created
  type Creation = nat  // one call of the sandbox factory
  type Closing = nat   // one cleanup operation

  const MAX_ATTEMPTS := 3

  datatype Outcome = Created(box: Box) | NotCreated

  /** Where the body of the current cleanup is suspended. */
  datatype Cleanup =
    | Idle
    | AwaitingCreation(creation: Creation)
    | Killing(current: Box, attempt: nat)
    | Delaying(current: Box, attempt: nat)
    | Finished(ok: bool, target: Option<Box>)  // the body has returned, its `finally` has not run

  /**
   * `inFlight` are the creations the provider has not answered, `settling`
   * those answered whose `finally` has not run. `waiting` are the start calls
   * suspended on a cleanup operation, by operation. `created` and `killed`
   * record what the provider answered.
   */
  datatype State = State(
    sandbox: Option<Box>,
    pending: Option<Creation>,
    closing: Option<Closing>,
    cleanup: Cleanup,
    inFlight: set<Creation>,
    settling: set<Creation>,
    outcomes: map<Creation, Outcome>,
    waiting: multiset<Closing>,
    created: set<Box>,
    killed: set<Box>,
    nextCreation: Creation,
    nextClosing: Closing)

  const INITIAL: State := State(None, None, None, Idle, {}, {}, map[], multiset{}, {}, {}, 0, 0)

  datatype Event =
    | Start
    | StartResumed(closing: Closing, cleaned: bool)
    | CreationSucceeded(creation: Creation, box: Box)
    | CreationFailed(creation: Creation)
    | CreationSettled(creation: Creation)
    | Close
    | AwaitSucceeded
    | AwaitFailed
    | KillAcknowledged
    | KillFailed
    | DelayOver
    | CloseSettled

  /** The rest of a start call, once it no longer waits for a cleanup. */
  function Started(s: State): State {
    if s.sandbox.Some? || s.pending.Some? then s
    else s.(pending := Some(s.nextCreation), inFlight := s.inFlight + {s.nextCreation},
        nextCreation := s.nextCreation + 1)
  }

  /** A cleanup up to its first suspension point. */
  function CleanupStarted(s: State): Cleanup {
    if s.sandbox.Some? then Killing(s.sandbox.value, 1)
    else if s.pending.Some? then AwaitingCreation(s.pending.value)
    else Finished(true, None)
  }

  /** The wait for the creation timed out, or the creation failed. */
  function AwaitRecovered(s: State, creation: Creation): Cleanup {
    if s.sandbox.Some? then Killing(s.sandbox.value, 1)
    else Finished(s.pending != Some(creation), None)
  }

  predicate IsSettled(s: State, creation: Creation) {
    creation in s.outcomes && creation !in s.settling
  }

  /** Which steps can happen next; `hasKey` tells whether an API key is configured. */
  predicate Enabled(s: State, e: Event) {
    match e
    case Start => true
    case StartResumed(closing, _) => closing in s.waiting && s.closing != Some(closing)
    case CreationSucceeded(creation, box) => creation in s.inFlight && box !in s.created
    case CreationFailed(creation) => creation in s.inFlight
    case CreationSettled(creation) => creation in s.settling
    case Close => true
    case AwaitSucceeded =>
      s.cleanup.AwaitingCreation? && IsSettled(s, s.cleanup.creation) && s.outcomes[s.cleanup.creation].Created?
    case AwaitFailed => s.cleanup.AwaitingCreation?
    case KillAcknowledged => s.cleanup.Killing?
    case KillFailed => s.cleanup.Killing?
    case DelayOver => s.cleanup.Delaying?
    case CloseSettled => s.cleanup.Finished?
  }

  function Next(s: State, e: Event, hasKey: bool): State
    requires Enabled(s, e)
  {
    match e
    case Start =>
      if s.closing.Some? then s.(waiting := s.waiting + multiset{s.closing.value})
      else if hasKey then Started(s)
      else s
    case StartResumed(closing, cleaned) =>
      var t := s.(waiting := s.waiting - multiset{closing});
      if cleaned && hasKey then Started(t) else t
    case CreationSucceeded(creation, box) =>
      s.(sandbox := Some(box), created := s.created + {box}, outcomes := s.outcomes[creation := Created(box)],
         inFlight := s.inFlight - {creation}, settling := s.settling + {creation})
    case CreationFailed(creation) =>
      s.(outcomes := s.outcomes[creation := NotCreated], inFlight := s.inFlight - {creation},
          settling := s.settling + {creation})
    case CreationSettled(creation) =>
      s.(settling := s.settling - {creation}, pending := if s.pending == Some(creation) then None else s.pending)
    case Close =>
      if s.closing.Some? then s
      else s.(cleanup := CleanupStarted(s), closing := Some(s.nextClosing), nextClosing := s.nextClosing + 1)
    case AwaitSucceeded => s.(cleanup := Killing(s.outcomes[s.cleanup.creation].box, 1))
    case AwaitFailed => s.(cleanup := AwaitRecovered(s, s.cleanup.creation))
    case KillAcknowledged =>
      var current := s.cleanup.current;
      s.(sandbox := if s.sandbox == Some(current) then None else s.sandbox, pending := None,
         killed := s.killed + {current}, cleanup := Finished(true, Some(current)))
    case KillFailed =>
      s.(cleanup := if s.cleanup.attempt < MAX_ATTEMPTS then Delaying(s.cleanup.current, s.cleanup.attempt)
                    else Finished(false, Some(s.cleanup.current)))
    case DelayOver => s.(cleanup := Killing(s.cleanup.current, s.cleanup.attempt + 1))
    case CloseSettled => s.(cleanup := Idle, closing := None)
  }

  predicate IsRun(s: State, events: seq<Event>, hasKey: bool)
    decreases |events|
  {
    events == [] || (Enabled(s, events[0]) && IsRun(Next(s, events[0], hasKey), events[1..], hasKey))
  }

  function After(s: State, events: seq<Event>, hasKey: bool): State
    requires IsRun(s, events, hasKey)
    decreases |events|
  {
    if events == [] then s else After(Next(s, events[0], hasKey), events[1..], hasKey)
  }

  // ---------------------------------------------------------------------------
  // No sandbox is lost
  // ---------------------------------------------------------------------------

  /** The sandboxes that may still be running. */
  function Alive(s: State): set<Box> {
    s.created - s.killed
  }

  function Handle(s: State): set<Box> {
    if s.sandbox.Some? then {s.sandbox.value} else {}
  }

  /** A creation is in flight only as the pending one, and never beside a handle. */
  ghost predicate OneCreation(s: State) {
    && (forall c :: c in s.inFlight ==> s.pending == Some(c) && s.sandbox.None?)
    && (forall c :: c in s.inFlight ==> c !in s.outcomes)
  }

  /** The sandboxes whose termination was never acknowledged are the retained handle, and nothing else. */
  predicate NoLeak(s: State) {
    Alive(s) == Handle(s)
  }

  /** What the creation produced, if anything, is the handle. */
  predicate HoldsResult(s: State, creation: Creation) {
    creation in s.outcomes && s.outcomes[creation].Created? ==> s.sandbox == Some(s.outcomes[creation].box)
  }

  /** The current cleanup is working on the retained handle. */
  predicate CleanupHoldsHandle(s: State) {
    match s.cleanup
    case Idle => s.closing.None?
    case AwaitingCreation(creation) =>
      && s.closing.Some?
      && HoldsResult(s, creation)
      && (s.pending == Some(creation) || creation in s.outcomes)
    case Killing(current, attempt) => s.closing.Some? && s.sandbox == Some(current) && 1 <= attempt <= MAX_ATTEMPTS
    case Delaying(current, attempt) => s.closing.Some? && s.sandbox == Some(current) && 1 <= attempt < MAX_ATTEMPTS
    case Finished(ok, target) =>
        s.closing.Some? && (target.Some? ==> if ok then target.value in s.killed else s.sandbox == target)
  }

  /** Creations are numbered in order, and the pending one is running, settling or over. */
  ghost predicate Numbered(s: State) {
    && (forall c :: c in s.inFlight || c in s.settling || c in s.outcomes ==> c < s.nextCreation)
    && (s.pending.Some? ==> s.pending.value in s.inFlight + s.settling)
    && (s.pending.Some? ==> HoldsResult(s, s.pending.value))
    && (forall c :: c in s.settling ==> c in s.outcomes)
    && s.killed <= s.created
  }

  ghost predicate Safe(s: State) {
    OneCreation(s) && NoLeak(s) && CleanupHoldsHandle(s) && Numbered(s)
  }

  lemma StepIsSafe(s: State, e: Event, hasKey: bool)
    requires Safe(s) && Enabled(s, e)
    ensures Safe(Next(s, e, hasKey))
  {
  }

  lemma {:induction false} RunIsSafe(s: State, events: seq<Event>, hasKey: bool)
    requires Safe(s) && IsRun(s, events, hasKey)
    ensures Safe(After(s, events, hasKey))
    decreases |events|
  {
    hide Safe;
    if events != [] {
      StepIsSafe(s, events[0], hasKey);
      RunIsSafe(Next(s, events[0], hasKey), events[1..], hasKey);
    }
  }

  /**
   * On every run, at most one creation is in flight, none is in flight beside a
   * handle, and the sandboxes that were created and not acknowledged as killed
   * are exactly the retained handle.
   */
  lemma NoSandboxIsLost(events: seq<Event>, hasKey: bool)
    requires IsRun(INITIAL, events, hasKey)
    ensures var s := After(INITIAL, events, hasKey);
            && Alive(s) == Handle(s)
            && (s.inFlight == {} || (s.sandbox.None? && s.pending.Some? && s.inFlight == {s.pending.value}))
  {
    RunIsSafe(INITIAL, events, hasKey);
    var s := After(INITIAL, events, hasKey);
    if c :| c in s.inFlight {
      assert s.inFlight == {c};
    }
  }

  /**
   * A cleanup that reports success has killed what it set out to kill; one that
   * gives up keeps the handle for a retry.
   */
  lemma CleanupReportsTruthfully(events: seq<Event>, hasKey: bool)
    requires IsRun(INITIAL, events, hasKey)
    requires After(INITIAL, events, hasKey).cleanup.Finished? && After(INITIAL, events, hasKey).cleanup.target.Some?
    ensures var s := After(INITIAL, events, hasKey);
            if s.cleanup.ok then s.cleanup.target.value in s.killed && s.sandbox != s.cleanup.target
            else s.sandbox == s.cleanup.target && s.cleanup.target.value !in s.killed
  {
    RunIsSafe(INITIAL, events, hasKey);
    var s := After(INITIAL, events, hasKey);
    assert forall b :: b in Alive(s) <==> b in Handle(s);
  }

  // ---------------------------------------------------------------------------
  // A cleanup ends
  // ---------------------------------------------------------------------------

  /** How many more steps a cleanup can take. */
  function StepsLeft(c: Cleanup): nat {
    match c
    case Idle => 0
    case Finished(_, _) => 1
    case Killing(_, attempt) => if attempt <= MAX_ATTEMPTS then 2 * (MAX_ATTEMPTS - attempt) + 2 else 2
    case Delaying(_, attempt) => if attempt < MAX_ATTEMPTS then 2 * (MAX_ATTEMPTS - attempt) + 1 else 1
    case AwaitingCreation(_) => 2 * MAX_ATTEMPTS + 1
  }

  predicate IsCleanupStep(e: Event) {
    e.AwaitSucceeded? || e.AwaitFailed? || e.KillAcknowledged? || e.KillFailed? || e.DelayOver? || e.CloseSettled?
  }

  function CleanupSteps(events: seq<Event>): nat {
    if events == [] then 0 else (if IsCleanupStep(events[0]) then 1 else 0) + CleanupSteps(events[1..])
  }

  /** Only a close that finds no cleanup running begins one; the others join it. */
  predicate BeginsCleanup(s: State, e: Event) {
    e.Close? && s.closing.None?
  }

  function CleanupsBegun(s: State, events: seq<Event>, hasKey: bool): nat
    requires IsRun(s, events, hasKey)
    decreases |events|
  {
    if events == [] then 0
    else (if BeginsCleanup(s, events[0]) then 1 else 0) + CleanupsBegun(Next(s, events[0], hasKey), events[1..], hasKey)
  }

  /** Whatever else happens, each cleanup takes at most seven steps after its first wait, three of them kills. */
  lemma {:induction false} CleanupEnds(s: State, events: seq<Event>, hasKey: bool)
    requires Safe(s) && IsRun(s, events, hasKey)
    ensures CleanupSteps(events) + StepsLeft(After(s, events, hasKey).cleanup)
         <= StepsLeft(s.cleanup) + CleanupsBegun(s, events, hasKey) * (2 * MAX_ATTEMPTS + 1)
    ensures StepsLeft(s.cleanup) <= 2 * MAX_ATTEMPTS + 1
    decreases |events|
  {
    if events != [] {
      StepIsSafe(s, events[0], hasKey);
      CleanupAdvances(s, events[0], hasKey);
      CleanupEnds(Next(s, events[0], hasKey), events[1..], hasKey);
    }
  }

  lemma CleanupAdvances(s: State, e: Event, hasKey: bool)
    requires Safe(s) && Enabled(s, e)
    ensures StepsLeft(Next(s, e, hasKey).cleanup) + (if IsCleanupStep(e) then 1 else 0)
         <= StepsLeft(s.cleanup) + if BeginsCleanup(s, e) then 2 * MAX_ATTEMPTS + 1 else 0
  {
  }

  // ---------------------------------------------------------------------------
  // The toolkit
  // ---------------------------------------------------------------------------

  /**
   * The closure variables, beside a record of what the provider and the callers
   * are doing. Every method is one step and keeps the protocol invariant.
   */
  class Toolkit {
    const hasKey: bool
    var sandbox: Option<Box>
    var pending: Option<Creation>
    var closing: Option<Closing>
    var cleanup: Cleanup
    var nextCreation: Creation
    var nextClosing: Closing
    ghost var inFlight: set<Creation>
    ghost var settling: set<Creation>
    ghost var outcomes: map<Creation, Outcome>
    ghost var waiting: multiset<Closing>
    ghost var created: set<Box>
    ghost var killed: set<Box>

    constructor (hasKey: bool)
      ensures Valid() && View() == INITIAL && this.hasKey == hasKey
    {
      this.hasKey := hasKey;
      sandbox, pending, closing, cleanup, nextCreation, nextClosing := None, None, None, Idle, 0, 0;
      inFlight, settling, outcomes, waiting, created, killed := {}, {}, map[], multiset{}, {}, {};
    }

    ghost function View(): State
      reads this
    {
      State(sandbox, pending, closing, cleanup, inFlight, settling, outcomes,
          waiting, created, killed, nextCreation, nextClosing)
    }

    ghost predicate Valid()
      reads this
    {
      Safe(View())
    }

    /** After a start that need not wait there is a handle or a creation, and a handle never gets company. */
    method StartSandbox()
      requires Valid()
      modifies this
      ensures Valid() && View() == Next(old(View()), Start, hasKey)
      ensures old(closing).None? && hasKey ==> sandbox.Some? || pending.Some?
      ensures old(sandbox).Some? || old(closing).Some? ==> inFlight == old(inFlight)
      ensures created == old(created)
    {
      StepIsSafe(View(), Start, hasKey);
      if closing.Some? {
        waiting := waiting + multiset{closing.value};
        return;
      }
      Proceed(true);
    }

    /** The rest of a start call; a failed cleanup makes it throw. */
    method Proceed(cleaned: bool)
      modifies this
      ensures View() == if cleaned && hasKey then Started(old(View())) else old(View())
    {
      if !cleaned || !hasKey || sandbox.Some? {
        return;
      }
      if pending.None? {
        var creation := nextCreation;
        nextCreation := nextCreation + 1;
        inFlight := inFlight + {creation};
        pending := Some(creation);
      }
    }

    /** A start that waited does the same, even while the next cleanup is already running. */
    method ResumeStart(ghost waited: Closing, cleaned: bool)
      requires Valid() && Enabled(View(), StartResumed(waited, cleaned))
      modifies this
      ensures Valid() && View() == Next(old(View()), StartResumed(waited, cleaned), hasKey)
      ensures cleaned && hasKey ==> sandbox.Some? || pending.Some?
      ensures old(sandbox).Some? || !cleaned ==> inFlight == old(inFlight)
      ensures created == old(created)
    {
      StepIsSafe(View(), StartResumed(waited, cleaned), hasKey);
      waiting := waiting - multiset{waited};
      Proceed(cleaned);
    }

    /** A new sandbox displaces no handle, and is then the only one running. */
    method OnCreated(ghost creation: Creation, box: Box)
      requires Valid() && Enabled(View(), CreationSucceeded(creation, box))
      modifies this
      ensures Valid() && View() == Next(old(View()), CreationSucceeded(creation, box), hasKey)
      ensures old(sandbox).None? && sandbox == Some(box) && Alive(View()) == {box} && inFlight == {}
    {
      StepIsSafe(View(), CreationSucceeded(creation, box), hasKey);
      sandbox := Some(box);
      created, outcomes := created + {box}, outcomes[creation := Created(box)];
      inFlight, settling := inFlight - {creation}, settling + {creation};
    }

    /** A creation that fails leaves nothing running and nothing in flight. */
    method OnCreationFailed(ghost creation: Creation)
      requires Valid() && Enabled(View(), CreationFailed(creation))
      modifies this
      ensures Valid() && View() == Next(old(View()), CreationFailed(creation), hasKey)
      ensures sandbox.None? && Alive(View()) == {} && inFlight == {}
    {
      StepIsSafe(View(), CreationFailed(creation), hasKey);
      outcomes := outcomes[creation := NotCreated];
      inFlight, settling := inFlight - {creation}, settling + {creation};
    }

    /** Settling never forgets a creation that is still in flight. */
    method OnCreationSettled(creation: Creation)
      requires Valid() && Enabled(View(), CreationSettled(creation))
      modifies this
      ensures Valid() && View() == Next(old(View()), CreationSettled(creation), hasKey)
      ensures pending != Some(creation) && inFlight == old(inFlight) && (inFlight != {} ==> pending == old(pending))
    {
      StepIsSafe(View(), CreationSettled(creation), hasKey);
      settling := settling - {creation};
      if pending == Some(creation) {
        pending := None;
      }
    }

    /** A close that ends at once has nothing to clean up: nothing is running and nothing is in flight. */
    method CloseSandbox()
      requires Valid()
      modifies this
      ensures Valid() && View() == Next(old(View()), Close, hasKey)
      ensures closing.Some? && (old(closing).Some? ==> View() == old(View()))
      ensures old(closing).None? && cleanup.Finished? ==> Alive(View()) == {} && inFlight == {}
      ensures old(closing).None? && Alive(View()) != {} ==> cleanup.Killing? && Alive(View()) == {cleanup.current}
    {
      StepIsSafe(View(), Close, hasKey);
      if closing.Some? {
        return;
      }
      if sandbox.Some? {
        cleanup := Killing(sandbox.value, 1);
      } else if pending.Some? {
        cleanup := AwaitingCreation(pending.value);
      } else {
        cleanup := Finished(true, None);
      }
      closing := Some(nextClosing);
      nextClosing := nextClosing + 1;
    }

    /** The awaited creation has produced the handle, which is what the cleanup goes on to kill. */
    method OnAwaitSucceeded(box: Box)
      requires Valid() && Enabled(View(), AwaitSucceeded) && outcomes[cleanup.creation] == Created(box)
      modifies this
      ensures Valid() && View() == Next(old(View()), AwaitSucceeded, hasKey)
      ensures cleanup == Killing(box, 1) && sandbox == Some(box) && Alive(View()) == {box}
    {
      StepIsSafe(View(), AwaitSucceeded, hasKey);
      cleanup := Killing(box, 1);
    }

    /** Whatever is running is taken up; a cleanup that ends here leaves no sandbox running. */
    method OnAwaitFailed()
      requires Valid() && Enabled(View(), AwaitFailed)
      modifies this
      ensures Valid() && View() == Next(old(View()), AwaitFailed, hasKey)
      ensures cleanup.Killing? ==> Alive(View()) == {cleanup.current}
      ensures cleanup.Finished? ==> Alive(View()) == {}
      ensures cleanup.Finished? && !cleanup.ok ==> pending == Some(old(cleanup).creation)
    {
      StepIsSafe(View(), AwaitFailed, hasKey);
      if sandbox.Some? {
        cleanup := Killing(sandbox.value, 1);
      } else if pending != Some(cleanup.creation) {
        cleanup := Finished(true, None);
      } else {
        cleanup := Finished(false, None);
      }
    }

    /** An acknowledged kill leaves nothing running, nothing in flight and nothing pending. */
    method OnKillAcknowledged()
      requires Valid() && Enabled(View(), KillAcknowledged)
      modifies this
      ensures Valid() && View() == Next(old(View()), KillAcknowledged, hasKey)
      ensures sandbox.None? && pending.None? && Alive(View()) == {} && inFlight == {}
      ensures Alive(old(View())) == {old(cleanup).current}
    {
      StepIsSafe(View(), KillAcknowledged, hasKey);
      var current := cleanup.current;
      if sandbox == Some(current) {
        sandbox := None;
      }
      pending := None;
      killed := killed + {current};
      cleanup := Finished(true, Some(current));
    }

    /** A failed kill loses nothing: the sandbox is still the handle, for another attempt or for a later close. */
    method OnKillFailed()
      requires Valid() && Enabled(View(), KillFailed)
      modifies this
      ensures Valid() && View() == Next(old(View()), KillFailed, hasKey)
      ensures sandbox == Some(old(cleanup).current) && Alive(View()) == {old(cleanup).current}
      ensures cleanup.Finished? <==> old(cleanup).attempt == MAX_ATTEMPTS
    {
      StepIsSafe(View(), KillFailed, hasKey);
      if cleanup.attempt < MAX_ATTEMPTS {
        cleanup := Delaying(cleanup.current, cleanup.attempt);
      } else {
        cleanup := Finished(false, Some(cleanup.current));
      }
    }

    /** The next attempt is on the sandbox that is still running. */
    method OnDelayOver()
      requires Valid() && Enabled(View(), DelayOver)
      modifies this
      ensures Valid() && View() == Next(old(View()), DelayOver, hasKey)
      ensures cleanup.Killing? && Alive(View()) == {cleanup.current} && cleanup.attempt <= MAX_ATTEMPTS
    {
      StepIsSafe(View(), DelayOver, hasKey);
      cleanup := Killing(cleanup.current, cleanup.attempt + 1);
    }

    /** The next close starts afresh, on whatever is running. */
    method OnCloseSettled()
      requires Valid() && Enabled(View(), CloseSettled)
      modifies this
      ensures Valid() && View() == Next(old(View()), CloseSettled, hasKey)
      ensures closing.None? && Alive(View()) == Alive(old(View())) == Handle(View())
    {
      StepIsSafe(View(), CloseSettled, hasKey);
      closing, cleanup := None, Idle;
    }

    /** Any interleaving of steps, driven through the methods, reaches the state of that run. */
    method Replay(events: seq<Event>)
      requires Valid() && IsRun(View(), events, hasKey)
      modifies this
      ensures Valid() && View() == After(old(View()), events, hasKey)
      ensures Alive(View()) == Handle(View())
    {
      hide Next, Enabled;
      for i := 0 to |events|
        invariant Valid() && IsRun(View(), events[i..], hasKey)
        invariant After(View(), events[i..], hasKey) == After(old(View()), events, hasKey)
      {
        assert events[i..][0] == events[i] && events[i..][1..] == events[i + 1..];
        Dispatch(events[i]);
      }
    }

    method Dispatch(e: Event)
      requires Valid() && Enabled(View(), e)
      modifies this
      ensures Valid() && View() == Next(old(View()), e, hasKey)
    {
      hide Safe, Next;
      match e {
        case Start => StartSandbox();
        case StartResumed(waited, cleaned) => ResumeStart(waited, cleaned);
        case CreationSucceeded(creation, box) => OnCreated(creation, box);
        case CreationFailed(creation) => OnCreationFailed(creation);
        case CreationSettled(creation) => OnCreationSettled(creation);
        case Close => CloseSandbox();
        case AwaitSucceeded =>
          AwaitHolds(View());
          OnAwaitSucceeded(sandbox.value);
        case AwaitFailed => OnAwaitFailed();
        case KillAcknowledged => OnKillAcknowledged();
        case KillFailed => OnKillFailed();
        case DelayOver => OnDelayOver();
        case CloseSettled => OnCloseSettled();
      }
    }
  }

  lemma AwaitHolds(s: State)
    requires Safe(s) && Enabled(s, AwaitSucceeded)
    ensures s.sandbox.Some? && s.outcomes[s.cleanup.creation] == Created(s.sandbox.value)
  {
  }
}
