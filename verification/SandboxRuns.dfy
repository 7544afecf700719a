/** What callers of the sandbox toolkit can count on, step by step and over whole cleanups. */
module SandboxRuns {

  import opened GoalTypes
  import opened SandboxLifecycle

  // ---------------------------------------------------------------------------
  // Starting and closing
  // ---------------------------------------------------------------------------

  /** The one creation that a start adds, when it adds one. */
  predicate BeginsCreation(s: State, t: State) {
    && t.pending == Some(s.nextCreation) && t.inFlight == s.inFlight + {s.nextCreation}
    && t.nextCreation == s.nextCreation + 1
    && t == s.(pending := t.pending, inFlight := t.inFlight, nextCreation := t.nextCreation)
  }

  /**
   * A start without an API key changes nothing. With one it waits for a running
   * cleanup, and otherwise creates a sandbox exactly when there is neither a handle nor a
   * pending creation.
   */
  lemma StartCreatesIff(s: State, hasKey: bool)
    ensures var t := Next(s, Start, hasKey);
      if s.closing.Some? then t == s.(waiting := s.waiting + multiset{s.closing.value})
      else if hasKey && s.sandbox == None && s.pending == None then BeginsCreation(s, t)
      else t == s
  {
  }

  /** A start that has waited goes on, once its cleanup is over, exactly when that succeeded. */
  lemma WaitingStartCreatesIff(s: State, closing: Closing, cleaned: bool, hasKey: bool)
    ensures Enabled(s, StartResumed(closing, cleaned)) <==> closing in s.waiting && s.closing != Some(closing)
    ensures Enabled(s, StartResumed(closing, cleaned)) ==>
      var t := Next(s, StartResumed(closing, cleaned), hasKey);
      var resumed := s.(waiting := s.waiting - multiset{closing});
      if cleaned && hasKey && s.sandbox == None && s.pending == None then BeginsCreation(resumed, t) else t == resumed
  {
  }

  /** A close joins a running cleanup, and otherwise takes up the handle, the pending creation, or nothing. */
  lemma CloseTakesUp(s: State, hasKey: bool)
    ensures var t := Next(s, Close, hasKey);
      if s.closing.Some? then t == s
      else
        && t.closing == Some(s.nextClosing) && t.nextClosing == s.nextClosing + 1
        && t == s.(closing := t.closing, nextClosing := t.nextClosing, cleanup := t.cleanup)
        && (s.sandbox.Some? ==> t.cleanup == Killing(s.sandbox.value, 1))
        && (s.sandbox == None && s.pending.Some? ==> t.cleanup == AwaitingCreation(s.pending.value))
        && (s.sandbox == None && s.pending == None ==> t.cleanup == Finished(true, None))
  {
  }

  /** An answered creation settles exactly once, and is then no longer pending. */
  lemma CreationsSettleOnce(s: State, creation: Creation, box: Box, hasKey: bool)
    requires Safe(s) && creation in s.inFlight && box !in s.created
    ensures Enabled(s, CreationSucceeded(creation, box)) && Enabled(s, CreationFailed(creation))
    ensures var t := Next(s, CreationSucceeded(creation, box), hasKey);
      && t.sandbox == Some(box) && t.inFlight == s.inFlight - {creation} && t.settling == s.settling + {creation}
      && t.created == s.created + {box} && t.outcomes == s.outcomes[creation := Created(box)]
      && Enabled(t, CreationSettled(creation))
      && !Enabled(Next(t, CreationSettled(creation), hasKey), CreationSettled(creation))
      && Next(t, CreationSettled(creation), hasKey).pending == None
    ensures var t := Next(s, CreationFailed(creation), hasKey);
      && t.sandbox == s.sandbox && t.inFlight == s.inFlight - {creation} && t.settling == s.settling + {creation}
      && t.outcomes == s.outcomes[creation := NotCreated] && Enabled(t, CreationSettled(creation))
      && !Enabled(Next(t, CreationSettled(creation), hasKey), CreationSettled(creation))
      && Next(t, CreationSettled(creation), hasKey).pending == None
  {
  }

  // ---------------------------------------------------------------------------
  // Cleanups
  // ---------------------------------------------------------------------------

  /** A running cleanup can always go on: nothing it waits for can keep it waiting for ever. */
  lemma CleanupIsNeverStuck(s: State, hasKey: bool)
    requires Safe(s)
    ensures s.closing == None <==> s.cleanup == Idle
    ensures Enabled(s, AwaitFailed) <==> s.cleanup.AwaitingCreation?
    ensures Enabled(s, KillAcknowledged) <==> s.cleanup.Killing?
    ensures Enabled(s, KillFailed) <==> s.cleanup.Killing?
    ensures Enabled(s, DelayOver) <==> s.cleanup.Delaying?
    ensures Enabled(s, CloseSettled) <==> s.cleanup.Finished?
    ensures Enabled(s, CloseSettled) ==>
      Next(s, CloseSettled, hasKey) == s.(closing := None, cleanup := Idle)
  {
  }

  /** A creation that the cleanup waits for and that has settled with a sandbox is killed. */
  lemma AwaitedSandboxIsKilled(s: State, hasKey: bool)
    requires Safe(s) && s.cleanup.AwaitingCreation?
    ensures Enabled(s, AwaitSucceeded) <==>
        s.cleanup.creation in s.outcomes && s.outcomes[s.cleanup.creation].Created?
          && s.cleanup.creation !in s.settling
    ensures Enabled(s, AwaitSucceeded) ==>
      s.sandbox.Some? && Next(s, AwaitSucceeded, hasKey) == s.(cleanup := Killing(s.sandbox.value, 1))
  {
  }

  /** A wait that fails takes up a handle that is there, ends if the creation is over, and otherwise gives up. */
  lemma FailedWaitEnds(s: State, hasKey: bool)
    requires Safe(s) && s.cleanup.AwaitingCreation?
    ensures var t := Next(s, AwaitFailed, hasKey);
      && t == s.(cleanup := t.cleanup)
      && (s.sandbox.Some? ==> t.cleanup == Killing(s.sandbox.value, 1))
      && (s.sandbox == None && s.pending != Some(s.cleanup.creation) ==> t.cleanup == Finished(true, None))
      && (s.sandbox == None && s.pending == Some(s.cleanup.creation) ==> t.cleanup == Finished(false, None))
  {
  }

  /** The events of so many failed kills, each but the third followed by its delay. */
  function FailedKills(n: nat): seq<Event>
    requires n <= 3
  {
    if n == 0 then []
    else if n < 3 then FailedKills(n - 1) + [KillFailed, DelayOver]
    else FailedKills(2) + [KillFailed]
  }

  /**
   * A kill is tried three times. After fewer failures an acknowledged kill ends the
   * cleanup well and leaves nothing; after the third failure it ends badly and the handle stays.
   */
  lemma KillsAreTriedThrice(s: State, box: Box, n: nat, hasKey: bool)
    requires Safe(s) && s.cleanup == Killing(box, 1) && n <= 3
    ensures IsRun(s, FailedKills(n), hasKey)
    ensures var t := After(s, FailedKills(n), hasKey);
      t == s.(cleanup := if n < 3 then Killing(box, n + 1) else Finished(false, Some(box)))
    ensures n < 3 ==>
      var t := After(s, FailedKills(n), hasKey);
      Next(t, KillAcknowledged, hasKey)
        == s.(sandbox := None, pending := None, killed := s.killed + {box}, cleanup := Finished(true, Some(box)))
  {
    assert FailedKills(1) == [KillFailed, DelayOver];
    assert FailedKills(2) == [KillFailed, DelayOver, KillFailed, DelayOver];
    assert FailedKills(3) == [KillFailed, DelayOver, KillFailed, DelayOver, KillFailed];
    FiveSteps(s, box, hasKey);
  }

  lemma FiveSteps(s: State, box: Box, hasKey: bool)
    requires s.cleanup == Killing(box, 1)
    ensures var second := s.(cleanup := Killing(box, 2)); var third := s.(cleanup := Killing(box, 3));
      && IsRun(s, [KillFailed, DelayOver], hasKey) && After(s, [KillFailed, DelayOver], hasKey) == second
      && IsRun(s, [KillFailed, DelayOver, KillFailed, DelayOver], hasKey)
      && After(s, [KillFailed, DelayOver, KillFailed, DelayOver], hasKey) == third
      && IsRun(s, [KillFailed, DelayOver, KillFailed, DelayOver, KillFailed], hasKey)
      && After(s, [KillFailed, DelayOver, KillFailed, DelayOver, KillFailed], hasKey)
           == s.(cleanup := Finished(false, Some(box)))
  {
    var second, third := s.(cleanup := Killing(box, 2)), s.(cleanup := Killing(box, 3));
    OneStep(third, KillFailed, [], hasKey);
    TwoSteps(second, box, 2, [], hasKey);
    TwoSteps(second, box, 2, [KillFailed], hasKey);
    TwoSteps(s, box, 1, [], hasKey);
    TwoSteps(s, box, 1, [KillFailed, DelayOver], hasKey);
    TwoSteps(s, box, 1, [KillFailed, DelayOver, KillFailed], hasKey);
  }

  lemma OneStep(s: State, e: Event, rest: seq<Event>, hasKey: bool)
    requires Enabled(s, e)
    ensures IsRun(s, [e] + rest, hasKey) <==> IsRun(Next(s, e, hasKey), rest, hasKey)
    ensures IsRun(s, [e] + rest, hasKey) ==>
      After(s, [e] + rest, hasKey) == After(Next(s, e, hasKey), rest, hasKey)
  {
    assert ([e] + rest)[1..] == rest;
  }

  lemma TwoSteps(s: State, box: Box, attempt: nat, rest: seq<Event>, hasKey: bool)
    requires s.cleanup == Killing(box, attempt) && attempt < 3
    ensures var t := s.(cleanup := Killing(box, attempt + 1));
      && (IsRun(s, [KillFailed, DelayOver] + rest, hasKey) <==> IsRun(t, rest, hasKey))
      && (IsRun(t, rest, hasKey) ==> After(s, [KillFailed, DelayOver] + rest, hasKey) == After(t, rest, hasKey))
  {
    OneStep(s, KillFailed, [DelayOver] + rest, hasKey);
    OneStep(s.(cleanup := Delaying(box, attempt)), DelayOver, rest, hasKey);
    assert [KillFailed] + ([DelayOver] + rest) == [KillFailed, DelayOver] + rest;
  }
}
