/**
 * A goal completes only on evidence. Along every run without the trusted
 * override, the references behind a completion, and behind every done item,
 * came from the runtime, from a user's answer or from a claim holder, never
 * from a model's request alone.
 */
module CompletionSoundness {
  import opened Text
  import opened GoalTypes
  import opened GoalController
  import opened GoalService
  import opened ClaimMutations
  import opened GoalRuns

  function Elements(s: seq<string>): set<string> {
    set x | x in s
  }

  /** A goal and every reference that something other than a model's request has supplied so far. */
  datatype Ledger = Ledger(goal: Option<Goal>, vouched: set<string>)

  function Supplied(current: Option<Goal>, op: GoalOp): set<string> {
    if IsNewSettlement(current, op) then
      EvidenceRefs(op.op.settlement.evidence) + Elements(op.op.settlement.observedRefs) + {op.op.settlement.receipt.id}
    else if op.Service? && op.op.AnswerGateOp? && IsAccepted(current, op) && current.Some? then
      {UserRef(op.op.workItemId, current.value.revision + 1)}
    else if op.ClaimCompletes? then Elements(UniqueStrings(op.refs))
    else {}
  }

  function LedgerStep(l: Ledger, op: GoalOp): Ledger {
    Ledger(GoalStep(l.goal, op), l.vouched + Supplied(l.goal, op))
  }

  predicate CleanRefs(refs: seq<string>) {
    forall r :: r in refs ==> r != "" && IsTrimmed(r)
  }

  predicate HasVouchedRef(item: WorkItem, vouched: set<string>) {
    exists r :: r in item.evidenceRefs && r in vouched
  }

  predicate ItemVouched(item: WorkItem, vouched: set<string>) {
    CleanRefs(item.evidenceRefs) && (item.status.Done? ==> HasVouchedRef(item, vouched))
  }

  predicate ItemsVouched(items: seq<WorkItem>, vouched: set<string>) {
    forall x :: x in items ==> ItemVouched(x, vouched)
  }

  predicate GoalVouched(goal: Goal, vouched: set<string>) {
    && EvidenceRefs(goal.evidence) <= vouched
    && ItemsVouched(goal.workItems, vouched)
    && forall q :: q in goal.workItemRequests ==> CleanRefs(q.evidenceRefs)
  }

  predicate Vouched(l: Ledger) {
    l.goal.Some? ==> GoalVouched(l.goal.value, l.vouched)
  }

  // ---------------------------------------------------------------------------
  // References
  // ---------------------------------------------------------------------------

  lemma UniqueIsClean(values: seq<string>)
    ensures CleanRefs(UniqueStrings(values))
    ensures forall r :: r in values && r != "" && IsTrimmed(r) ==> r in UniqueStrings(values)
  {
    forall r | r in UniqueStrings(values)
      ensures IsTrimmed(r)
    {
      var k :| 0 <= k < |values| && Trim(values[k]) == r;
      TrimTrims(values[k]);
    }
    forall r | r in values && r != "" && IsTrimmed(r)
      ensures r in UniqueStrings(values)
    {
      var k :| 0 <= k < |values| && values[k] == r;
      TrimTrims(r);
    }
  }

  lemma UserRefIsClean(id: Id, revision: nat)
    ensures UserRef(id, revision) != "" && IsTrimmed(UserRef(id, revision))
  {
    var r := UserRef(id, revision);
    assert r[0] == 'u';
    assert r[|r| - 1] == Decimal(revision)[|Decimal(revision)| - 1];
  }

  lemma MoreVouched(items: seq<WorkItem>, v: set<string>, w: set<string>)
    requires ItemsVouched(items, v) && v <= w
    ensures ItemsVouched(items, w)
  {
    forall x | x in items
      ensures ItemVouched(x, w)
    {
      if x.status.Done? {
        assert HasVouchedRef(x, v);
      }
    }
  }

  lemma KeptEvidenceRefs(evidence: seq<Evidence>, n: nat)
    ensures EvidenceRefs(LastN(evidence, n)) <= EvidenceRefs(evidence)
  {
    assert forall e :: e in LastN(evidence, n) ==> e in evidence;
  }

  lemma JoinedEvidenceRefs(a: seq<Evidence>, b: seq<Evidence>)
    ensures EvidenceRefs(a + b) == EvidenceRefs(a) + EvidenceRefs(b)
  {
    assert forall e :: e in a + b <==> e in a || e in b;
  }

  // ---------------------------------------------------------------------------
  // Settling
  // ---------------------------------------------------------------------------

  lemma AppliedRequestIsVouched(a: Applied, request: ItemRequest, observed: set<string>, at: Time, v: set<string>)
    requires ItemsVouched(a.workItems, v) && CleanRefs(request.evidenceRefs) && observed <= v
    ensures ItemsVouched(ApplyRequest(a, request, observed, at).workItems, v)
  {
    var i := IndexOfId(a.workItems, request.workItemId);
    var b := ApplyRequest(a, request, observed, at);
    if b.workItems != a.workItems {
      var before, after := a.workItems[i], b.workItems[i];
      assert before in a.workItems;
      UniqueIsClean(before.evidenceRefs + request.evidenceRefs);
      if after.status.Done? {
        var r := request.evidenceRefs[0];
        assert r in request.evidenceRefs && r in observed;
        assert r in before.evidenceRefs + request.evidenceRefs;
        assert r in after.evidenceRefs;
      }
      assert ItemVouched(after, v);
      forall x | x in b.workItems
        ensures ItemVouched(x, v)
      {
        var k :| 0 <= k < |b.workItems| && b.workItems[k] == x;
        assert k != i ==> x == a.workItems[k];
      }
    }
  }

  lemma {:induction false} AppliedIsVouched(a: Applied, requests: seq<ItemRequest>, observed: set<string>, at: Time,
                                            k: nat, v: set<string>)
    requires k <= |requests| && ItemsVouched(a.workItems, v) && observed <= v
    requires forall q :: q in requests ==> CleanRefs(q.evidenceRefs)
    ensures ItemsVouched(ApplyPrefix(a, requests, observed, at, k).workItems, v)
  {
    if k > 0 {
      hide ApplyRequest, ItemsVouched;
      AppliedIsVouched(a, requests, observed, at, k - 1, v);
      AppliedRequestIsVouched(ApplyPrefix(a, requests, observed, at, k - 1), requests[k - 1], observed, at, v);
    }
  }

  lemma ReopenedIsVouched(items: seq<WorkItem>, id: Id, at: Time, v: set<string>)
    requires ItemsVouched(items, v)
    ensures ItemsVouched(Reopen(items, id, at), v)
  {
    var r := Reopen(items, id, at);
    forall x | x in r
      ensures ItemVouched(x, v)
    {
      var k :| 0 <= k < |r| && r[k] == x;
      assert items[k] in items;
    }
  }

  function SettlementRefs(input: SettleInput): set<string> {
    EvidenceRefs(input.evidence) + Elements(input.observedRefs) + {input.receipt.id}
  }

  /** What an unforced completion rests on. */
  predicate SoundCompletion(before: Goal, after: Goal, input: SettleInput, vouched: set<string>) {
    && before.completionRequest.Some?
    && (forall r :: r in before.completionRequest.value.evidenceRefs ==> r in ObservedRefs(before, input))
    && (HasText(before.completionCriteria) ==> before.completionRequest.value.evidenceRefs != [])
    && FrontierClosed(after.workItems)
    && (forall x :: x in after.workItems && x.status.Done? ==> HasVouchedRef(x, vouched))
    && HasText(after.noFollowupReason)
  }

  lemma SettledEvidence(goal: Goal, input: SettleInput, applied: Applied)
    ensures EvidenceRefs(Settled(goal, input, applied).evidence)
         <= EvidenceRefs(goal.evidence) + EvidenceRefs(input.evidence) + {input.receipt.id}
  {
    var noted := if CompletionAccepted(goal, input, applied) && goal.completionRequest.Some?
        && goal.completionRequest.value.note != ""
                 then [Evidence(Some("goal-completion:" + input.receipt.runId), input.receipt.at,
                                goal.completionRequest.value.note, Some(Validated), Some(input.receipt.id), true)]
                 else [];
    KeptEvidenceRefs(goal.evidence + input.evidence + noted, EVIDENCE_RETAIN);
    JoinedEvidenceRefs(goal.evidence + input.evidence, noted);
    JoinedEvidenceRefs(goal.evidence, input.evidence);
    assert EvidenceRefs(noted) <= {input.receipt.id};
  }

  lemma SettledItems(goal: Goal, input: SettleInput, applied: Applied, v: set<string>)
    requires ItemsVouched(applied.workItems, v)
    ensures ItemsVouched(Settled(goal, input, applied).workItems, v)
    ensures Settled(goal, input, applied).workItemRequests == []
  {
    hide ItemsVouched, CompletionAccepted, SettleReplanAudit, LastN, CountDone;
    var receipt := EffectiveReceipt(goal, input, applied);
    if receipt.workItemId.Some? {
      ReopenedIsVouched(applied.workItems, receipt.workItemId.value, input.receipt.at, v);
    }
  }

  lemma SettledIsVouched(goal: Goal, input: SettleInput, applied: Applied, v: set<string>)
    requires GoalVouched(goal, v)
    requires applied == ApplyRequests(goal, ObservedRefs(goal, input), input.receipt.at)
    ensures GoalVouched(Settled(goal, input, applied), v + SettlementRefs(input))
  {
    hide Settled, ItemsVouched, ApplyPrefix;
    var w := v + SettlementRefs(input);
    var observed := ObservedRefs(goal, input);
    assert observed <= w;
    MoreVouched(goal.workItems, v, w);
    AppliedIsVouched(Unapplied(goal), goal.workItemRequests, observed, input.receipt.at, |goal.workItemRequests|, w);
    SettledEvidence(goal, input, applied);
    SettledItems(goal, input, applied, w);
  }

  /** Without the override, a settlement completes a goal only soundly. */
  lemma SettledCompletesSoundly(goal: Goal, input: SettleInput, applied: Applied, v: set<string>)
    requires GoalVouched(goal, v) && !input.completionAccepted && !goal.status.Complete?
    requires applied == ApplyRequests(goal, ObservedRefs(goal, input), input.receipt.at)
    requires Settled(goal, input, applied).status.Complete?
    ensures SoundCompletion(goal, Settled(goal, input, applied), input, v + SettlementRefs(input))
  {
    SettledIsVouched(goal, input, applied, v);
    CompletedShape(goal, input, applied);
  }

  lemma CompletedShape(goal: Goal, input: SettleInput, applied: Applied)
    requires !input.completionAccepted && !goal.status.Complete?
    requires Settled(goal, input, applied).status.Complete?
    ensures CompletionEvidenceSatisfied(goal, ObservedRefs(goal, input))
    ensures Settled(goal, input, applied).workItems == applied.workItems && FrontierClosed(applied.workItems)
    ensures HasText(Settled(goal, input, applied).noFollowupReason)
  {
    hide LastN, CountDone, SettleReplanAudit;
    assert EffectiveReceipt(goal, input, applied).outcome.ValidatedCompletion?;
  }

  // ---------------------------------------------------------------------------
  // The other mutations
  // ---------------------------------------------------------------------------

  lemma PlannedIsVouched(goal: Goal, input: PlanInput, at: Time, v: set<string>)
    requires GoalVouched(goal, v)
    ensures GoalVouched(Plan(Some(goal), input, at).next.value, v)
  {
    hide NormalizePlan, LastN, Fingerprint;
    var retained := if input.replace then [] else goal.workItems;
    var planned := NormalizePlan(input.items, retained, at);
    if planned.Some? {
      forall x | x in planned.value
        ensures ItemVouched(x, v)
      {
        var k :| 0 <= k < |planned.value| && planned.value[k] == x;
        if k < |retained| {
          assert retained[k] in goal.workItems;
        }
      }
    }
  }

  lemma BegunIsVouched(goal: Goal, id: Id, at: Time, v: set<string>)
    requires GoalVouched(goal, v)
    ensures GoalVouched(BeginWorkItem(Some(goal), id, at).next.value, v)
  {
    var next := BeginWorkItem(Some(goal), id, at).next.value;
    forall x | x in next.workItems
      ensures ItemVouched(x, v)
    {
      var k :| 0 <= k < |next.workItems| && next.workItems[k] == x;
      assert goal.workItems[k] in goal.workItems;
    }
  }

  lemma AnsweredIsVouched(goal: Goal, id: Id, answer: string, at: Time, v: set<string>)
    requires GoalVouched(goal, v) && AnswerUserGate(Some(goal), id, answer, at).result.Accepted?
    ensures GoalVouched(AnswerUserGate(Some(goal), id, answer, at).next.value, v + {UserRef(id, goal.revision + 1)})
  {
    hide UserRef;
    var next := AnswerUserGate(Some(goal), id, answer, at).next.value;
    var ref := UserRef(id, goal.revision + 1);
    UserRefIsClean(id, goal.revision + 1);
    var i := IndexOfId(goal.workItems, id);
    assert ref in next.workItems[i].evidenceRefs;
    MoreVouched(goal.workItems, v, v + {ref});
    forall x | x in next.workItems
      ensures ItemVouched(x, v + {ref})
    {
      var k :| 0 <= k < |next.workItems| && next.workItems[k] == x;
      assert k != i ==> goal.workItems[k] in goal.workItems;
    }
    var note := Evidence(Some("goal-evidence:" + ref), at, Trim(answer), Some(UserDecision), Some(ref), true);
    KeptEvidenceRefs(goal.evidence + [note], EVIDENCE_RETAIN);
    JoinedEvidenceRefs(goal.evidence, [note]);
  }

  lemma RequestedIsVouched(goal: Goal, input: UpdateRequestInput, at: Time, v: set<string>)
    requires GoalVouched(goal, v)
    ensures GoalVouched(RequestWorkItemUpdate(Some(goal), input, at).next.value, v)
  {
    UniqueIsClean(input.evidenceRefs);
  }

  lemma ProgressedIsVouched(goal: Goal, note: string, expected: Option<nat>, at: Time, v: set<string>)
    requires GoalVouched(goal, v)
    ensures GoalVouched(RecordProgress(Some(goal), note, expected, at).next.value, v)
  {
    hide LastN, Trim, IsBlank, ItemsVouched, EvidenceRefs;
    var next := RecordProgress(Some(goal), note, expected, at).next.value;
    var entry := Evidence(None, at, Trim(note), None, None, false);
    KeptEvidenceRefs(goal.evidence + [entry], EVIDENCE_RETAIN);
    JoinedEvidenceRefs(goal.evidence, [entry]);
    NoteHasNoRef(entry);
  }

  lemma NoteHasNoRef(entry: Evidence)
    requires entry.ref.None?
    ensures EvidenceRefs([entry]) == {}
  {
  }

  lemma SteeredIsVouched(goal: Goal, op: ServiceOp, at: Time, v: set<string>)
    requires GoalVouched(goal, v) && IsQuiet(op) && !op.ProgressOp? && !op.RequestUpdateOp?
    ensures Perform(Some(goal), op, at).next.Some? && GoalVouched(Perform(Some(goal), op, at).next.value, v)
  {
    hide ItemsVouched, EvidenceRefs;
  }

  lemma SteeredOrSettled(goal: Goal, op: ServiceOp, at: Time, v: set<string>)
    requires GoalVouched(goal, v)
    ensures IsQuiet(op) && !op.ProgressOp? && !op.RequestUpdateOp? ==>
      Perform(Some(goal), op, at).next.Some? && GoalVouched(Perform(Some(goal), op, at).next.value, v)
  {
    hide GoalVouched;
    if IsQuiet(op) && !op.ProgressOp? && !op.RequestUpdateOp? {
      SteeredIsVouched(goal, op, at, v);
    }
  }

  lemma CreatedIsVouched(objective: string, criteria: Option<string>, budget: Option<Budget>, at: Time, v: set<string>)
    ensures GoalVouched(Create(objective, criteria, budget, at), v)
  {
  }

  lemma HeldIsVouched(goal: Goal, id: Id, at: Time, v: set<string>)
    requires GoalVouched(goal, v)
    ensures GoalVouched(MarkRunning(goal, id, at), v)
    ensures GoalVouched(ReleaseItem(goal, id, at), v)
  {
    forall x | x in MarkRunning(goal, id, at).workItems
      ensures ItemVouched(x, v)
    {
      var k :| 0 <= k < |goal.workItems| && MarkRunning(goal, id, at).workItems[k] == x;
      assert goal.workItems[k] in goal.workItems;
    }
    forall x | x in ReleaseItem(goal, id, at).workItems
      ensures ItemVouched(x, v)
    {
      var k :| 0 <= k < |goal.workItems| && ReleaseItem(goal, id, at).workItems[k] == x;
      assert goal.workItems[k] in goal.workItems;
    }
  }

  lemma ClaimCompletedIsVouched(goal: Goal, id: Id, refs: seq<string>, at: Time, v: set<string>)
    requires GoalVouched(goal, v) && UniqueStrings(refs) != []
    ensures GoalVouched(CompleteItem(goal, id, UniqueStrings(refs), at), v + Elements(UniqueStrings(refs)))
  {
    var given := UniqueStrings(refs);
    var w := v + Elements(given);
    var next := CompleteItem(goal, id, given, at);
    UniqueIsClean(refs);
    MoreVouched(goal.workItems, v, w);
    forall x | x in next.workItems
      ensures ItemVouched(x, w)
    {
      var k :| 0 <= k < |goal.workItems| && next.workItems[k] == x;
      var before := goal.workItems[k];
      assert before in goal.workItems;
      if x != before {
        UniqueIsClean(before.evidenceRefs + given);
        assert given[0] in before.evidenceRefs + given;
        assert given[0] in x.evidenceRefs;
      }
    }
  }

  // ---------------------------------------------------------------------------
  // Steps and runs
  // ---------------------------------------------------------------------------

  lemma SettleStepIsVouched(l: Ledger, op: GoalOp)
    requires Vouched(l) && op.Service? && op.op.SettleOp?
    ensures Vouched(LedgerStep(l, op))
  {
    hide Settled, ApplyRequests, GoalVouched;
    assert l.vouched + {} == l.vouched;
    if IsNewSettlement(l.goal, op) {
      var goal, input := l.goal.value, op.op.settlement;
      SettledIsVouched(goal, input, ApplyRequests(goal, ObservedRefs(goal, input), input.receipt.at), l.vouched);
    }
  }

  lemma MoreVouchedGoal(goal: Goal, v: set<string>, w: set<string>)
    requires GoalVouched(goal, v) && v <= w
    ensures GoalVouched(goal, w)
  {
    MoreVouched(goal.workItems, v, w);
  }

  lemma ServiceStepIsVouched(l: Ledger, op: GoalOp)
    requires Vouched(l) && op.Service? && l.goal.Some? && !op.op.SettleOp?
    ensures Vouched(LedgerStep(l, op))
  {
    hide GoalVouched, Plan, BeginWorkItem, AnswerUserGate, RequestWorkItemUpdate, RecordProgress;
    assert l.vouched + {} == l.vouched;
    var goal, service := l.goal.value, op.op;
    match service
    case CreateGoal(objective, criteria, budget) => CreatedIsVouched(objective, criteria, budget, op.at, l.vouched);
    case ClearGoal =>
    case ProgressOp(note, expected) => ProgressedIsVouched(goal, note, expected, op.at, l.vouched);
    case PlanOp(plan) => PlannedIsVouched(goal, plan, op.at, l.vouched);
    case BeginOp(id) => BegunIsVouched(goal, id, op.at, l.vouched);
    case AnswerGateOp(id, answer) => AnswerStepIsVouched(l, op);
    case RequestUpdateOp(request) => RequestedIsVouched(goal, request, op.at, l.vouched);
    case _ => SteeredOrSettled(goal, service, op.at, l.vouched);
  }

  lemma AnswerStepIsVouched(l: Ledger, op: GoalOp)
    requires Vouched(l) && op.Service? && l.goal.Some? && op.op.AnswerGateOp?
    ensures Vouched(LedgerStep(l, op))
  {
    hide GoalVouched;
    assert l.vouched + {} == l.vouched;
    if IsAccepted(l.goal, op) {
      AnsweredIsVouched(l.goal.value, op.op.workItemId, op.op.answer, op.at, l.vouched);
    }
  }

  lemma StepIsVouched(l: Ledger, op: GoalOp)
    requires Vouched(l)
    ensures Vouched(LedgerStep(l, op))
  {
    if op.Service? && op.op.SettleOp? {
      hide LedgerStep, Vouched;
      SettleStepIsVouched(l, op);
    } else if op.Service? && l.goal.Some? {
      hide LedgerStep, Vouched;
      ServiceStepIsVouched(l, op);
    } else if op.Service? {
      hide GoalVouched;
      if IsCreate(op) {
        CreatedIsVouched(op.op.objective, op.op.criteria, op.op.budget, op.at, l.vouched);
      }
    } else if l.goal.Some? {
      hide GoalVouched, MarkRunning, ReleaseItem, CompleteItem;
      HeldIsVouched(l.goal.value, op.itemId, op.at, l.vouched);
      if op.ClaimCompletes? {
        MoreVouchedGoal(l.goal.value, l.vouched, l.vouched + Elements(UniqueStrings(op.refs)));
        if UniqueStrings(op.refs) != [] {
          ClaimCompletedIsVouched(l.goal.value, op.itemId, op.refs, op.at, l.vouched);
        }
      }
    }
  }

  predicate Unforced(op: GoalOp) {
    op.Service? && op.op.SettleOp? ==> !op.op.settlement.completionAccepted
  }

  function LedgerRun(l: Ledger, ops: seq<GoalOp>): Ledger
    decreases |ops|
  {
    if ops == [] then l else LedgerRun(LedgerStep(l, ops[0]), ops[1..])
  }

  lemma {:induction false} RunIsVouched(l: Ledger, ops: seq<GoalOp>)
    requires Vouched(l)
    ensures Vouched(LedgerRun(l, ops))
    decreases |ops|
  {
    if ops != [] {
      hide LedgerStep, Vouched;
      StepIsVouched(l, ops[0]);
      RunIsVouched(LedgerStep(l, ops[0]), ops[1..]);
    }
  }

  predicate BecomesComplete(l: Ledger, op: GoalOp) {
    var next := GoalStep(l.goal, op);
    next.Some? && next.value.status.Complete? && !(l.goal.Some? && l.goal.value.status.Complete?)
  }

  lemma OnlySettlementsComplete(l: Ledger, op: GoalOp)
    ensures BecomesComplete(l, op) ==> IsNewSettlement(l.goal, op)
  {
    if BecomesComplete(l, op) && op.Service? && !op.op.SettleOp? && IsQuiet(op.op) {
      hide Perform;
      QuietKeepsLedgers(l.goal, op.op, op.at);
    }
  }

  /** The goal becomes complete in a settlement that rests on what a completion has to rest on. */
  predicate CompletesSoundly(l: Ledger, op: GoalOp) {
    && IsNewSettlement(l.goal, op)
    && GoalStep(l.goal, op).Some?
    && SoundCompletion(l.goal.value, GoalStep(l.goal, op).value, op.op.settlement, LedgerStep(l, op).vouched)
  }

  /**
   * Along every run from nothing, a goal that becomes complete does so in a settlement, on a request whose
   * references were all observed, with every item closed and every done item backed by a reference from outside.
   */
  lemma CompletionsAreSound(ops: seq<GoalOp>, op: GoalOp)
    requires Unforced(op)
    ensures BecomesComplete(LedgerRun(Ledger(None, {}), ops), op) ==>
        CompletesSoundly(LedgerRun(Ledger(None, {}), ops), op)
  {
    hide LedgerRun, BecomesComplete, CompletesSoundly;
    var l := LedgerRun(Ledger(None, {}), ops);
    RunIsVouched(Ledger(None, {}), ops);
    CompletingIsSound(l, op);
  }

  lemma CompletingIsSound(l: Ledger, op: GoalOp)
    requires Vouched(l) && Unforced(op)
    ensures BecomesComplete(l, op) ==> CompletesSoundly(l, op)
  {
    OnlySettlementsComplete(l, op);
    if BecomesComplete(l, op) {
      hide Settled, ApplyRequests, SoundCompletion, GoalVouched;
      var goal, input := l.goal.value, op.op.settlement;
      SettledCompletesSoundly(goal, input, ApplyRequests(goal, ObservedRefs(goal, input), input.receipt.at), l.vouched);
    }
  }

  // ---------------------------------------------------------------------------
  // Leaving completion
  // ---------------------------------------------------------------------------

  /** A settlement that finds the replan audit spent and no noted completion to record. */
  predicate SettlesToBlocked(goal: Goal, op: GoalOp) {
    && IsNewSettlement(Some(goal), op)
    && ReplanBlocked(SettleReplanAudit(goal.replanAudit, op.op.settlement.replan, op.op.settlement.receipt.at))
    && !(goal.completionRequest.Some? && goal.completionRequest.value.note != ""
         && CompletionAccepted(
             goal, op.op.settlement,
             ApplyRequests(goal, ObservedRefs(goal, op.op.settlement), op.op.settlement.receipt.at)))
  }

  /**
   * A complete goal is reopened by an answered gate or re-blocked by a late
   * settlement, and by nothing else short of replacing it.
   */
  lemma CompleteIsLeftExactlyBy(goal: Goal, op: GoalOp)
    requires goal.status.Complete? && !IsCreate(op) && !(op.Service? && op.op.ClearGoal?)
    ensures GoalStep(Some(goal), op).Some?
    ensures !GoalStep(Some(goal), op).value.status.Complete? <==>
      (op.Service? && op.op.AnswerGateOp? && IsAccepted(Some(goal), op)) || SettlesToBlocked(goal, op)
  {
    if op.Service? && IsQuiet(op.op) {
      hide Perform;
      QuietKeepsLedgers(Some(goal), op.op, op.at);
    } else {
      hide ApplyRequests, CompletionAccepted, LastN, CountDone;
    }
  }

  /** A settlement that records a noted completion. */
  predicate SettlesToComplete(goal: Goal, op: GoalOp) {
    && IsNewSettlement(Some(goal), op)
    && goal.completionRequest.Some? && goal.completionRequest.value.note != ""
    && CompletionAccepted(goal, op.op.settlement,
                          ApplyRequests(goal, ObservedRefs(goal, op.op.settlement), op.op.settlement.receipt.at))
  }

  /**
   * A cancelled goal is revived by every accepted report of an obstacle and every
   * answered gate, completed by a late settlement that accepts a completion and
   * blocked by one that finds the replan audit spent; nothing else short of
   * replacing it changes its status, steering least of all.
   */
  lemma CancelledIsLeftExactlyBy(goal: Goal, op: GoalOp)
    requires goal.status.Cancelled? && !IsCreate(op) && !(op.Service? && op.op.ClearGoal?)
    ensures GoalStep(Some(goal), op).Some?
    ensures !GoalStep(Some(goal), op).value.status.Cancelled? <==>
      || (op.Service? && (op.op.AnswerGateOp? || op.op.BlockOp?) && IsAccepted(Some(goal), op))
      || SettlesToComplete(goal, op)
      || SettlesToBlocked(goal, op)
    ensures SettlesToComplete(goal, op) ==> GoalStep(Some(goal), op).value.status.Complete?
    ensures SettlesToBlocked(goal, op) ==> GoalStep(Some(goal), op).value.status.Blocked?
  {
    hide ApplyRequests, CompletionAccepted, LastN, CountDone, UniqueStrings, NormalizePlan, TrailingRepeats,
         Fingerprint, Trim, UserRef,
         WithoutRequestsFor, MapItem, HasItem, CanComplete, IndexOfId, HasReceipt,
             CountVerified, Reopen, SettleReplanAudit, ObservedRefs,
         ReplanBlocked, CompletionFailure;
  }
}
