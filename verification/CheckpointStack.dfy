/**
 * Restoring checkpoints is an undo: whatever sequence of turns edited the
 * workspace, restoring their checkpoints from the newest to the oldest meets
 * no conflict and brings back exactly the files there were before.
 */
module CheckpointStack {
  import opened GoalTypes
  import opened ByteStrings
  import opened CheckpointVault

  // ---------------------------------------------------------------------------
  // Restoring one checkpoint
  // ---------------------------------------------------------------------------

  predicate Mentions(entries: seq<Entry>, p: Path) {
    exists e :: e in entries && e.path == p
  }

  /** Every mentioned path holds its recorded content, every other path what it held. */
  ghost predicate RestoredTo(entries: seq<Entry>, blobs: Blobs, before: Files, after: Files) {
    && (forall e :: e in entries ==> Read(after, e.path) == StoredBefore(e, blobs))
    && (forall p :: !Mentions(entries, p) ==> Read(after, p) == Read(before, p))
  }

  lemma {:induction false} RestoreFirstRestores(files: Files, entries: seq<Entry>, blobs: Blobs, k: nat)
    requires k <= |entries| && EntriesOk(entries, blobs) && forall e :: e in entries ==> e.recoverable
    ensures RestoredTo(entries[..k], blobs, files, RestoreFirst(files, entries, blobs, k))
  {
    if k > 0 {
      RestoreFirstRestores(files, entries, blobs, k - 1);
      hide RestoreEntry, EntriesOk, RestoredTo, StoredBefore, Read;
      var half := RestoreFirst(files, entries, blobs, k - 1);
      RestoreOne(half, entries, k - 1, blobs);
      RestoredOneMore(entries, k, blobs, files, half, RestoreEntry(half, entries[k - 1], blobs));
    }
  }

  lemma RestoredOneMore(entries: seq<Entry>, k: nat, blobs: Blobs, files: Files, half: Files, full: Files)
    requires 0 < k <= |entries| && EntriesOk(entries, blobs) && RestoredTo(entries[..k - 1], blobs, files, half)
    requires Read(full, entries[k - 1].path) == StoredBefore(entries[k - 1], blobs)
    requires forall p :: p != entries[k - 1].path ==> Read(full, p) == Read(half, p)
    ensures RestoredTo(entries[..k], blobs, files, full)
  {
    hide Read, StoredBefore, EntryOk, Sorted, Mentions;
    forall x | x in entries[..k]
      ensures Read(full, x.path) == StoredBefore(x, blobs)
    {
      var i :| 0 <= i < k && entries[i] == x;
      if i < k - 1 {
        assert entries[..k - 1][i] == x;
        PathsDiffer(entries, i, k - 1);
      }
    }
    forall p | !Mentions(entries[..k], p)
      ensures Read(full, p) == Read(files, p)
    {
      FewerMentions(entries, k, p);
    }
  }

  lemma PathsDiffer(entries: seq<Entry>, i: nat, j: nat)
    requires Sorted(entries) && i < j < |entries|
    ensures entries[i].path != entries[j].path
  {
  }

  lemma FewerMentions(entries: seq<Entry>, k: nat, p: Path)
    requires 0 < k <= |entries| && !Mentions(entries[..k], p)
    ensures !Mentions(entries[..k - 1], p) && entries[k - 1].path != p
  {
    assert entries[..k][k - 1] == entries[k - 1];
    assert entries[..k][..k - 1] == entries[..k - 1];
  }

  lemma RestoreOne(files: Files, entries: seq<Entry>, i: nat, blobs: Blobs)
    requires i < |entries| && EntriesOk(entries, blobs) && entries[i].recoverable
    ensures var after := RestoreEntry(files, entries[i], blobs);
            && Read(after, entries[i].path) == StoredBefore(entries[i], blobs)
            && forall p :: p != entries[i].path ==> Read(after, p) == Read(files, p)
  {
    assert entries[i] in entries && EntryOk(entries[i], blobs);
  }

  /** An unforced restore of files changes nothing and reports a conflict, or restores every recorded path. */
  lemma RestoreIsAllOrNothing(v: Vault, sessionId: SessionId, id: CheckpointId, restoreConversation: Callback)
    requires ValidVault(v) && id in v.manifests && v.manifests[id].sessionId == sessionId
    ensures var r := Restore(v, sessionId, id, FilesOnly, false, restoreConversation);
        var entries := v.manifests[id].entries;
      if exists e :: e in entries && EntryConflicts(e, v.files)
      then r.outcome.Conflicted? && r.files == v.files
      else r.outcome.Restored? && RestoredTo(entries, v.blobs, v.files, r.files)
  {
    var entries := v.manifests[id].entries;
    if Conflicts(entries, v.files) == [] {
      RestoreFirstRestores(v.files, entries, v.blobs, |entries|);
      assert entries[..|entries|] == entries;
    }
  }

  /**
   * Restoring both does to the files what restoring the files alone does, and only
   * then fails: without a conversation or a callback, or when the callback rejects.
   */
  lemma BothRestoresFilesBeforeFailing(v: Vault, sessionId: SessionId, id: CheckpointId, force: bool,
                                       restoreConversation: Callback)
    requires ValidVault(v) && id in v.manifests && v.manifests[id].sessionId == sessionId
    ensures var both := Restore(v, sessionId, id, Both, force, restoreConversation);
      var alone := Restore(v, sessionId, id, FilesOnly, force, restoreConversation);
      var c := v.manifests[id];
      var offered := OffersConversation(c, restoreConversation);
      && both.files == alone.files
      && (alone.outcome.Conflicted? || alone.outcome.Restored?)
      && (alone.outcome.Conflicted? ==> both == alone)
      && (alone.outcome.Restored? ==>
           && (both.outcome.NoConversation? <==> !offered)
           && (both.outcome.ConversationFailed? <==>
                offered && !restoreConversation.value(sessionId, c.conversationId.value))
           && (both.outcome == Restored(alone.outcome.paths, true) <==>
                offered && restoreConversation.value(sessionId, c.conversationId.value)))
    ensures (forall e :: e in v.manifests[id].entries ==> !EntryConflicts(e, v.files)) ==>
        RestoredTo(v.manifests[id].entries, v.blobs, v.files,
                   Restore(v, sessionId, id, Both, force, restoreConversation).files)
  {
    hide RestoreFirst, RestorablePaths, RestoredTo;
    var entries := v.manifests[id].entries;
    if forall e :: e in entries ==> !EntryConflicts(e, v.files) {
      RestoreFirstRestores(v.files, entries, v.blobs, |entries|);
      assert entries[..|entries|] == entries;
    }
  }

  // ---------------------------------------------------------------------------
  // Truthful editing
  // ---------------------------------------------------------------------------

  /** Write, create or delete one file. */
  datatype Edit = Edit(path: Path, after: Option<Bytes>)

  function Edited(files: Files, e: Edit): Files {
    if e.after.Some? then files[e.path := e.after.value] else map p | p in files && p != e.path :: files[p]
  }

  /** Performs an edit and records it as it happened. */
  function EditFile(v: Vault, limit: nat, sessionId: SessionId, turnId: TurnId, e: Edit): Vault {
    RecordChange(v.(files := Edited(v.files, e)), limit, sessionId, turnId, e.path, Read(v.files, e.path), e.after)
  }

  function EditAll(v: Vault, limit: nat, sessionId: SessionId, turnId: TurnId, edits: seq<Edit>): Vault {
    if edits == [] then v
    else EditFile(EditAll(v, limit, sessionId, turnId, edits[..|edits| - 1]),
        limit, sessionId, turnId, edits[|edits| - 1])
  }

  datatype Turn = Turn(turnId: TurnId, conversationId: Option<string>, edits: seq<Edit>, status: CheckpointStatus)

  function RunTurn(v: Vault, limit: nat, sessionId: SessionId, t: Turn): Vault {
    SealTurn(EditAll(BeginTurn(v, sessionId, t.turnId, t.conversationId), limit, sessionId, t.turnId, t.edits),
             sessionId, t.turnId, t.status)
  }

  function EditedAll(files: Files, edits: seq<Edit>): Files {
    if edits == [] then files else Edited(EditedAll(files, edits[..|edits| - 1]), edits[|edits| - 1])
  }

  /** No content that an edit replaces or leaves is over the limit. */
  predicate WithinLimit(files: Files, edits: seq<Edit>, limit: nat) {
    forall k :: 0 <= k < |edits| ==>
      !TooLarge(Read(EditedAll(files, edits[..k]), edits[k].path), limit) && !TooLarge(edits[k].after, limit)
  }

  /** The entries describe the difference between the files before the turn and now. */
  ghost predicate Tracks(start: Files, now: Files, entries: seq<Entry>, blobs: Blobs, limit: nat) {
    && (forall e :: e in entries ==> TracksPath(e, blobs, Read(start, e.path), Read(now, e.path), limit))
    && (forall p :: !Mentions(entries, p) ==> Read(now, p) == Read(start, p))
  }

  predicate TracksPath(e: Entry, blobs: Blobs, start: Option<Bytes>, now: Option<Bytes>, limit: nat) {
    && e.recoverable && !TooLarge(start, limit)
    && e.beforeExists == start.Some? && e.beforeHash == HashOf(start) && StoredBefore(e, blobs) == start
    && e.afterHash == HashOf(now)
  }

  lemma StoredContent(blobs: Blobs, d: Digest)
    requires FaithfulBlobs(blobs) && d in blobs
    ensures blobs[d] == d.preimage
  {
    assert Hash(blobs[d]) == d;
  }

  /** Merging a later change keeps the before side and moves the after side. */
  lemma MergedEntryTracks(e: Entry, first: Blobs, merged: Blobs, start: Option<Bytes>, now: Option<Bytes>,
                          after: Option<Bytes>, limit: nat)
    requires EntryOk(e, first) && BlobsGrow(first, merged)
        && TracksPath(e, first, start, now, limit) && !TooLarge(after, limit)
    ensures TracksPath(CreateEntry(e.path, StoredBefore(e, first), after, Some(e), limit), merged, start, after, limit)
  {
  }

  lemma NewEntryTracks(path: Path, blobs: Blobs, before: Option<Bytes>, after: Option<Bytes>, limit: nat)
    requires FaithfulBlobs(blobs) && !TooLarge(before, limit) && !TooLarge(after, limit)
    ensures TracksPath(
        CreateEntry(path, before, after, None, limit),
        BlobsFor(blobs, before, after, None, limit), before, after, limit)
  {
    BlobsForGrow(blobs, before, after, None, limit);
    if before.Some? {
      var merged := BlobsFor(blobs, before, after, None, limit);
      assert Hash(before.value) in merged;
      StoredContent(merged, Hash(before.value));
    }
  }

  lemma GrownBlobsTrack(e: Entry, a: Blobs, b: Blobs, start: Option<Bytes>, now: Option<Bytes>, limit: nat)
    requires EntryOk(e, a) && BlobsGrow(a, b) && TracksPath(e, a, start, now, limit)
    ensures TracksPath(e, b, start, now, limit)
  {
  }

  lemma EditedElsewhere(files: Files, e: Edit)
    ensures Read(Edited(files, e), e.path) == e.after
    ensures forall p :: p != e.path ==> Read(Edited(files, e), p) == Read(files, p)
  {
  }

  lemma MergeTracks(start: Files, now: Files, entries: seq<Entry>, blobs: Blobs, e: Edit, limit: nat)
    requires EntriesOk(entries, blobs) && FaithfulBlobs(blobs) && Tracks(start, now, entries, blobs, limit)
    requires !TooLarge(Read(now, e.path), limit) && !TooLarge(e.after, limit)
    ensures var first := BlobsFor(blobs, Read(now, e.path), e.after, None, limit);
      Tracks(start, Edited(now, e), MergeEntry(entries, first, e.path, Read(now, e.path), e.after, limit),
             MergeBlobs(entries, blobs, e.path, Read(now, e.path), e.after, limit), limit)
  {
    var before := Read(now, e.path);
    var first := BlobsFor(blobs, before, e.after, None, limit);
    var merged := MergeBlobs(entries, blobs, e.path, before, e.after, limit);
    var next := MergeEntry(entries, first, e.path, before, e.after, limit);
    var i := EntryIndex(entries, e.path);
    MergedEntriesOk(entries, blobs, e.path, before, e.after, limit);
    BlobsForGrow(blobs, before, e.after, None, limit);
    EditedElsewhere(now, e);
    if i < |entries| {
      assert entries[i] in entries;
      BlobsForGrow(first, StoredBefore(entries[i], first), e.after, Some(entries[i]), limit);
      EntriesSurvive(entries, blobs, first);
      GrownBlobsTrack(entries[i], blobs, first, Read(start, e.path), before, limit);
      MergedEntryTracks(entries[i], first, merged, Read(start, e.path), before, e.after, limit);
    } else {
      assert Read(now, e.path) == Read(start, e.path);
      NewEntryTracks(e.path, blobs, before, e.after, limit);
    }
    forall x | x in next
      ensures TracksPath(x, merged, Read(start, x.path), Read(Edited(now, e), x.path), limit)
    {
      if x.path != e.path {
        OtherEntryKept(entries, first, e.path, before, e.after, limit, x);
        GrownBlobsTrack(x, blobs, merged, Read(start, x.path), Read(now, x.path), limit);
      } else {
        TouchedEntryIs(entries, first, e.path, before, e.after, limit, x);
      }
    }
    forall p | !Mentions(next, p)
      ensures Read(Edited(now, e), p) == Read(start, p)
    {
      MentionsGrow(entries, first, e.path, before, e.after, limit, p);
    }
  }

  lemma OtherEntryKept(entries: seq<Entry>, blobs: Blobs, path: Path, before: Option<Bytes>, after: Option<Bytes>,
                       limit: nat, x: Entry)
    requires x in MergeEntry(entries, blobs, path, before, after, limit) && x.path != path
    ensures x in entries
  {
  }

  lemma TouchedEntryIs(entries: seq<Entry>, blobs: Blobs, path: Path, before: Option<Bytes>, after: Option<Bytes>,
                       limit: nat, x: Entry)
    requires Sorted(entries)
    requires x in MergeEntry(entries, blobs, path, before, after, limit) && x.path == path
    ensures var i := EntryIndex(entries, path);
      x == if i == |entries| then CreateEntry(path, before, after, None, limit)
           else CreateEntry(path, StoredBefore(entries[i], blobs), after, Some(entries[i]), limit)
  {
  }

  lemma MentionsGrow(entries: seq<Entry>, blobs: Blobs, path: Path, before: Option<Bytes>, after: Option<Bytes>,
                     limit: nat, p: Path)
    requires !Mentions(MergeEntry(entries, blobs, path, before, after, limit), p)
    ensures p != path && !Mentions(entries, p)
  {
    var next := MergeEntry(entries, blobs, path, before, after, limit);
    var i := EntryIndex(entries, path);
    if i < |entries| {
      assert next[i] in next;
      forall x | x in entries
        ensures x.path != p
      {
        var k :| 0 <= k < |entries| && entries[k] == x;
        assert next[k] in next;
      }
    } else {
      assert CreateEntry(path, before, after, None, limit) in next;
    }
  }

  // ---------------------------------------------------------------------------
  // One turn
  // ---------------------------------------------------------------------------

  /** The turn has its own checkpoint, and nothing else of the vault has moved. */
  ghost predicate TurnOpen(v0: Vault, v: Vault, sessionId: SessionId, turnId: TurnId) {
    var id := v0.nextId;
    && ValidVault(v) && BlobsGrow(v0.blobs, v.blobs)
    && v.nextId == id + 1 && id in v.manifests
    && v.turns == v0.turns[turnId := id]
    && v.manifests[id].sessionId == sessionId
    && (forall k :: k < id && k in v0.manifests ==> k in v.manifests && v.manifests[k] == v0.manifests[k])
    && (forall k :: k in v.manifests && k != id ==> k in v0.manifests)
  }

  /** Its checkpoint also tracks the edits of the turn. */
  ghost predicate InTurn(v0: Vault, v: Vault, sessionId: SessionId, turnId: TurnId, limit: nat) {
    TurnOpen(v0, v, sessionId, turnId) && Tracks(v0.files, v.files, v.manifests[v0.nextId].entries, v.blobs, limit)
  }

  lemma BeginsTurn(v0: Vault, sessionId: SessionId, turnId: TurnId, conversationId: Option<string>, limit: nat)
    requires ValidVault(v0) && turnId !in v0.turns
    ensures InTurn(v0, BeginTurn(v0, sessionId, turnId, conversationId), sessionId, turnId, limit)
    ensures BeginTurn(v0, sessionId, turnId, conversationId).manifests[v0.nextId].entries == []
  {
    BeginKeepsValid(v0, sessionId, turnId, conversationId);
  }

  lemma EditKeepsTurnOpen(v0: Vault, v: Vault, sessionId: SessionId, turnId: TurnId, limit: nat, e: Edit)
    requires TurnOpen(v0, v, sessionId, turnId)
    ensures var w := EditFile(v, limit, sessionId, turnId, e); var entries := v.manifests[v0.nextId].entries;
      var before := Read(v.files, e.path);
      && TurnOpen(v0, w, sessionId, turnId) && w.files == Edited(v.files, e)
      && w.manifests[v0.nextId].entries
          == MergeEntry(entries, BlobsFor(v.blobs, before, e.after, None, limit), e.path, before, e.after, limit)
      && w.blobs == MergeBlobs(entries, v.blobs, e.path, before, e.after, limit)
  {
    hide MergeEntry, MergeBlobs, BlobsFor, EntriesOk;
    var w := v.(files := Edited(v.files, e));
    assert ValidVault(w);
    assert CheckpointOf(w, sessionId, turnId) == Some(v.manifests[v0.nextId]);
    RecordKeepsValid(w, limit, sessionId, turnId, e.path, Read(v.files, e.path), e.after);
  }

  lemma EditStaysInTurn(v0: Vault, v: Vault, sessionId: SessionId, turnId: TurnId, limit: nat, e: Edit)
    requires InTurn(v0, v, sessionId, turnId, limit)
    requires !TooLarge(Read(v.files, e.path), limit) && !TooLarge(e.after, limit)
    ensures InTurn(v0, EditFile(v, limit, sessionId, turnId, e), sessionId, turnId, limit)
    ensures EditFile(v, limit, sessionId, turnId, e).files == Edited(v.files, e)
  {
    hide MergeEntry, MergeBlobs, BlobsFor, EntriesOk, Tracks, EditFile;
    EditKeepsTurnOpen(v0, v, sessionId, turnId, limit, e);
    MergeTracks(v0.files, v.files, v.manifests[v0.nextId].entries, v.blobs, e, limit);
  }

  lemma LimitOfPrefix(files: Files, edits: seq<Edit>, limit: nat)
    requires edits != [] && WithinLimit(files, edits, limit)
    ensures var n := |edits| - 1;
      && WithinLimit(files, edits[..n], limit)
      && !TooLarge(Read(EditedAll(files, edits[..n]), edits[n].path), limit) && !TooLarge(edits[n].after, limit)
  {
    hide EditedAll, Edited, Read, TooLarge;
    var n := |edits| - 1;
    assert forall k :: 0 <= k < n ==> edits[..n][..k] == edits[..k];
  }

  lemma {:induction false} EditsStayInTurn(v0: Vault, v: Vault, sessionId: SessionId, turnId: TurnId, limit: nat,
                                           edits: seq<Edit>)
    requires InTurn(v0, v, sessionId, turnId, limit) && WithinLimit(v.files, edits, limit)
    ensures InTurn(v0, EditAll(v, limit, sessionId, turnId, edits), sessionId, turnId, limit)
    ensures EditAll(v, limit, sessionId, turnId, edits).files == EditedAll(v.files, edits)
    decreases |edits|
  {
    if edits != [] {
      hide InTurn, EditFile, Edited, WithinLimit, TooLarge, Read;
      var n := |edits| - 1;
      LimitOfPrefix(v.files, edits, limit);
      EditsStayInTurn(v0, v, sessionId, turnId, limit, edits[..n]);
      EditStaysInTurn(v0, EditAll(v, limit, sessionId, turnId, edits[..n]), sessionId, turnId, limit, edits[n]);
    }
  }

  /** After a turn its own checkpoint tracks it and every older checkpoint is untouched. */
  ghost predicate TurnDone(v0: Vault, v: Vault, sessionId: SessionId, limit: nat) {
    var id := v0.nextId;
    && ValidVault(v) && BlobsGrow(v0.blobs, v.blobs)
    && v.nextId == id + 1 && id in v.manifests && v.turns == v0.turns
    && v.manifests[id].sessionId == sessionId
    && Tracks(v0.files, v.files, v.manifests[id].entries, v.blobs, limit)
    && (forall k :: k < id && k in v0.manifests ==> k in v.manifests && v.manifests[k] == v0.manifests[k])
  }

  lemma SealsTurn(v0: Vault, v: Vault, sessionId: SessionId, turnId: TurnId, status: CheckpointStatus, limit: nat)
    requires turnId !in v0.turns && InTurn(v0, v, sessionId, turnId, limit)
    ensures TurnDone(v0, SealTurn(v, sessionId, turnId, status), sessionId, limit)
    ensures SealTurn(v, sessionId, turnId, status).files == v.files
  {
    hide Tracks, EntriesOk;
    SealKeepsValid(v, sessionId, turnId, status);
    assert SealTurn(v, sessionId, turnId, status).turns == v0.turns;
  }

  lemma TurnIsTracked(v0: Vault, sessionId: SessionId, t: Turn, limit: nat)
    requires ValidVault(v0) && t.turnId !in v0.turns && WithinLimit(v0.files, t.edits, limit)
    ensures TurnDone(v0, RunTurn(v0, limit, sessionId, t), sessionId, limit)
    ensures RunTurn(v0, limit, sessionId, t).files == EditedAll(v0.files, t.edits)
  {
    hide InTurn, TurnDone, EditAll, SealTurn, WithinLimit, ValidVault;
    BeginsTurn(v0, sessionId, t.turnId, t.conversationId, limit);
    var begun := BeginTurn(v0, sessionId, t.turnId, t.conversationId);
    EditsStayInTurn(v0, begun, sessionId, t.turnId, limit, t.edits);
    SealsTurn(v0, EditAll(begun, limit, sessionId, t.turnId, t.edits), sessionId, t.turnId, t.status, limit);
  }

  /** A tracked checkpoint restores without conflict to the files before its turn. */
  lemma TrackedRestoreUndoes(start: Files, v: Vault, sessionId: SessionId, id: CheckpointId, limit: nat)
    requires ValidVault(v) && id in v.manifests && v.manifests[id].sessionId == sessionId
    requires Tracks(start, v.files, v.manifests[id].entries, v.blobs, limit)
    ensures var r := Restore(v, sessionId, id, FilesOnly, false, None); r.outcome.Restored? && r.files == start
  {
    var entries := v.manifests[id].entries;
    RestoreIsAllOrNothing(v, sessionId, id, None);
    var r := Restore(v, sessionId, id, FilesOnly, false, None);
    forall p
      ensures Read(r.files, p) == Read(start, p)
    {
      if Mentions(entries, p) {
        var e :| e in entries && e.path == p;
      }
    }
    SameReadsSameFiles(r.files, start);
  }

  lemma SameReadsSameFiles(a: Files, b: Files)
    requires forall p :: Read(a, p) == Read(b, p)
    ensures a == b
  {
    forall p
      ensures p in a <==> p in b
    {
      assert Read(a, p) == Read(b, p);
    }
    forall p | p in a
      ensures a[p] == b[p]
    {
      assert Read(a, p) == Read(b, p);
    }
  }

  // ---------------------------------------------------------------------------
  // Turns that exceed the limit
  // ---------------------------------------------------------------------------

  /** Whatever is recoverable is small now. */
  predicate SmallWhereRecoverable(now: Files, entries: seq<Entry>, limit: nat) {
    forall e :: e in entries && e.recoverable ==> !TooLarge(Read(now, e.path), limit)
  }

  predicate HasUnrecoverable(entries: seq<Entry>) {
    exists e :: e in entries && !e.recoverable
  }

  /** An edit over the limit leaves an unrecoverable entry, and such entries stay. */
  lemma OversizedEditSpoils(start: Files, now: Files, entries: seq<Entry>, blobs: Blobs, e: Edit, limit: nat)
    requires Sorted(entries) && SmallWhereRecoverable(now, entries, limit)
    ensures var next := MergeEntry(entries, blobs, e.path, Read(now, e.path), e.after, limit);
      && SmallWhereRecoverable(Edited(now, e), next, limit)
      && (HasUnrecoverable(entries) || TooLarge(Read(now, e.path), limit) || TooLarge(e.after, limit) ==>
          HasUnrecoverable(next))
  {
    var before := Read(now, e.path);
    var next := MergeEntry(entries, blobs, e.path, before, e.after, limit);
    var i := EntryIndex(entries, e.path);
    EditedElsewhere(now, e);
    forall x | x in next && x.recoverable
      ensures !TooLarge(Read(Edited(now, e), x.path), limit)
    {
      if x.path == e.path {
        TouchedEntryIs(entries, blobs, e.path, before, e.after, limit, x);
      } else {
        OtherEntryKept(entries, blobs, e.path, before, e.after, limit, x);
      }
    }
    if i < |entries| {
      assert entries[i] in entries && next[i] in next;
      if HasUnrecoverable(entries) {
        var k :| 0 <= k < |entries| && !entries[k].recoverable;
        assert next[k] in next && !next[k].recoverable;
      }
    } else {
      assert CreateEntry(e.path, before, e.after, None, limit) in next;
    }
  }

  lemma {:induction false} OversizedTurnSpoils(v0: Vault, v: Vault, sessionId: SessionId, turnId: TurnId, limit: nat,
                                               edits: seq<Edit>)
    requires TurnOpen(v0, v, sessionId, turnId) && v.manifests[v0.nextId].entries == []
    ensures var w := EditAll(v, limit, sessionId, turnId, edits);
      && TurnOpen(v0, w, sessionId, turnId) && w.files == EditedAll(v.files, edits)
      && SmallWhereRecoverable(w.files, w.manifests[v0.nextId].entries, limit)
      && (!WithinLimit(v.files, edits, limit) ==> HasUnrecoverable(w.manifests[v0.nextId].entries))
    decreases |edits|
  {
    if edits != [] {
      hide TurnOpen, EditFile, Edited, WithinLimit, TooLarge, Read, MergeEntry, SmallWhereRecoverable, HasUnrecoverable;
      var n := |edits| - 1;
      OversizedTurnSpoils(v0, v, sessionId, turnId, limit, edits[..n]);
      var u := EditAll(v, limit, sessionId, turnId, edits[..n]);
      EditKeepsTurnOpen(v0, u, sessionId, turnId, limit, edits[n]);
      OpenTurnIsSorted(v0, u, sessionId, turnId);
      OversizedEditSpoils(v0.files, u.files, u.manifests[v0.nextId].entries,
                          BlobsFor(u.blobs, Read(u.files, edits[n].path), edits[n].after, None, limit),
                              edits[n], limit);
      LimitOfLonger(v.files, edits, limit);
    } else {
      NothingSpoiled(v.files, limit);
    }
  }

  lemma NothingSpoiled(files: Files, limit: nat)
    ensures SmallWhereRecoverable(files, [], limit) && WithinLimit(files, [], limit)
  {
  }

  lemma OpenTurnIsSorted(v0: Vault, v: Vault, sessionId: SessionId, turnId: TurnId)
    requires TurnOpen(v0, v, sessionId, turnId)
    ensures v0.nextId in v.manifests && Sorted(v.manifests[v0.nextId].entries)
  {
  }

  lemma LimitOfLonger(files: Files, edits: seq<Edit>, limit: nat)
    requires edits != []
    ensures var n := |edits| - 1;
      WithinLimit(files, edits[..n], limit)
      && !TooLarge(Read(EditedAll(files, edits[..n]), edits[n].path), limit) && !TooLarge(edits[n].after, limit)
      ==> WithinLimit(files, edits, limit)
  {
    hide EditedAll, Edited, Read, TooLarge;
    var n := |edits| - 1;
    assert forall k :: 0 <= k < n ==> edits[..n][..k] == edits[..k];
  }

  /** Right after a turn, its checkpoint restores the files of before exactly when no edit went over the limit. */
  lemma TurnRestoresIffWithinLimit(v0: Vault, sessionId: SessionId, t: Turn, limit: nat)
    requires ValidVault(v0) && t.turnId !in v0.turns
    ensures var w := RunTurn(v0, limit, sessionId, t);
        var r := Restore(w, sessionId, v0.nextId, FilesOnly, false, None);
      && (r.outcome.Restored? <==> WithinLimit(v0.files, t.edits, limit))
      && (r.outcome.Restored? ==> r.files == v0.files)
      && (!r.outcome.Restored? ==> r.files == w.files)
  {
    var w := RunTurn(v0, limit, sessionId, t);
    if WithinLimit(v0.files, t.edits, limit) {
      hide RunTurn, Restore, WithinLimit;
      TurnIsTracked(v0, sessionId, t, limit);
      TrackedRestoreUndoes(v0.files, w, sessionId, v0.nextId, limit);
    } else {
      hide Restore, WithinLimit;
      BeginsTurn(v0, sessionId, t.turnId, t.conversationId, limit);
      var begun := BeginTurn(v0, sessionId, t.turnId, t.conversationId);
      OversizedTurnSpoils(v0, begun, sessionId, t.turnId, limit, t.edits);
      SpoiledTurnConflicts(v0, EditAll(begun, limit, sessionId, t.turnId, t.edits), sessionId, t.turnId, t.status);
    }
  }

  lemma SpoiledTurnConflicts(v0: Vault, v: Vault, sessionId: SessionId, turnId: TurnId, status: CheckpointStatus)
    requires TurnOpen(v0, v, sessionId, turnId) && HasUnrecoverable(v.manifests[v0.nextId].entries)
    ensures var w := SealTurn(v, sessionId, turnId, status);
        var r := Restore(w, sessionId, v0.nextId, FilesOnly, false, None);
      r.outcome.Conflicted? && r.files == w.files
  {
    SealKeepsValid(v, sessionId, turnId, status);
    var w := SealTurn(v, sessionId, turnId, status);
    var e :| e in v.manifests[v0.nextId].entries && !e.recoverable;
    assert e in w.manifests[v0.nextId].entries && EntryConflicts(e, w.files);
    RestoreIsAllOrNothing(w, sessionId, v0.nextId, None);
  }

  // ---------------------------------------------------------------------------
  // The stack of turns
  // ---------------------------------------------------------------------------

  function RunTurns(v: Vault, limit: nat, sessionId: SessionId, turns: seq<Turn>): Vault {
    if turns == [] then v
    else RunTurn(RunTurns(v, limit, sessionId, turns[..|turns| - 1]), limit, sessionId, turns[|turns| - 1])
  }

  datatype Undone = Undone(files: Files, allRestored: bool)

  /** Unforced restores of the checkpoints `base + n - 1` down to `base`. */
  function UndoAll(v: Vault, sessionId: SessionId, base: CheckpointId, n: nat): Undone
    decreases n
  {
    if n == 0 then Undone(v.files, true)
    else
      var r := Restore(v, sessionId, base + n - 1, FilesOnly, false, None);
      if !r.outcome.Restored? then Undone(v.files, false)
      else UndoAll(v.(files := r.files), sessionId, base, n - 1)
  }

  predicate TurnsWithinLimit(v: Vault, limit: nat, sessionId: SessionId, turns: seq<Turn>) {
    forall k :: 0 <= k < |turns| ==>
      && turns[k].turnId !in v.turns
      && WithinLimit(RunTurns(v, limit, sessionId, turns[..k]).files, turns[k].edits, limit)
  }

  /** `w` holds the same files and the same older checkpoints as `u`, over at least its blobs. */
  ghost predicate Extends(u: Vault, w: Vault, bound: nat) {
    && ValidVault(u) && ValidVault(w) && BlobsGrow(u.blobs, w.blobs) && u.files == w.files
    && forall k :: k < bound && k in u.manifests ==> k in w.manifests && w.manifests[k] == u.manifests[k]
  }

  lemma {:induction false} SameRestore(files: Files, entries: seq<Entry>, a: Blobs, b: Blobs, k: nat)
    requires k <= |entries| && EntriesOk(entries, a) && BlobsGrow(a, b)
    ensures RestoreFirst(files, entries, a, k) == RestoreFirst(files, entries, b, k)
  {
    if k > 0 {
      SameRestore(files, entries, a, b, k - 1);
      assert entries[k - 1] in entries;
    }
  }

  lemma {:induction false} UndoIgnoresNewer(u: Vault, w: Vault, sessionId: SessionId, base: CheckpointId, n: nat)
    requires Extends(u, w, base + n)
    requires UndoAll(u, sessionId, base, n).allRestored
    ensures UndoAll(w, sessionId, base, n) == UndoAll(u, sessionId, base, n)
    decreases n
  {
    if n > 0 {
      var id := base + n - 1;
      var entries := u.manifests[id].entries;
      SameRestore(u.files, entries, u.blobs, w.blobs, |entries|);
      var r := Restore(u, sessionId, id, FilesOnly, false, None);
      assert Restore(w, sessionId, id, FilesOnly, false, None) == r;
      UndoIgnoresNewer(u.(files := r.files), w.(files := r.files), sessionId, base, n - 1);
    }
  }

  /** Undoing one more turn and then the older ones. */
  lemma UndoOnTop(u: Vault, w: Vault, sessionId: SessionId, base: CheckpointId, n: nat, limit: nat)
    requires ValidVault(u) && TurnDone(u, w, sessionId, limit) && u.nextId == base + n
    requires UndoAll(u, sessionId, base, n).allRestored
    ensures UndoAll(w, sessionId, base, n + 1) == UndoAll(u, sessionId, base, n)
  {
    hide Restore, Tracks;
    TrackedRestoreUndoes(u.files, w, sessionId, u.nextId, limit);
    UndoIgnoresNewer(u, w.(files := u.files), sessionId, base, n);
  }

  /** Any turns, undone from the newest to the oldest, meet no conflict and leave exactly the initial files. */
  lemma {:induction false} UndoIsAStack(v: Vault, limit: nat, sessionId: SessionId, turns: seq<Turn>)
    requires ValidVault(v) && TurnsWithinLimit(v, limit, sessionId, turns)
    ensures var w := RunTurns(v, limit, sessionId, turns);
      && ValidVault(w) && w.nextId == v.nextId + |turns| && w.turns == v.turns && BlobsGrow(v.blobs, w.blobs)
      && UndoAll(w, sessionId, v.nextId, |turns|) == Undone(v.files, true)
    decreases |turns|
  {
    hide RunTurn, ValidVault, WithinLimit, Tracks, Restore;
    if turns != [] {
      var n := |turns| - 1;
      assert forall k :: 0 <= k < n ==> turns[..n][..k] == turns[..k];
      UndoIsAStack(v, limit, sessionId, turns[..n]);
      var u := RunTurns(v, limit, sessionId, turns[..n]);
      TurnIsTracked(u, sessionId, turns[n], limit);
      UndoOnTop(u, RunTurn(u, limit, sessionId, turns[n]), sessionId, v.nextId, n, limit);
    }
  }
}
