/**
 * What recording and restoring do, path by path: which files a restore touches,
 * forced or not, what it reports, and what an entry keeps of a change.
 */
module CheckpointEffects {
  import opened GoalTypes
  import opened ByteStrings
  import opened CheckpointVault

  // ---------------------------------------------------------------------------
  // Restoring
  // ---------------------------------------------------------------------------

  predicate SameAt(a: Files, b: Files, p: Path) {
    (p in a <==> p in b) && (p in a ==> a[p] == b[p])
  }

  /** The path of the entry holds what it held before the turn, or nothing if it did not exist. */
  predicate HoldsBefore(e: Entry, blobs: Blobs, files: Files) {
    if e.beforeExists then
      && e.beforeBlob.Some? && e.beforeBlob.value in blobs
      && e.path in files && files[e.path] == blobs[e.beforeBlob.value]
    else e.path !in files
  }

  /** An entry whose contents were kept decides about its path. */
  predicate IsKept(entries: seq<Entry>, p: Path) {
    exists e :: e in entries && e.path == p && e.recoverable
  }

  ghost predicate Undone(entries: seq<Entry>, blobs: Blobs, before: Files, after: Files) {
    && (forall e :: e in entries && e.recoverable ==> HoldsBefore(e, blobs, after))
    && (forall p :: !IsKept(entries, p) ==> SameAt(after, before, p))
  }

  /** All paths of kept entries, each once and in order. */
  ghost predicate ListsKept(paths: seq<Path>, entries: seq<Entry>) {
    && (forall p :: p in paths <==> IsKept(entries, p))
    && (forall i, j :: 0 <= i < j < |paths| ==> paths[i] < paths[j])
  }

  lemma OneEntryUndone(files: Files, e: Entry, blobs: Blobs)
    requires EntryOk(e, blobs)
    ensures var after := RestoreEntry(files, e, blobs);
      && (e.recoverable ==> HoldsBefore(e, blobs, after))
      && (!e.recoverable ==> SameAt(after, files, e.path))
      && forall p :: p != e.path ==> SameAt(after, files, p)
  {
  }

  lemma {:induction false} EntriesUndone(files: Files, entries: seq<Entry>, blobs: Blobs, k: nat)
    requires k <= |entries| && EntriesOk(entries, blobs)
    ensures Undone(entries[..k], blobs, files, RestoreFirst(files, entries, blobs, k))
  {
    if k > 0 {
      EntriesUndone(files, entries, blobs, k - 1);
      var half := RestoreFirst(files, entries, blobs, k - 1);
      assert entries[k - 1] in entries;
      OneEntryUndone(half, entries[k - 1], blobs);
      hide RestoreEntry, EntryOk, HoldsBefore;
      OneMoreUndone(entries, blobs, files, half, RestoreEntry(half, entries[k - 1], blobs), k);
    }
  }

  lemma OneMoreUndone(entries: seq<Entry>, blobs: Blobs, files: Files, half: Files, full: Files, k: nat)
    requires 0 < k <= |entries| && Sorted(entries) && Undone(entries[..k - 1], blobs, files, half)
    requires entries[k - 1].recoverable ==> HoldsBefore(entries[k - 1], blobs, full)
    requires !entries[k - 1].recoverable ==> SameAt(full, half, entries[k - 1].path)
    requires forall p :: p != entries[k - 1].path ==> SameAt(full, half, p)
    ensures Undone(entries[..k], blobs, files, full)
  {
    var last := entries[k - 1];
    assert forall i :: 0 <= i < k - 1 ==> entries[..k][i] == entries[..k - 1][i];
    forall e | e in entries[..k] && e.recoverable
      ensures HoldsBefore(e, blobs, full)
    {
      var i :| 0 <= i < k && entries[i] == e;
      if i < k - 1 {
        assert e in entries[..k - 1] && e.path != last.path && SameAt(full, half, e.path);
      }
    }
    forall p | !IsKept(entries[..k], p)
      ensures SameAt(full, files, p)
    {
      assert last in entries[..k];
      assert !IsKept(entries[..k - 1], p) by {
        assert forall e :: e in entries[..k - 1] ==> e in entries[..k];
      }
      assert SameAt(half, files, p);
      assert SameAt(full, half, p);
    }
  }

  lemma LastIsBehind(entries: seq<Entry>)
    requires Sorted(entries) && entries != []
    ensures forall e :: e in entries[..|entries| - 1] ==> e.path < entries[|entries| - 1].path
    ensures Sorted(entries[..|entries| - 1])
  {
  }

  lemma {:induction false} KeptAreListed(entries: seq<Entry>)
    requires Sorted(entries)
    ensures ListsKept(RestorablePaths(entries), entries)
  {
    if entries != [] {
      var front, last := entries[..|entries| - 1], entries[|entries| - 1];
      LastIsBehind(entries);
      KeptAreListed(front);
      assert entries == front + [last];
      forall p: Path
        ensures IsKept(entries, p) <==> IsKept(front, p) || (last.path == p && last.recoverable)
        ensures IsKept(front, p) ==> p < last.path
      {
      }
      var listed := RestorablePaths(front);
      assert forall i :: 0 <= i < |listed| ==> listed[i] in listed;
    }
  }

  /** The content of the path is not the one the turn left behind. */
  predicate IsModified(e: Entry, files: Files) {
    if e.path in files then e.afterHash != Some(Hash(files[e.path])) else e.afterHash != None
  }

  predicate IsReportOf(c: FileConflict, e: Entry, files: Files) {
    c.path == e.path &&
      (if e.recoverable then c.reason == ModifiedAfter && IsModified(e, files) else c.reason == Unrecoverable)
  }

  /** One report for each entry that was not kept or has been modified, in order. */
  ghost predicate ReportsConflicts(conflicts: seq<FileConflict>, entries: seq<Entry>, files: Files) {
    && (forall c :: c in conflicts <==>
        exists e :: e in entries && IsReportOf(c, e, files))
    && (forall i, j :: 0 <= i < j < |conflicts| ==> conflicts[i].path < conflicts[j].path)
  }

  lemma {:induction false} ConflictsAreReported(entries: seq<Entry>, files: Files)
    requires Sorted(entries)
    ensures ReportsConflicts(Conflicts(entries, files), entries, files)
  {
    if entries != [] {
      var front, last := entries[..|entries| - 1], entries[|entries| - 1];
      LastIsBehind(entries);
      ConflictsAreReported(front, files);
      hide ReportsConflicts, EntryConflicts;
      OneMoreReported(Conflicts(front, files), front, last, files);
      assert entries == front + [last];
    }
  }

  lemma OneMoreReported(reports: seq<FileConflict>, front: seq<Entry>, last: Entry, files: Files)
    requires ReportsConflicts(reports, front, files) && forall e :: e in front ==> e.path < last.path
    ensures var report := FileConflict(last.path, if last.recoverable then ModifiedAfter else Unrecoverable);
      ReportsConflicts(if EntryConflicts(last, files) then reports + [report] else reports, front + [last], files)
  {
    hide IsReportOf, EntryConflicts;
    var report := FileConflict(last.path, if last.recoverable then ModifiedAfter else Unrecoverable);
    var more := if EntryConflicts(last, files) then reports + [report] else reports;
    forall c
      ensures c in more <==> exists e :: e in front + [last] && IsReportOf(c, e, files)
    {
      ReportOfLast(c, last, files);
      assert last in front + [last] && forall e :: e in front ==> e in front + [last];
      assert (exists e :: e in front + [last] && IsReportOf(c, e, files)) <==>
          (exists e :: e in front && IsReportOf(c, e, files)) || IsReportOf(c, last, files);
    }
    forall i | 0 <= i < |reports|
      ensures reports[i].path < last.path
    {
      assert reports[i] in reports;
      var e :| e in front && IsReportOf(reports[i], e, files);
      ReportOfLast(reports[i], e, files);
    }
  }

  lemma ReportOfLast(c: FileConflict, e: Entry, files: Files)
    ensures IsReportOf(c, e, files) <==>
        EntryConflicts(e, files) && c == FileConflict(e.path, if e.recoverable then ModifiedAfter else Unrecoverable)
  {
  }

  /** What a restore leaves of the files, conflict or not. */
  ghost predicate LeavesFiles(v: Vault, c: Checkpoint, mode: RestoreMode, force: bool, r: RestoreResult) {
    if r.outcome.Conflicted? then
      && r.files == v.files && mode != ConversationOnly && !force && r.outcome.conflicts != []
      && ReportsConflicts(r.outcome.conflicts, c.entries, v.files)
    else if mode == ConversationOnly then r.files == v.files
    else Undone(c.entries, v.blobs, v.files, r.files)
  }

  /**
   * In every mode, forced or not: a restore that meets a conflict reports all of them
   * and changes nothing; otherwise every path whose contents were kept holds what it
   * held before the turn, and every other path, one that was too large to keep
   * included, holds what it held before the restore.
   */
  lemma RestoreActsPathByPath(v: Vault, sessionId: SessionId, id: CheckpointId, mode: RestoreMode, force: bool,
                              callback: Callback)
    requires ValidVault(v) && id in v.manifests && v.manifests[id].sessionId == sessionId
    ensures LeavesFiles(v, v.manifests[id], mode, force, Restore(v, sessionId, id, mode, force, callback))
  {
    var entries := v.manifests[id].entries;
    EntriesUndone(v.files, entries, v.blobs, |entries|);
    assert entries[..|entries|] == entries;
    ConflictsAreReported(entries, v.files);
    hide RestoreFirst, Undone, ReportsConflicts, RestorablePaths, ValidVault, OffersConversation;
  }

  /** A conflict is reported exactly when files are to be restored, unforced, and one was not kept or is modified. */
  lemma RestoreConflictsIff(v: Vault, sessionId: SessionId, id: CheckpointId, mode: RestoreMode, force: bool,
                            callback: Callback)
    requires id in v.manifests && v.manifests[id].sessionId == sessionId
    ensures Restore(v, sessionId, id, mode, force, callback).outcome.Conflicted? <==>
        && mode != ConversationOnly && !force
        && exists e :: e in v.manifests[id].entries && (!e.recoverable || IsModified(e, v.files))
  {
    hide RestoreFirst, RestorablePaths, OffersConversation, Conflicts;
    assert forall e :: EntryConflicts(e, v.files) <==> !e.recoverable || IsModified(e, v.files);
  }

  /** A restore that succeeds lists exactly the paths it restored, in order, and says if it restored a conversation. */
  lemma RestoreListsPaths(v: Vault, sessionId: SessionId, id: CheckpointId, mode: RestoreMode, force: bool,
                          callback: Callback)
    requires ValidVault(v) && id in v.manifests && v.manifests[id].sessionId == sessionId
    ensures var r := Restore(v, sessionId, id, mode, force, callback);
      r.outcome.Restored? ==>
        && (if mode == ConversationOnly then r.outcome.paths == []
            else ListsKept(r.outcome.paths, v.manifests[id].entries))
        && r.outcome.conversation == (mode != FilesOnly)
  {
    KeptAreListed(v.manifests[id].entries);
    hide RestoreFirst, ListsKept, RestorablePaths, ValidVault, OffersConversation, Conflicts;
  }

  /** A checkpoint of another session, or none, is not found, and nothing is touched. */
  lemma OnlyOwnCheckpointsRestore(v: Vault, sessionId: SessionId, id: CheckpointId, mode: RestoreMode, force: bool,
                                  callback: Callback)
    ensures var r := Restore(v, sessionId, id, mode, force, callback);
      r.outcome.NotFound? <==> id !in v.manifests || v.manifests[id].sessionId != sessionId
    ensures var r := Restore(v, sessionId, id, mode, force, callback);
      r.outcome.NotFound? ==> r.files == v.files
  {
    hide RestoreFirst, Conflicts, RestorablePaths;
  }

  /**
   * Unless a conflict is met, a restore of the conversation fails without a recorded
   * conversation or a callback, and otherwise ends as the callback does.
   */
  lemma ConversationIsRestoredIff(v: Vault, sessionId: SessionId, id: CheckpointId, mode: RestoreMode, force: bool,
                                  callback: Callback)
    requires id in v.manifests && v.manifests[id].sessionId == sessionId && mode != FilesOnly
    ensures var c := v.manifests[id];
      var outcome := Restore(v, sessionId, id, mode, force, callback).outcome;
      if outcome.Conflicted? then mode == Both
      else if c.conversationId == None || c.conversationId == Some("") || callback == None then
        outcome == NoConversation
      else if callback.value(sessionId, c.conversationId.value) then outcome.Restored? && outcome.conversation
      else outcome == ConversationFailed
  {
    hide RestoreFirst, Conflicts, RestorablePaths;
  }

  /** A turn that is open under another session is refused by every operation. */
  lemma ForeignTurnsAreRefused(v: Vault, limit: nat, sessionId: SessionId, turnId: TurnId, path: Path,
                               before: Option<Bytes>, after: Option<Bytes>, conversationId: Option<string>,
                               status: CheckpointStatus)
    requires ValidVault(v)
    ensures IsForeignTurn(v, sessionId, turnId) <==>
        turnId in v.turns && v.manifests[v.turns[turnId]].sessionId != sessionId
    ensures IsForeignTurn(v, sessionId, turnId) ==>
      && BeginTurn(v, sessionId, turnId, conversationId) == v
      && RecordChange(v, limit, sessionId, turnId, path, before, after) == v
      && SealTurn(v, sessionId, turnId, status) == v
  {
    hide MergeEntry, MergeBlobs, BlobsFor, EntriesOk, FaithfulBlobs;
  }

  // ---------------------------------------------------------------------------
  // Recording
  // ---------------------------------------------------------------------------

  predicate Fits(content: Option<Bytes>, limit: nat) {
    content.Some? ==> |content.value| <= limit
  }

  /** A zero among the first 8192 bytes. */
  predicate LooksBinary(content: Option<Bytes>) {
    content.Some? && exists k :: 0 <= k < |content.value| && k < 8192 && content.value[k] == 0
  }

  predicate IsDigestOf(d: Option<Digest>, content: Option<Bytes>) {
    d.Some? == content.Some? && (d.Some? ==> d.value == Sha256(content.value))
  }

  predicate IsLength(n: nat, content: Option<Bytes>) {
    if content.Some? then n == |content.value| else n == 0
  }

  lemma BinaryIs(content: Option<Bytes>)
    ensures IsBinary(content) <==> LooksBinary(content)
  {
    if content.Some? && |content.value| > 8192 {
      assert forall k :: 0 <= k < 8192 ==> content.value[..8192][k] == content.value[k];
    }
  }

  /** The after side of an entry is that of the last change. */
  predicate TakesAfter(e: Entry, after: Option<Bytes>) {
    && e.afterExists == after.Some? && IsDigestOf(e.afterHash, after) && IsLength(e.sizeAfter, after)
    && (if e.recoverable then IsDigestOf(e.afterBlob, after) else e.afterBlob == None)
  }

  /** The first change of a path is recorded with both contents, which are kept when both fit. */
  lemma FirstChangeIsRecorded(path: Path, before: Option<Bytes>, after: Option<Bytes>, limit: nat)
    ensures var e := CreateEntry(path, before, after, None, limit);
      && e.path == path && TakesAfter(e, after)
      && e.beforeExists == before.Some? && IsDigestOf(e.beforeHash, before) && IsLength(e.sizeBefore, before)
      && (e.recoverable <==> Fits(before, limit) && Fits(after, limit))
      && (if e.recoverable then IsDigestOf(e.beforeBlob, before) else e.beforeBlob == None)
      && (e.binary <==> LooksBinary(before) || LooksBinary(after))
  {
    BinaryIs(before);
    BinaryIs(after);
    hide IsBinary, LooksBinary;
  }

  /** A later change keeps the before side and replaces the after side; what was not kept once stays so. */
  lemma LaterChangeIsMerged(e: Entry, blobs: Blobs, after: Option<Bytes>, limit: nat)
    requires EntryOk(e, blobs) && FaithfulBlobs(blobs) && (e.recoverable ==> Fits(StoredBefore(e, blobs), limit))
    ensures var next := CreateEntry(e.path, StoredBefore(e, blobs), after, Some(e), limit);
      && next.path == e.path && TakesAfter(next, after)
      && next.beforeExists == e.beforeExists && next.sizeBefore == e.sizeBefore && next.binary == e.binary
      && (e.recoverable || e.beforeHash.Some? ==> next.beforeHash == e.beforeHash)
      && (e.recoverable || e.beforeBlob.Some? ==> next.beforeBlob == e.beforeBlob)
      && (next.recoverable <==> e.recoverable && Fits(after, limit))
  {
    hide IsBinary;
  }

  /** The revision counts the changes of a checkpoint, and a begun turn starts without any. */
  lemma ChangesAreCounted(v: Vault, limit: nat, sessionId: SessionId, turnId: TurnId, path: Path,
                          before: Option<Bytes>, after: Option<Bytes>, conversationId: Option<string>,
                          status: CheckpointStatus)
    requires ValidVault(v) && !IsForeignTurn(v, sessionId, turnId)
    ensures var c := CheckpointOf(BeginTurn(v, sessionId, turnId, conversationId), sessionId, turnId);
      && c.Some?
      && (turnId !in v.turns ==>
           c == Some(Checkpoint(v.nextId, sessionId, turnId, 0, OpenTurn, conversationId, [])))
      && (turnId in v.turns ==> BeginTurn(v, sessionId, turnId, conversationId) == v)
    ensures var c := CheckpointOf(BeginTurn(v, sessionId, turnId, None), sessionId, turnId);
      var next := CheckpointOf(RecordChange(v, limit, sessionId, turnId, path, before, after), sessionId, turnId);
      && c.Some? && next.Some?
      && next.value == c.value.(entries := next.value.entries, revision := c.value.revision + 1)
    ensures turnId in v.turns ==>
      var sealed := SealTurn(v, sessionId, turnId, status);
      && v.turns[turnId] in sealed.manifests
      && sealed.manifests[v.turns[turnId]]
          == v.manifests[v.turns[turnId]].(status := status, revision := v.manifests[v.turns[turnId]].revision + 1)
      && (forall t :: t in sealed.turns <==> t in v.turns && t != turnId)
      && sealed.files == v.files && sealed.blobs == v.blobs
  {
    hide MergeEntry, MergeBlobs, BlobsFor, EntriesOk, FaithfulBlobs;
  }
}
