/** The checkpoint service as the object that updates workspace, blobs and manifests in place. */
module FileCheckpointService {
  import opened GoalTypes
  import opened ByteStrings
  import opened CheckpointVault

  class Service {
    const maxFileBytes: nat
    const restoreConversation: Callback
    var files: Files
    var blobs: Blobs
    var manifests: map<CheckpointId, Checkpoint>
    var turns: map<TurnId, CheckpointId>
    var nextId: CheckpointId

    ghost function View(): Vault
      reads this
    {
      Vault(files, blobs, manifests, turns, nextId)
    }

    ghost predicate Valid()
      reads this
    {
      ValidVault(View())
    }

    constructor (files: Files, maxFileBytes: nat, restoreConversation: Callback)
      ensures Valid() && View() == Vault(files, map[], map[], map[], 0)
      ensures this.maxFileBytes == maxFileBytes && this.restoreConversation == restoreConversation
    {
      this.maxFileBytes, this.restoreConversation := maxFileBytes, restoreConversation;
      this.files, blobs, manifests, turns, nextId := files, map[], map[], map[], 0;
    }

    /**
     * The checkpoint of the turn, open already or opened now; none when the turn
     * belongs to another session, which throws.
     */
    method BeginTurn(sessionId: SessionId, turnId: TurnId, conversationId: Option<string>)
      returns (checkpoint: Option<Checkpoint>)
      requires Valid()
      modifies this`manifests, this`turns, this`nextId
      ensures Valid() && View() == CheckpointVault.BeginTurn(old(View()), sessionId, turnId, conversationId)
      ensures checkpoint == CheckpointOf(View(), sessionId, turnId)
      ensures checkpoint.None? <==> IsForeignTurn(old(View()), sessionId, turnId)
    {
      BeginKeepsValid(View(), sessionId, turnId, conversationId);
      if turnId in turns {
        var present := manifests[turns[turnId]];
        return if present.sessionId == sessionId then Some(present) else None;
      }
      var begun := Checkpoint(nextId, sessionId, turnId, 0, OpenTurn, conversationId, []);
      manifests := manifests[nextId := begun];
      turns := turns[turnId := nextId];
      nextId := nextId + 1;
      return Some(begun);
    }

    /** Writes the content unless the store already holds it. */
    method StoreBlob(content: Option<Bytes>)
      modifies this`blobs
      ensures blobs == WriteBlob(old(blobs), content)
    {
      if content.Some? && Hash(content.value) !in blobs {
        blobs := blobs[Hash(content.value) := content.value];
      }
    }

    method MakeEntry(path: Path, before: Option<Bytes>, after: Option<Bytes>, original: Option<Entry>)
      returns (e: Entry)
      modifies this`blobs
      ensures e == CreateEntry(path, before, after, original, maxFileBytes)
      ensures blobs == BlobsFor(old(blobs), before, after, original, maxFileBytes)
    {
      if Recoverable(before, after, original, maxFileBytes) {
        StoreBlob(InitialBefore(before, original));
        StoreBlob(after);
      }
      e := CreateEntry(path, before, after, original, maxFileBytes);
    }

    /** Adds the change to the entries of a checkpoint, or merges it into the entry of its path. */
    method MergeChange(before: seq<Entry>, path: Path, was: Option<Bytes>, after: Option<Bytes>)
      returns (entries: seq<Entry>)
      modifies this`blobs
      ensures entries
          == MergeEntry(before, BlobsFor(old(blobs), was, after, None, maxFileBytes), path, was, after, maxFileBytes)
      ensures blobs == MergeBlobs(before, old(blobs), path, was, after, maxFileBytes)
    {
      hide CreateEntry, BlobsFor;
      var entry := MakeEntry(path, was, after, None);
      var i := EntryIndex(before, path);
      if i < |before| {
        var merged := MakeEntry(path, StoredBefore(before[i], blobs), after, Some(before[i]));
        entries := before[i := merged];
      } else {
        entries := InsertSorted(before, entry);
      }
    }

    /**
     * Records a change and returns the checkpoint with it; none when the turn belongs
     * to another session, which throws.
     */
    method RecordChange(sessionId: SessionId, turnId: TurnId, path: Path, before: Option<Bytes>, after: Option<Bytes>)
      returns (recorded: Option<Checkpoint>)
      requires Valid()
      modifies this`blobs, this`manifests, this`turns, this`nextId
      ensures Valid()
          && View() == CheckpointVault.RecordChange(old(View()), maxFileBytes, sessionId, turnId, path, before, after)
      ensures recorded == CheckpointOf(View(), sessionId, turnId)
      ensures recorded.None? <==> IsForeignTurn(old(View()), sessionId, turnId)
    {
      hide EntriesOk, MergeEntry, MergeBlobs, BlobsFor;
      RecordKeepsValid(View(), maxFileBytes, sessionId, turnId, path, before, after);
      var current := BeginTurn(sessionId, turnId, None);
      if current.None? {
        return None;
      }
      var checkpoint := current.value;
      var entries := MergeChange(checkpoint.entries, path, before, after);
      checkpoint := checkpoint.(entries := entries, revision := checkpoint.revision + 1);
      manifests := manifests[checkpoint.id := checkpoint];
      return Some(checkpoint);
    }

    /** Seals the turn; nothing happens when it is not open, and a foreign session throws. */
    method SealTurn(sessionId: SessionId, turnId: TurnId, status: CheckpointStatus)
      returns (sealed: Option<Checkpoint>, threw: bool)
      requires Valid()
      modifies this`manifests, this`turns
      ensures Valid() && View() == CheckpointVault.SealTurn(old(View()), sessionId, turnId, status)
      ensures threw <==> IsForeignTurn(old(View()), sessionId, turnId)
      ensures sealed.Some? <==> turnId in old(turns) && !threw
      ensures sealed.Some? ==>
          turnId !in turns && sealed.value.status == status && Read(manifests, sealed.value.id) == sealed
    {
      SealKeepsValid(View(), sessionId, turnId, status);
      if turnId !in turns {
        return None, false;
      }
      var checkpoint := manifests[turns[turnId]];
      if checkpoint.sessionId != sessionId {
        return None, true;
      }
      checkpoint := checkpoint.(status := status, revision := checkpoint.revision + 1);
      manifests := manifests[checkpoint.id := checkpoint];
      turns := map t | t in turns && t != turnId :: turns[t];
      return Some(checkpoint), false;
    }

    method FindConflicts(entries: seq<Entry>) returns (conflicts: seq<FileConflict>)
      ensures conflicts == Conflicts(entries, files)
    {
      conflicts := [];
      for k := 0 to |entries|
        invariant conflicts == Conflicts(entries[..k], files)
      {
        assert entries[..k + 1][..k] == entries[..k];
        var entry := entries[k];
        if !entry.recoverable {
          conflicts := conflicts + [FileConflict(entry.path, Unrecoverable)];
          continue;
        }
        var actual := HashOf(Read(files, entry.path));
        if actual != entry.afterHash {
          conflicts := conflicts + [FileConflict(entry.path, ModifiedAfter)];
        }
      }
      assert entries[..|entries|] == entries;
    }

    /** Puts back the recorded files one by one. */
    method RestoreFiles(entries: seq<Entry>) returns (paths: seq<Path>)
      requires EntriesOk(entries, blobs)
      modifies this`files
      ensures files == RestoreFirst(old(files), entries, blobs, |entries|)
      ensures paths == RestorablePaths(entries)
    {
      paths := [];
      for k := 0 to |entries|
        invariant files == RestoreFirst(old(files), entries, blobs, k)
        invariant paths == RestorablePaths(entries[..k])
      {
        assert entries[..k + 1][..k] == entries[..k];
        var entry := entries[k];
        if !entry.recoverable {
          continue;
        }
        if !entry.beforeExists {
          files := map p | p in files && p != entry.path :: files[p];
        } else {
          assert entry in entries && EntryOk(entry, blobs);
          files := files[entry.path := blobs[entry.beforeBlob.value]];
        }
        paths := paths + [entry.path];
      }
      assert entries[..|entries|] == entries;
    }

    method Restore(sessionId: SessionId, id: CheckpointId, mode: RestoreMode, force: bool)
      returns (outcome: RestoreOutcome)
      requires Valid()
      modifies this`files
      ensures Valid()
      ensures RestoreResult(files, outcome)
          == CheckpointVault.Restore(old(View()), sessionId, id, mode, force, restoreConversation)
    {
      hide RestoreFirst, Conflicts, RestorablePaths, EntriesOk;
      if id !in manifests || manifests[id].sessionId != sessionId {
        return RestoreOutcome.NotFound;
      }
      var checkpoint := manifests[id];
      var paths: seq<Path> := [];
      if !mode.ConversationOnly? {
        var conflicts := FindConflicts(checkpoint.entries);
        if conflicts != [] && !force {
          return Conflicted(conflicts);
        }
        paths := RestoreFiles(checkpoint.entries);
      }
      if mode.FilesOnly? {
        return Restored(paths, false);
      }
      if !OffersConversation(checkpoint, restoreConversation) {
        return NoConversation;
      }
      if !restoreConversation.value(checkpoint.sessionId, checkpoint.conversationId.value) {
        return ConversationFailed;
      }
      outcome := Restored(paths, true);
    }
  }
}
