/**
 * Per-turn file checkpoints over a write-once blob store, as functions on one
 * value. A path is named by its rank in the collation order of the workspace,
 * and the content hash is collision-free by construction.
 */
module CheckpointVault {
  import opened GoalTypes
  import opened ByteStrings

  type Path = nat
  type CheckpointId = nat
  type TurnId = string
  type SessionId = string

  /** The digest of a content; distinct contents have distinct digests. */
  datatype Digest = Sha256(preimage: Bytes)

  function Hash(content: Bytes): Digest {
    Sha256(content)
  }

  type Files = map<Path, Bytes>
  type Blobs = map<Digest, Bytes>

  function Read<K, V>(m: map<K, V>, k: K): Option<V> {
    if k in m then Some(m[k]) else None
  }

  datatype Entry = Entry(
    path: Path,
    beforeExists: bool,
    afterExists: bool,
    beforeHash: Option<Digest>,
    afterHash: Option<Digest>,
    beforeBlob: Option<Digest>,
    afterBlob: Option<Digest>,
    binary: bool,
    sizeBefore: nat,
    sizeAfter: nat,
    recoverable: bool)

  datatype CheckpointStatus = OpenTurn | Completed | FailedTurn | Aborted

  datatype Checkpoint = Checkpoint(
    id: CheckpointId,
    sessionId: SessionId,
    turnId: TurnId,
    revision: nat,
    status: CheckpointStatus,
    conversationId: Option<string>,
    entries: seq<Entry>)

  /** Workspace files, blobs, manifests and the checkpoints of the turns in progress. */
  datatype Vault = Vault(
    files: Files,
    blobs: Blobs,
    manifests: map<CheckpointId, Checkpoint>,
    turns: map<TurnId, CheckpointId>,
    nextId: CheckpointId)

  // ---------------------------------------------------------------------------
  // Entries
  // ---------------------------------------------------------------------------

  function HashOf(content: Option<Bytes>): Option<Digest> {
    if content.Some? then Some(Hash(content.value)) else None
  }

  function SizeOf(content: Option<Bytes>): nat {
    if content.Some? then |content.value| else 0
  }

  predicate TooLarge(content: Option<Bytes>, limit: nat) {
    SizeOf(content) > limit
  }

  predicate IsBinary(content: Option<Bytes>) {
    content.Some? && 0 in (if |content.value| <= 8_192 then content.value else content.value[..8_192])
  }

  /** Blobs are written once. */
  function WriteBlob(blobs: Blobs, content: Option<Bytes>): Blobs {
    if content.None? || Hash(content.value) in blobs then blobs
    else blobs[Hash(content.value) := content.value]
  }

  /** What the file held when the turn first touched it. */
  function InitialBefore(before: Option<Bytes>, original: Option<Entry>): Option<Bytes> {
    if original.Some? && !original.value.beforeExists then None else before
  }

  predicate Recoverable(before: Option<Bytes>, after: Option<Bytes>, original: Option<Entry>, limit: nat) {
    (original.Some? ==> original.value.recoverable)
    && !TooLarge(InitialBefore(before, original), limit) && !TooLarge(after, limit)
  }

  function CreateEntry(path: Path, before: Option<Bytes>, after: Option<Bytes>, original: Option<Entry>,
                       limit: nat): Entry {
    var initial := InitialBefore(before, original);
    var ok := Recoverable(before, after, original, limit);
    Entry(
      path,
      if original.Some? then original.value.beforeExists else initial.Some?,
      after.Some?,
      if original.Some? && original.value.beforeHash.Some? then original.value.beforeHash else HashOf(initial),
      HashOf(after),
      if original.Some? && original.value.beforeBlob.Some? then original.value.beforeBlob
      else if ok then HashOf(initial) else None,
      if ok then HashOf(after) else None,
      if original.Some? then original.value.binary else IsBinary(initial) || IsBinary(after),
      if original.Some? then original.value.sizeBefore else SizeOf(initial),
      SizeOf(after),
      ok)
  }

  /** The blobs after an entry for these contents was created. */
  function BlobsFor(blobs: Blobs, before: Option<Bytes>, after: Option<Bytes>, original: Option<Entry>,
                    limit: nat): Blobs {
    if Recoverable(before, after, original, limit)
    then WriteBlob(WriteBlob(blobs, InitialBefore(before, original)), after) else blobs
  }

  /** Entries are kept in the order of their paths, one per path. */
  predicate Sorted(entries: seq<Entry>) {
    forall i, j :: 0 <= i < j < |entries| ==> entries[i].path < entries[j].path
  }

  function EntryIndex(entries: seq<Entry>, path: Path): (i: nat)
    ensures i <= |entries|
    ensures i < |entries| ==> entries[i].path == path
    ensures i == |entries| ==> forall e :: e in entries ==> e.path != path
  {
    if entries == [] then 0
    else if entries[0].path == path then 0
    else 1 + EntryIndex(entries[1..], path)
  }

  /** `push` followed by a sort, on entries already sorted. */
  function InsertSorted(entries: seq<Entry>, e: Entry): (r: seq<Entry>)
    ensures forall x :: x in r <==> x in entries || x == e
    ensures Sorted(entries) && (forall x :: x in entries ==> x.path != e.path) ==> Sorted(r)
  {
    if entries == [] then [e]
    else if e.path < entries[0].path then [e] + entries
    else
      var rest := InsertSorted(entries[1..], e);
      assert forall j :: 0 <= j < |rest| ==> rest[j] in entries[1..] || rest[j] == e;
      assert Sorted(entries) ==> Sorted(entries[1..]) && forall x :: x in entries[1..] ==> entries[0].path < x.path;
      [entries[0]] + rest
  }

  // ---------------------------------------------------------------------------
  // Operations
  // ---------------------------------------------------------------------------

  /** Opens a checkpoint for the turn unless it has one. */
  function BeginTurn(v: Vault, sessionId: SessionId, turnId: TurnId, conversationId: Option<string>): Vault {
    if turnId in v.turns then v
    else
      v.(manifests := v.manifests[v.nextId := Checkpoint(v.nextId, sessionId, turnId, 0, OpenTurn, conversationId, [])],
         turns := v.turns[turnId := v.nextId],
         nextId := v.nextId + 1)
  }

  /** The checkpoint of a turn, when it belongs to the session. */
  function CheckpointOf(v: Vault, sessionId: SessionId, turnId: TurnId): Option<Checkpoint> {
    if turnId in v.turns && v.turns[turnId] in v.manifests && v.manifests[v.turns[turnId]].sessionId == sessionId
    then Some(v.manifests[v.turns[turnId]]) else None
  }

  /** The turn is open under another session. */
  predicate IsForeignTurn(v: Vault, sessionId: SessionId, turnId: TurnId) {
    turnId in v.turns && CheckpointOf(v, sessionId, turnId).None?
  }

  /** A first change adds an entry; later changes keep its before side and replace its after side. */
  function MergeEntry(entries: seq<Entry>, blobs: Blobs, path: Path, before: Option<Bytes>, after: Option<Bytes>,
                      limit: nat): seq<Entry> {
    var i := EntryIndex(entries, path);
    if i == |entries| then InsertSorted(entries, CreateEntry(path, before, after, None, limit))
    else entries[i := CreateEntry(path, StoredBefore(entries[i], blobs), after, Some(entries[i]), limit)]
  }

  function StoredBefore(e: Entry, blobs: Blobs): Option<Bytes> {
    if e.beforeBlob.Some? then Read(blobs, e.beforeBlob.value) else None
  }

  function MergeBlobs(entries: seq<Entry>, blobs: Blobs, path: Path, before: Option<Bytes>, after: Option<Bytes>,
                      limit: nat): Blobs {
    var i := EntryIndex(entries, path);
    var first := BlobsFor(blobs, before, after, None, limit);
    if i == |entries| then first
    else BlobsFor(first, StoredBefore(entries[i], first), after, Some(entries[i]), limit)
  }

  /** Records one change under the checkpoint of its turn; a foreign session is refused. */
  function RecordChange(v: Vault, limit: nat, sessionId: SessionId, turnId: TurnId,
                        path: Path, before: Option<Bytes>, after: Option<Bytes>): Vault {
    var u := BeginTurn(v, sessionId, turnId, None);
    var c := CheckpointOf(u, sessionId, turnId);
    if c.None? then v
    else
      var first := BlobsFor(u.blobs, before, after, None, limit);
      var next := c.value.(
          entries := MergeEntry(c.value.entries, first, path, before, after, limit), revision := c.value.revision + 1);
      u.(blobs := MergeBlobs(c.value.entries, u.blobs, path, before, after, limit),
         manifests := u.manifests[c.value.id := next])
  }

  function SealTurn(v: Vault, sessionId: SessionId, turnId: TurnId, status: CheckpointStatus): Vault {
    var c := CheckpointOf(v, sessionId, turnId);
    if c.None? then v
    else
      v.(manifests := v.manifests[c.value.id := c.value.(status := status, revision := c.value.revision + 1)],
         turns := map t | t in v.turns && t != turnId :: v.turns[t])
  }

  // ---------------------------------------------------------------------------
  // Restoring
  // ---------------------------------------------------------------------------

  datatype RestoreMode = FilesOnly | ConversationOnly | Both

  datatype ConflictReason = Unrecoverable | ModifiedAfter

  datatype FileConflict = FileConflict(path: Path, reason: ConflictReason)

  datatype RestoreOutcome =
    | Conflicted(conflicts: seq<FileConflict>)
    | Restored(paths: seq<Path>, conversation: bool)
    | NotFound
    | NoConversation
    | ConversationFailed

  /** The callback that restores a conversation; it resolves or rejects. */
  type Callback = Option<(SessionId, string) -> bool>

  /** The turn has recorded a conversation, and there is a callback to restore it. */
  predicate OffersConversation(c: Checkpoint, callback: Callback) {
    c.conversationId.Some? && c.conversationId.value != "" && callback.Some?
  }

  predicate EntryConflicts(e: Entry, files: Files) {
    !e.recoverable || HashOf(Read(files, e.path)) != e.afterHash
  }

  function Conflicts(entries: seq<Entry>, files: Files): (c: seq<FileConflict>)
    ensures c == [] <==> forall e :: e in entries ==> !EntryConflicts(e, files)
  {
    if entries == [] then []
    else
      var init, e := Conflicts(entries[..|entries| - 1], files), entries[|entries| - 1];
      assert entries == entries[..|entries| - 1] + [e];
      if EntryConflicts(e, files)
          then init + [FileConflict(e.path, if e.recoverable then ModifiedAfter else Unrecoverable)]
      else init
  }

  function RestoreEntry(files: Files, e: Entry, blobs: Blobs): Files {
    if !e.recoverable then files
    else if !e.beforeExists || StoredBefore(e, blobs).None? then map p | p in files && p != e.path :: files[p]
    else files[e.path := StoredBefore(e, blobs).value]
  }

  function RestoreFirst(files: Files, entries: seq<Entry>, blobs: Blobs, k: nat): Files
    requires k <= |entries|
  {
    if k == 0 then files else RestoreEntry(RestoreFirst(files, entries, blobs, k - 1), entries[k - 1], blobs)
  }

  function RestorablePaths(entries: seq<Entry>): seq<Path> {
    if entries == [] then []
    else RestorablePaths(entries[..|entries| - 1]) + if entries[|entries| - 1].recoverable
        then [entries[|entries| - 1].path] else []
  }

  datatype RestoreResult = RestoreResult(files: Files, outcome: RestoreOutcome)

  /** Files first, then the conversation, which may turn out to be missing or fail to be restored. */
  function Restore(v: Vault, sessionId: SessionId, id: CheckpointId, mode: RestoreMode, force: bool,
                   restoreConversation: Callback): RestoreResult {
    if id !in v.manifests || v.manifests[id].sessionId != sessionId then RestoreResult(v.files, RestoreOutcome.NotFound)
    else
      var c := v.manifests[id];
      var restoresFiles := !mode.ConversationOnly?;
      var conflicts := if restoresFiles then Conflicts(c.entries, v.files) else [];
      if conflicts != [] && !force then RestoreResult(v.files, Conflicted(conflicts))
      else
        var files := if restoresFiles then RestoreFirst(v.files, c.entries, v.blobs, |c.entries|) else v.files;
        if mode.FilesOnly? then RestoreResult(files, Restored(RestorablePaths(c.entries), false))
        else if !OffersConversation(c, restoreConversation) then RestoreResult(files, NoConversation)
        else if !restoreConversation.value(sessionId, c.conversationId.value)
          then RestoreResult(files, ConversationFailed)
        else RestoreResult(files, Restored(if restoresFiles then RestorablePaths(c.entries) else [], true))
  }

  // ---------------------------------------------------------------------------
  // Validity
  // ---------------------------------------------------------------------------

  predicate FaithfulBlobs(blobs: Blobs) {
    forall d :: d in blobs ==> Hash(blobs[d]) == d
  }

  predicate Stored(blobs: Blobs, d: Option<Digest>) {
    d.Some? ==> d.value in blobs
  }

  /** A recoverable entry names its two contents, and both are in the store. */
  predicate EntryOk(e: Entry, blobs: Blobs) {
    e.recoverable ==>
      && e.beforeExists == e.beforeHash.Some? && e.beforeBlob == e.beforeHash && Stored(blobs, e.beforeBlob)
      && e.afterExists == e.afterHash.Some? && e.afterBlob == e.afterHash && Stored(blobs, e.afterBlob)
  }

  predicate EntriesOk(entries: seq<Entry>, blobs: Blobs) {
    Sorted(entries) && forall e :: e in entries ==> EntryOk(e, blobs)
  }

  predicate ManifestsOk(v: Vault) {
    forall id :: id in v.manifests ==>
        id < v.nextId && v.manifests[id].id == id && EntriesOk(v.manifests[id].entries, v.blobs)
  }

  predicate ValidVault(v: Vault) {
    FaithfulBlobs(v.blobs) && ManifestsOk(v) && forall t :: t in v.turns ==> v.turns[t] in v.manifests
  }

  /** The store only grows, and no blob ever changes. */
  predicate BlobsGrow(a: Blobs, b: Blobs) {
    forall d :: d in a ==> d in b && b[d] == a[d]
  }

  lemma BlobsForGrow(blobs: Blobs, before: Option<Bytes>, after: Option<Bytes>, original: Option<Entry>, limit: nat)
    requires FaithfulBlobs(blobs)
    ensures FaithfulBlobs(BlobsFor(blobs, before, after, original, limit))
    ensures BlobsGrow(blobs, BlobsFor(blobs, before, after, original, limit))
  {
  }

  lemma EntriesSurvive(entries: seq<Entry>, a: Blobs, b: Blobs)
    requires EntriesOk(entries, a) && BlobsGrow(a, b)
    ensures EntriesOk(entries, b)
  {
  }

  lemma MergedEntriesOk(entries: seq<Entry>, blobs: Blobs, path: Path, before: Option<Bytes>, after: Option<Bytes>,
                        limit: nat)
    requires EntriesOk(entries, blobs) && FaithfulBlobs(blobs)
    ensures var merged := MergeBlobs(entries, blobs, path, before, after, limit);
      && FaithfulBlobs(merged) && BlobsGrow(blobs, merged)
      && EntriesOk(MergeEntry(entries, BlobsFor(blobs, before, after, None, limit), path, before, after, limit), merged)
  {
    var first := BlobsFor(blobs, before, after, None, limit);
    var merged := MergeBlobs(entries, blobs, path, before, after, limit);
    BlobsForGrow(blobs, before, after, None, limit);
    EntriesSurvive(entries, blobs, first);
    var i := EntryIndex(entries, path);
    if i < |entries| {
      assert entries[i] in entries;
      BlobsForGrow(first, StoredBefore(entries[i], first), after, Some(entries[i]), limit);
      EntriesSurvive(entries, first, merged);
      var next := CreateEntry(path, StoredBefore(entries[i], first), after, Some(entries[i]), limit);
      assert EntryOk(next, merged);
    } else {
      assert EntryOk(CreateEntry(path, before, after, None, limit), merged);
    }
  }

  lemma RecordKeepsValid(v: Vault, limit: nat, sessionId: SessionId, turnId: TurnId, path: Path,
                         before: Option<Bytes>, after: Option<Bytes>)
    requires ValidVault(v)
    ensures ValidVault(RecordChange(v, limit, sessionId, turnId, path, before, after))
    ensures BlobsGrow(v.blobs, RecordChange(v, limit, sessionId, turnId, path, before, after).blobs)
  {
    hide MergeEntry, MergeBlobs, EntriesOk, CreateEntry;
    BeginKeepsValid(v, sessionId, turnId, None);
    var u := BeginTurn(v, sessionId, turnId, None);
    var c := CheckpointOf(u, sessionId, turnId);
    if c.Some? {
      MergedEntriesOk(c.value.entries, u.blobs, path, before, after, limit);
      var merged := MergeBlobs(c.value.entries, u.blobs, path, before, after, limit);
      forall id | id in u.manifests
        ensures EntriesOk(u.manifests[id].entries, merged)
      {
        EntriesSurvive(u.manifests[id].entries, u.blobs, merged);
      }
    }
  }

  lemma BeginKeepsValid(v: Vault, sessionId: SessionId, turnId: TurnId, conversationId: Option<string>)
    requires ValidVault(v)
    ensures ValidVault(BeginTurn(v, sessionId, turnId, conversationId))
  {
    assert EntriesOk([], v.blobs);
  }

  lemma SealKeepsValid(v: Vault, sessionId: SessionId, turnId: TurnId, status: CheckpointStatus)
    requires ValidVault(v)
    ensures ValidVault(SealTurn(v, sessionId, turnId, status))
  {
  }
}
