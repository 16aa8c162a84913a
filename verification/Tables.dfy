/**
 * The SQLite tables as maps from row id to row, and every transaction of the
 * storage layer as a function on them.  One WithTx closure is one function: the
 * store has a single writer connection, so transactions are atomic.
 *
 * Row ids are assigned by the database and therefore parameters.  An id may be
 * reused after its row is gone.  JSON flag arrays are sequences of strings.
 */
module Tables {
  import opened Common

  const SEEN := "\\Seen"
  const FLAGGED := "\\Flagged"

  type Id = int
  type Flags = seq<string>

  datatype Blob = Blob(sha: string, size: nat, refcount: int)

  datatype Attachment = Attachment(message: Id, blob: Option<Id>, localPath: Option<string>)

  datatype Message = Message(
    account: Id, folder: Id, uid: int, thread: Option<Id>,
    date: int, flags: Flags, hasAttachments: bool,
    raw: Option<Id>, rawAt: Option<int>)

  datatype ThreadRow = ThreadRow(
    subject: string, lastDate: int, msgCount: int, unreadCount: int, hasFlagged: bool, hasAttach: bool)

  datatype Folder = Folder(account: Id, highestModSeq: nat)

  datatype Db = Db(
    accounts: set<Id>,
    folders: map<Id, Folder>,
    threads: map<Id, ThreadRow>,
    messages: map<Id, Message>,
    attachments: map<Id, Attachment>,
    blobs: map<Id, Blob>)

  datatype DbError = NoRows | ConstraintFailed

  // -------------------------------------------------------------- references

  function AttachmentBlob(a: Attachment): Option<Id> { a.blob }

  function RawBlob(m: Message): Option<Id> { m.raw }

  /** The rows of a table that point at blob b. */
  function Referrers<K, V>(rows: map<K, V>, column: V -> Option<Id>, b: Id): set<K>
  {
    set k | k in rows && column(rows[k]) == Some(b)
  }

  function Refs<K, V>(rows: map<K, V>, column: V -> Option<Id>, b: Id): nat
  {
    |Referrers(rows, column, b)|
  }

  function Links(db: Db, b: Id): nat
  {
    Refs(db.attachments, AttachmentBlob, b) + Refs(db.messages, RawBlob, b)
  }

  function RefCount(db: Db, b: Id): int
  {
    if b in db.blobs then db.blobs[b].refcount else 0
  }

  /** Deleting rows removes exactly the references those rows held. */
  lemma RefsRemove<K, V>(rows: map<K, V>, column: V -> Option<Id>, gone: set<K>, b: Id)
    ensures Refs(rows - gone, column, b) + |Referrers(rows, column, b) * gone| == Refs(rows, column, b)
  {
    var before, after := Referrers(rows, column, b), Referrers(rows - gone, column, b);
    assert after == before - gone;
    assert before == after + before * gone;
  }

  lemma RefsPositive<K, V>(rows: map<K, V>, column: V -> Option<Id>, k: K, b: Id)
    requires k in rows && column(rows[k]) == Some(b)
    ensures Refs(rows, column, b) >= 1
  {
    assert k in Referrers(rows, column, b);
  }

  lemma RefsRemoveOne<K, V>(rows: map<K, V>, column: V -> Option<Id>, k: K, b: Id)
    requires k in rows
    ensures Refs(rows - {k}, column, b) + One(column(rows[k]) == Some(b)) == Refs(rows, column, b)
  {
    RefsRemove(rows, column, {k}, b);
    if column(rows[k]) == Some(b) {
      assert Referrers(rows, column, b) * {k} == {k};
    } else {
      assert Referrers(rows, column, b) * {k} == {};
    }
  }

  /** Writing one row moves at most one reference. */
  lemma RefsUpdate<K, V>(rows: map<K, V>, column: V -> Option<Id>, k: K, v: V, b: Id)
    ensures Refs(rows[k := v], column, b) + One(k in rows && column(rows[k]) == Some(b))
         == Refs(rows, column, b) + One(column(v) == Some(b))
  {
    RefsRemoveOne(rows[k := v], column, k, b);
    assert rows[k := v] - {k} == rows - {k};
    if k in rows {
      RefsRemoveOne(rows, column, k, b);
    } else {
      assert rows - {k} == rows;
    }
  }

  // ------------------------------------------------------------------- blobs

  /** id is the row InsertOrIncBlob uses for sha: the existing one, or a new one. */
  predicate IsRowFor(db: Db, sha: string, id: Id)
  {
    if id in db.blobs then db.blobs[id].sha == sha
    else forall b :: b in db.blobs ==> db.blobs[b].sha != sha
  }

  function InsertOrIncBlob(db: Db, sha: string, size: nat, id: Id): Db
    requires IsRowFor(db, sha, id)
  {
    if id in db.blobs then db.(blobs := db.blobs[id := db.blobs[id].(refcount := db.blobs[id].refcount + 1)])
    else db.(blobs := db.blobs[id := Blob(sha, size, 1)])
  }

  function DecBlobRef(db: Db, id: Id): Result<Db, DbError>
  {
    if id in db.blobs then Ok(db.(blobs := db.blobs[id := db.blobs[id].(refcount := db.blobs[id].refcount - 1)]))
    else Err(NoRows)
  }

  function DeleteBlobIfZero(db: Db, id: Id): Db
  {
    if id in db.blobs && db.blobs[id].refcount == 0 then db.(blobs := db.blobs - {id}) else db
  }

  // ------------------------------------------------------------- attachments

  /** The UPDATE touches no row, and reports no error, when the row has vanished. */
  function UpdateAttachmentDownloaded(db: Db, att: Id, blob: Id): Db
  {
    if att in db.attachments then
      db.(attachments := db.attachments[att := db.attachments[att].(blob := Some(blob), localPath := None)])
    else db
  }

  function ClearAttachmentBlob(db: Db, att: Id): Result<(Db, Option<Id>), DbError>
  {
    if att in db.attachments then
      Ok((db.(attachments := db.attachments[att := db.attachments[att].(blob := None, localPath := None)]),
          db.attachments[att].blob))
    else Err(NoRows)
  }

  // --------------------------------------------------------------- raw slots

  datatype SetRawResult = SetFresh | SetReplaced(prev: Id) | SetNoop

  function SetMessageRawBlob(db: Db, msg: Id, blob: Id, at: int): Result<(Db, SetRawResult), DbError>
  {
    if msg !in db.messages then Err(NoRows)
    else
      var m := db.messages[msg];
      match m.raw
      case None => Ok((db.(messages := db.messages[msg := m.(raw := Some(blob), rawAt := Some(at))]), SetFresh))
      case Some(existing) =>
        if existing == blob then Ok((db.(messages := db.messages[msg := m.(rawAt := Some(at))]), SetNoop))
        else Ok((db.(messages := db.messages[msg := m.(raw := Some(blob), rawAt := Some(at))]), SetReplaced(existing)))
  }

  function ClearMessageRawBlob(db: Db, msg: Id): Result<(Db, Option<Id>), DbError>
  {
    if msg !in db.messages then Err(NoRows)
    else if db.messages[msg].raw.None? then Ok((db, None))
    else Ok((db.(messages := db.messages[msg := db.messages[msg].(raw := None, rawAt := None)]), db.messages[msg].raw))
  }

  predicate Expired(m: Message, cutoff: int)
  {
    m.raw.Some? && m.rawAt.Some? && m.rawAt.value < cutoff
  }

  function ExpiredMessages(db: Db, cutoff: int): set<Id>
  {
    set m | m in db.messages && Expired(db.messages[m], cutoff)
  }

  function ClearSlots(messages: map<Id, Message>, slots: set<Id>): map<Id, Message>
  {
    map m | m in messages :: if m in slots then messages[m].(raw := None, rawAt := None) else messages[m]
  }

  function SweepExpiredRaw(db: Db, cutoff: int): Db
  {
    db.(messages := ClearSlots(db.messages, ExpiredMessages(db, cutoff)))
  }

  // -------------------------------------------------- folder and account scope

  datatype Scope = OfFolder(id: Id) | OfAccount(id: Id)

  predicate InScope(m: Message, scope: Scope)
  {
    match scope
    case OfFolder(f) => m.folder == f
    case OfAccount(a) => m.account == a
  }

  function ScopedMessages(db: Db, scope: Scope): set<Id>
  {
    set m | m in db.messages && InScope(db.messages[m], scope)
  }

  function ScopedAttachments(db: Db, scope: Scope): set<Id>
  {
    set a | a in db.attachments && db.attachments[a].message in ScopedMessages(db, scope)
  }

  /** The grouped UPDATE of decBlobRefs: from every blob, the number of rows in
      `keys` that point at it. */
  function DrainRefs<K, V>(blobs: map<Id, Blob>, rows: map<K, V>, column: V -> Option<Id>, keys: set<K>): map<Id, Blob>
  {
    map b | b in blobs ::
      blobs[b].(refcount := blobs[b].refcount - |Referrers(rows, column, b) * keys|)
  }

  function DrainScope(db: Db, scope: Scope): map<Id, Blob>
  {
    DrainRefs(DrainRefs(db.blobs, db.attachments, AttachmentBlob, ScopedAttachments(db, scope)),
              db.messages, RawBlob, ScopedMessages(db, scope))
  }

  /** Messages removed by the cascade behind DELETE FROM accounts: by account_id,
      and by folder_id through the account's folders. */
  function CascadedMessages(db: Db, account: Id): set<Id>
  {
    set m | m in db.messages &&
            (db.messages[m].account == account
             || (db.messages[m].folder in db.folders && db.folders[db.messages[m].folder].account == account))
  }

  /** Deletes messages with their attachments (ON DELETE CASCADE). */
  function RemoveMessages(db: Db, gone: set<Id>): Db
  {
    db.(messages := db.messages - gone,
        attachments := db.attachments - set a | a in db.attachments && db.attachments[a].message in gone)
  }

  function Members(db: Db, t: Id): set<Id>
  {
    set m | m in db.messages && db.messages[m].thread == Some(t)
  }

  function DeleteOrphanThreads(db: Db): Db
  {
    db.(threads := map t | t in db.threads && Members(db, t) != {} :: db.threads[t])
  }

  function DrainAndRemove(db: Db, scope: Scope): Db
  {
    RemoveMessages(db.(blobs := DrainScope(db, scope)), ScopedMessages(db, scope))
  }

  function DeleteMessagesByFolder(db: Db, folder: Id): Db
  {
    DeleteOrphanThreads(DrainAndRemove(db, OfFolder(folder)))
  }

  /** DELETE FROM accounts: the row goes with its folders and messages. */
  function WithoutAccount(db: Db, account: Id): Db
  {
    RemoveMessages(db, CascadedMessages(db, account)).(
      accounts := db.accounts - {account},
      folders := map f | f in db.folders && db.folders[f].account != account :: db.folders[f])
  }

  /** Commits even when no account row matched; `deleted` is then false. */
  function DeleteAccount(db: Db, account: Id): (Db, bool)
  {
    var drained := db.(blobs := DrainScope(db, OfAccount(account)));
    if account in db.accounts then (DeleteOrphanThreads(WithoutAccount(drained, account)), true)
    else (DeleteOrphanThreads(drained), false)
  }

  /** SetFolderHighestModSeq: the guarded update. */
  function Advanced(db: Db, folder: Id, modseq: nat): Db
  {
    if folder in db.folders && db.folders[folder].highestModSeq < modseq then
      db.(folders := db.folders[folder := db.folders[folder].(highestModSeq := modseq)])
    else db
  }

  /** A stale caller that lands late changes nothing, and the order of two calls never
      matters: the greater value stays. */
  lemma WatermarkCallsCommute(db: Db, folder: Id, early: nat, late: nat)
    ensures Advanced(Advanced(db, folder, early), folder, late) == Advanced(Advanced(db, folder, late), folder, early)
    ensures early <= late ==> Advanced(Advanced(db, folder, late), folder, early) == Advanced(db, folder, late)
    ensures folder in db.folders ==>
      var t := Advanced(Advanced(db, folder, late), folder, early);
      && folder in t.folders
      && t.folders[folder].highestModSeq >= db.folders[folder].highestModSeq
      && t.folders[folder].highestModSeq >= early && t.folders[folder].highestModSeq >= late
  {
    if folder in db.folders {
      var row := db.folders[folder];
      assert db.folders[folder := row.(highestModSeq := early)][folder := row.(highestModSeq := late)]
          == db.folders[folder := row.(highestModSeq := late)];
      assert db.folders[folder := row.(highestModSeq := late)][folder := row.(highestModSeq := early)]
          == db.folders[folder := row.(highestModSeq := early)];
    }
  }

  /** Foreign keys, and the pairing of account and folder the workers insert with. */
  ghost predicate Integrity(db: Db)
  {
    && (forall f :: f in db.folders ==> db.folders[f].account in db.accounts)
    && (forall m :: m in db.messages ==>
          db.messages[m].folder in db.folders && db.folders[db.messages[m].folder].account == db.messages[m].account)
    && (forall a :: a in db.attachments ==> db.attachments[a].message in db.messages)
    && (forall m :: m in db.messages && db.messages[m].thread.Some? ==> db.messages[m].thread.value in db.threads)
  }

  // ------------------------------------------------------------------- slack

  /** References to b that no row accounts for. */
  function Slack(db: Db, b: Id): int
  {
    RefCount(db, b) - Links(db, b)
  }

  ghost predicate SameSlack(db: Db, t: Db)
  {
    forall b :: Slack(t, b) == Slack(db, b)
  }

  /** The foreign keys of the reference columns. */
  ghost predicate BlobsExist(db: Db)
  {
    && (forall m :: m in db.messages && db.messages[m].raw.Some? ==> db.messages[m].raw.value in db.blobs)
    && (forall a :: a in db.attachments && db.attachments[a].blob.Some? ==> db.attachments[a].blob.value in db.blobs)
  }

  // ---------------------------------------------------------------- bulk drain

  /** The grouped decrement subtracts from each blob exactly the number of links the
      cascade then removes, whichever column they sit in. */
  lemma DrainMatchesCascade(db: Db, scope: Scope, b: Id)
    ensures RefCount(db, b) - RefCount(DrainAndRemove(db, scope), b)
         == if b in db.blobs then Links(db, b) - Links(DrainAndRemove(db, scope), b) else 0
    ensures Links(DrainAndRemove(db, scope), b) <= Links(db, b)
  {
    RefsRemove(db.messages, RawBlob, ScopedMessages(db, scope), b);
    RefsRemove(db.attachments, AttachmentBlob, ScopedAttachments(db, scope), b);
    assert ScopedAttachments(db, scope)
        == set a | a in db.attachments && db.attachments[a].message in ScopedMessages(db, scope);
  }

  lemma CascadeIsScope(db: Db, account: Id)
    requires Integrity(db)
    ensures CascadedMessages(db, account) == ScopedMessages(db, OfAccount(account))
    ensures account !in db.accounts ==> ScopedMessages(db, OfAccount(account)) == {}
  {
    forall m | m in db.messages
      ensures m in CascadedMessages(db, account) <==> m in ScopedMessages(db, OfAccount(account))
      ensures m in ScopedMessages(db, OfAccount(account)) ==> account in db.accounts
    {
    }
  }

  lemma OrphansKeepRefs(db: Db, b: Id)
    ensures RefCount(DeleteOrphanThreads(db), b) == RefCount(db, b)
    ensures Links(DeleteOrphanThreads(db), b) == Links(db, b)
  {
  }

  /** A bulk delete moves as many references as links, so no blob's slack changes. */
  lemma DrainKeepsSlack(db: Db, scope: Scope)
    requires BlobsExist(db)
    ensures SameSlack(db, DeleteOrphanThreads(DrainAndRemove(db, scope)))
  {
    forall b ensures Slack(DeleteOrphanThreads(DrainAndRemove(db, scope)), b) == Slack(db, b) {
      DrainMatchesCascade(db, scope, b);
      OrphansKeepRefs(DrainAndRemove(db, scope), b);
      if b !in db.blobs {
        NoLinks(db, b);
      }
    }
  }

  lemma NoLinks(db: Db, b: Id)
    requires BlobsExist(db) && b !in db.blobs
    ensures Links(db, b) == 0
  {
    forall a ensures a !in Referrers(db.attachments, AttachmentBlob, b) {
    }
    forall m ensures m !in Referrers(db.messages, RawBlob, b) {
    }
    assert Referrers(db.attachments, AttachmentBlob, b) == {} && Referrers(db.messages, RawBlob, b) == {};
  }

  lemma DeleteAccountKeepsSlack(db: Db, account: Id)
    requires BlobsExist(db) && Integrity(db)
    ensures SameSlack(db, DeleteAccount(db, account).0)
  {
    var t, u := DeleteAccount(db, account).0, DeleteOrphanThreads(DrainAndRemove(db, OfAccount(account)));
    DrainKeepsSlack(db, OfAccount(account));
    DeleteAccountIsDrain(db, account);
    forall b ensures Slack(t, b) == Slack(db, b) {
      assert Slack(u, b) == Slack(db, b);
    }
  }

  lemma DeleteAccountIsDrain(db: Db, account: Id)
    requires Integrity(db)
    ensures var t, u := DeleteAccount(db, account).0, DeleteOrphanThreads(DrainAndRemove(db, OfAccount(account)));
      t.messages == u.messages && t.attachments == u.attachments && t.blobs == u.blobs
  {
    CascadeIsScope(db, account);
    var gone := ScopedMessages(db, OfAccount(account));
    var drained := db.(blobs := DrainScope(db, OfAccount(account)));
    if account in db.accounts {
      assert CascadedMessages(drained, account) == gone;
    } else {
      assert gone == {};
      assert drained.messages - {} == drained.messages && drained.attachments - {} == drained.attachments;
    }
  }

  // ------------------------------------------------- bulk deletes, row by row

  /** Either bulk delete. */
  function BulkDelete(db: Db, scope: Scope): Db
  {
    match scope
    case OfFolder(f) => DeleteMessagesByFolder(db, f)
    case OfAccount(a) => DeleteAccount(db, a).0
  }

  lemma BulkDeleteIsDrain(db: Db, scope: Scope)
    requires scope.OfAccount? ==> Integrity(db)
    ensures var t, u := BulkDelete(db, scope), DrainAndRemove(db, scope);
      t.messages == u.messages && t.attachments == u.attachments && t.blobs == u.blobs
  {
    if scope.OfAccount? {
      DeleteAccountIsDrain(db, scope.id);
    }
  }

  /** A bulk delete removes exactly the messages of its folder or account with their
      attachments, and the threads that keep no message; all other rows stay as they are. */
  lemma BulkDeleteRows(db: Db, scope: Scope)
    requires scope.OfAccount? ==> Integrity(db)
    ensures var after := BulkDelete(db, scope);
      && (forall m :: m in after.messages <==>
            && m in db.messages
            && (match scope
                case OfFolder(f) => db.messages[m].folder != f
                case OfAccount(a) => db.messages[m].account != a))
      && (forall m :: m in after.messages ==> after.messages[m] == db.messages[m])
      && (forall a :: a in after.attachments <==>
            && a in db.attachments
            && !(db.attachments[a].message in db.messages && db.attachments[a].message !in after.messages))
      && (forall a :: a in after.attachments ==> after.attachments[a] == db.attachments[a])
  {
    BulkDeleteIsDrain(db, scope);
  }

  lemma BulkDeleteThreads(db: Db, scope: Scope)
    ensures var after := BulkDelete(db, scope);
      && (forall t :: t in after.threads <==>
            t in db.threads && exists m :: m in after.messages && after.messages[m].thread == Some(t))
      && (forall t :: t in after.threads ==> after.threads[t] == db.threads[t])
  {
    match scope
    case OfFolder(f) => OrphansAre(DrainAndRemove(db, scope));
    case OfAccount(a) =>
      var drained := db.(blobs := DrainScope(db, scope));
      OrphansAre(if a in db.accounts then WithoutAccount(drained, a) else drained);
  }

  lemma OrphansAre(db: Db)
    ensures forall t :: t in DeleteOrphanThreads(db).threads <==>
      t in db.threads && exists m :: m in db.messages && db.messages[m].thread == Some(t)
  {
    forall t ensures Members(db, t) != {} <==> exists m :: m in db.messages && db.messages[m].thread == Some(t) {
      if Members(db, t) != {} {
        var m := AnyOf(Members(db, t));
        assert m in db.messages && db.messages[m].thread == Some(t);
      }
      if m :| m in db.messages && db.messages[m].thread == Some(t) {
        assert m in Members(db, t);
      }
    }
  }

  /** Each blob loses one reference for every link that goes, and keeps the rest of its row. */
  lemma BulkDeleteBlobs(db: Db, scope: Scope, b: Id)
    requires scope.OfAccount? ==> Integrity(db)
    ensures var after := BulkDelete(db, scope);
      && (b in after.blobs <==> b in db.blobs)
      && (b in db.blobs ==> after.blobs[b] == db.blobs[b].(refcount := db.blobs[b].refcount
           - |set a | a in db.attachments && a !in after.attachments && db.attachments[a].blob == Some(b)|
           - |set m | m in db.messages && m !in after.messages && db.messages[m].raw == Some(b)|))
  {
    BulkDeleteIsDrain(db, scope);
    var t, u := BulkDelete(db, scope), DrainAndRemove(db, scope);
    if b in db.blobs {
      LinksGone(db, scope, b, u.attachments, u.messages);
      assert t.blobs[b] == u.blobs[b];
    }
  }

  lemma LinksGone(db: Db, scope: Scope, b: Id, atts: map<Id, Attachment>, msgs: map<Id, Message>)
    requires b in db.blobs
    requires atts == DrainAndRemove(db, scope).attachments && msgs == DrainAndRemove(db, scope).messages
    ensures DrainScope(db, scope)[b].refcount == db.blobs[b].refcount
         - |set a | a in db.attachments && a !in atts && db.attachments[a].blob == Some(b)|
         - |set m | m in db.messages && m !in msgs && db.messages[m].raw == Some(b)|
  {
    RowsGone(db, scope, b);
  }

  lemma RowsGone(db: Db, scope: Scope, b: Id)
    ensures var left := DrainAndRemove(db, scope);
      && (set a | a in db.attachments && a !in left.attachments && db.attachments[a].blob == Some(b))
         == Referrers(db.attachments, AttachmentBlob, b) * ScopedAttachments(db, scope)
      && (set m | m in db.messages && m !in left.messages && db.messages[m].raw == Some(b))
         == Referrers(db.messages, RawBlob, b) * ScopedMessages(db, scope)
  {
  }

  /** Removing an account takes its row and its folders along. */
  lemma AccountGone(db: Db, account: Id)
    ensures var (after, deleted) := DeleteAccount(db, account);
      && (deleted <==> account in db.accounts) && after.accounts == db.accounts - {account}
      && (deleted ==> forall f :: f in after.folders <==> f in db.folders && db.folders[f].account != account)
      && (!deleted ==> after.folders == db.folders)
      && (forall f :: f in after.folders ==> f in db.folders && after.folders[f] == db.folders[f])
  {
  }
}
