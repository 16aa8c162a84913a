/**
 * The procedures that move blob references, each run to its end without
 * interference: whatever path it takes, it leaves every blob's refcount as far
 * from its link count as it found it.  Ledger covers their interleavings.
 */
module BlobClients {
  import opened Common
  import opened Tables
  import opened Storage

  lemma WriteSlot(db: Db, msg: Id, m: Message, b: Id)
    requires msg in db.messages
    ensures Slack(db.(messages := db.messages[msg := m]), b)
         == Slack(db, b) + One(db.messages[msg].raw == Some(b)) - One(m.raw == Some(b))
  {
    RefsUpdate(db.messages, RawBlob, msg, m, b);
  }

  lemma WriteAttachment(db: Db, att: Id, row: Attachment, b: Id)
    requires att in db.attachments
    ensures Slack(db.(attachments := db.attachments[att := row]), b)
         == Slack(db, b) + One(db.attachments[att].blob == Some(b)) - One(row.blob == Some(b))
  {
    RefsUpdate(db.attachments, AttachmentBlob, att, row, b);
  }

  lemma IncSlack(db: Db, sha: string, size: nat, id: Id, b: Id)
    requires IsRowFor(db, sha, id)
    ensures Slack(InsertOrIncBlob(db, sha, size, id), b) == Slack(db, b) + One(b == id)
  {
  }

  lemma DecSlack(db: Db, id: Id, b: Id)
    requires id in db.blobs
    ensures Slack(DecBlobRef(db, id).value, b) == Slack(db, b) - One(b == id)
  {
  }

  /** DecBlobRef with its result dropped. */
  function Released(db: Db, id: Id): Db
  {
    if DecBlobRef(db, id).Ok? then DecBlobRef(db, id).value else db
  }

  /** persistRaw and captureRaw as one value: register, link, undo what the link did
      not take.  `linkFails` is an error from the link transaction. */
  function PersistedRaw(db: Db, msg: Id, sha: string, size: nat, id: Id, at: int, linkFails: bool): Db
    requires IsRowFor(db, sha, id)
  {
    var registered := InsertOrIncBlob(db, sha, size, id);
    if linkFails then Released(registered, id)
    else match SetMessageRawBlob(registered, msg, id, at)
      case Err(_) => Released(registered, id)
      case Ok((linked, SetFresh)) => linked
      case Ok((linked, SetReplaced(prev))) => Released(linked, prev)
      case Ok((linked, SetNoop)) => Released(linked, id)
  }

  /** Whatever the link answers, nothing is leaked. */
  lemma PersistKeepsSlack(db: Db, msg: Id, sha: string, size: nat, id: Id, at: int, linkFails: bool)
    requires IsRowFor(db, sha, id) && BlobsExist(db)
    ensures SameSlack(db, PersistedRaw(db, msg, sha, size, id, at, linkFails))
  {
    var registered := InsertOrIncBlob(db, sha, size, id);
    forall b ensures Slack(PersistedRaw(db, msg, sha, size, id, at, linkFails), b) == Slack(db, b) {
      IncSlack(db, sha, size, id, b);
      if linkFails || msg !in db.messages {
        DecSlack(registered, id, b);
      } else {
        PersistLinked(db, registered, msg, id, at, b);
      }
    }
  }

  /** What each answer of SetMessageRawBlob obliges its caller to give back: nothing after
      a fresh link, the old blob after a replacement, the new reference after a no-op. */
  lemma PersistLinked(db: Db, registered: Db, msg: Id, id: Id, at: int, b: Id)
    requires msg in registered.messages && id in registered.blobs
    requires registered.messages[msg].raw.Some? ==> registered.messages[msg].raw.value in registered.blobs
    requires Slack(registered, b) == Slack(db, b) + One(b == id)
    ensures var r := SetMessageRawBlob(registered, msg, id, at).value;
      match r.1
      case SetFresh => Slack(r.0, b) == Slack(db, b)
      case SetReplaced(prev) => Slack(Released(r.0, prev), b) == Slack(db, b)
      case SetNoop => Slack(Released(r.0, id), b) == Slack(db, b)
  {
    var r := SetMessageRawBlob(registered, msg, id, at).value;
    WriteSlot(registered, msg, r.0.messages[msg], b);
    match r.1
    case SetFresh =>
    case SetReplaced(prev) => DecSlack(r.0, prev, b);
    case SetNoop => DecSlack(r.0, id, b);
  }

  /** The message ends up linked to the blob of its bytes. */
  lemma PersistLinks(db: Db, msg: Id, sha: string, size: nat, id: Id, at: int)
    requires IsRowFor(db, sha, id) && BlobsExist(db) && msg in db.messages
    ensures var t := PersistedRaw(db, msg, sha, size, id, at, false);
      && t.messages == db.messages[msg := db.messages[msg].(raw := Some(id), rawAt := Some(at))]
      && id in t.blobs && t.blobs[id].sha == sha
  {
    var registered := InsertOrIncBlob(db, sha, size, id);
    var r := SetMessageRawBlob(registered, msg, id, at).value;
    assert r.0.messages == db.messages[msg := db.messages[msg].(raw := Some(id), rawAt := Some(at))];
    assert r.0.blobs == registered.blobs;
  }

  lemma PersistMeans(db: Db, msg: Id, sha: string, size: nat, id: Id, at: int, linkFails: bool)
    requires IsRowFor(db, sha, id)
    ensures var t := PersistedRaw(db, msg, sha, size, id, at, linkFails);
      && (BlobsExist(db) ==> SameSlack(db, t))
      && (BlobsExist(db) && !linkFails && msg in db.messages ==>
            && t.messages == db.messages[msg := db.messages[msg].(raw := Some(id), rawAt := Some(at))]
            && id in t.blobs && t.blobs[id].sha == sha)
      && (linkFails || msg !in db.messages ==> t.messages == db.messages)
  {
    if BlobsExist(db) {
      PersistKeepsSlack(db, msg, sha, size, id, at, linkFails);
      if msg in db.messages {
        PersistLinks(db, msg, sha, size, id, at);
      }
    }
  }

  /** Sync-time capture and lazy fetch: no reference is leaked whatever the link answers,
      and unless the link fails or the message is gone, the message ends up linked to the
      row of the digest and no other message changes. */
  method PersistRaw(store: Store, msg: Id, sha: string, size: nat, newId: Id, at: int, linkFails: bool)
    returns (ghost id: Id)
    requires newId !in store.db.blobs
    modifies store
    ensures IsRowFor(old(store.db), sha, id)
    ensures store.db == PersistedRaw(old(store.db), msg, sha, size, id, at, linkFails)
    ensures BlobsExist(old(store.db)) ==> SameSlack(old(store.db), store.db)
    ensures BlobsExist(old(store.db)) && !linkFails && msg in old(store.db).messages ==>
      && store.db.messages
        == old(store.db).messages[msg := old(store.db).messages[msg].(raw := Some(id), rawAt := Some(at))]
      && id in store.db.blobs && store.db.blobs[id].sha == sha
    ensures linkFails || msg !in old(store.db).messages ==> store.db.messages == old(store.db).messages
    ensures store.db == old(store.db).(messages := store.db.messages, blobs := store.db.blobs)
  {
    ghost var db0 := store.db;
    var row, isNew := store.InsertOrIncBlob(sha, size, newId);
    id := row;
    PersistMeans(db0, msg, sha, size, id, at, linkFails);
    if linkFails {
      var undone := store.DecBlobRef(row);
      return;
    }
    var r := store.SetMessageRawBlob(msg, row, at);
    match r {
      case Err(_) => var undone := store.DecBlobRef(row);
      case Ok(SetFresh) =>
      case Ok(SetReplaced(prev)) => var undone := store.DecBlobRef(prev);
      case Ok(SetNoop) => var undone := store.DecBlobRef(row);
    }
  }

  datatype Cached = Hit(data: Bytes) | Miss

  datatype ReadError = NoMessage | IoError

  /** A cached read either returns bytes whose digest is the linked one, or, when the
      file is missing, clears the link and gives back exactly one reference.  Any other
      read error is reported and destroys nothing.  That files hold the bytes of their
      digest is BlobFiles.BlobIntegrity. */
  method TryCached(store: Store, files: map<string, Bytes>, unreadable: set<string>, digest: Bytes -> string, msg: Id)
    returns (r: Result<Cached, ReadError>)
    requires BlobsExist(store.db)
    requires forall sha :: sha in files ==> digest(files[sha]) == sha
    modifies store
    ensures r == Err(NoMessage) <==> msg !in old(store.db).messages
    ensures r == Err(IoError) <==>
      (&& msg in old(store.db).messages && old(store.db).messages[msg].raw.Some?
       && old(store.db).blobs[old(store.db).messages[msg].raw.value].sha in unreadable)
    ensures r.Err? || r.value.Hit? ==> store.db == old(store.db)
    ensures r.Ok? && r.value.Hit? ==>
      && old(store.db).messages[msg].raw.Some?
      && old(store.db).blobs[old(store.db).messages[msg].raw.value].sha == digest(r.value.data)
    ensures r == Ok(Miss) ==> msg in store.db.messages && store.db.messages[msg].raw == None
    ensures r == Ok(Miss) && old(store.db).messages[msg].raw.None? ==> store.db == old(store.db)
    ensures r == Ok(Miss) && old(store.db).messages[msg].raw.Some? ==>
      var b := old(store.db).messages[msg].raw.value;
      && old(store.db).blobs[b].sha !in files
      && store.db == old(store.db).(messages := store.db.messages, blobs := store.db.blobs)
      && store.db.messages
        == old(store.db).messages[msg := old(store.db).messages[msg].(raw := None, rawAt := None)]
      && store.db.blobs
        == old(store.db).blobs[b := old(store.db).blobs[b].(refcount := old(store.db).blobs[b].refcount - 1)]
    ensures SameSlack(old(store.db), store.db)
  {
    if msg !in store.db.messages {
      return Err(NoMessage);
    }
    var slot := store.db.messages[msg].raw;
    if slot.None? {
      return Ok(Miss);
    }
    var sha := store.db.blobs[slot.value].sha;
    if sha in unreadable {
      return Err(IoError);
    }
    if sha in files {
      return Ok(Hit(files[sha]));
    }
    ghost var db0 := store.db;
    var cleared := store.ClearMessageRawBlob(msg);
    ghost var db1 := store.db;
    var undone := store.DecBlobRef(slot.value);
    forall b ensures Slack(store.db, b) == Slack(db0, b) {
      WriteSlot(db0, msg, db1.messages[msg], b);
      DecSlack(db1, slot.value, b);
    }
    r := Ok(Miss);
  }

  /** The attachment read heals the same way; the row is pending again afterwards. */
  method GetAttachmentPath(store: Store, files: set<string>, att: Id) returns (sha: Option<string>)
    requires BlobsExist(store.db)
    modifies store
    ensures sha.Some? ==>
      store.db == old(store.db) && sha.value in files
      && att in store.db.attachments && store.db.attachments[att].blob.Some?
      && store.db.blobs[store.db.attachments[att].blob.value].sha == sha.value
    ensures sha.None? && att in old(store.db).attachments && old(store.db).attachments[att].blob.Some? ==>
      var b := old(store.db).attachments[att].blob.value;
      && old(store.db).blobs[b].sha !in files
      && store.db == old(store.db).(attachments := store.db.attachments, blobs := store.db.blobs)
      && store.db.attachments
        == old(store.db).attachments[att := old(store.db).attachments[att].(blob := None, localPath := None)]
      && store.db.blobs
        == old(store.db).blobs[b := old(store.db).blobs[b].(refcount := old(store.db).blobs[b].refcount - 1)]
    ensures !(att in old(store.db).attachments && old(store.db).attachments[att].blob.Some?) ==>
      sha.None? && store.db == old(store.db)
    ensures SameSlack(old(store.db), store.db)
  {
    if att !in store.db.attachments || store.db.attachments[att].blob.None? {
      return None;
    }
    var b0 := store.db.attachments[att].blob.value;
    if store.db.blobs[b0].sha in files {
      return Some(store.db.blobs[b0].sha);
    }
    ghost var db0 := store.db;
    var cleared := store.ClearAttachmentBlob(att);
    ghost var db1 := store.db;
    var undone := store.DecBlobRef(b0);
    forall b ensures Slack(store.db, b) == Slack(db0, b) {
      WriteAttachment(db0, att, db1.attachments[att], b);
      DecSlack(db1, b0, b);
    }
    sha := None;
  }

  function CountOf(ids: seq<Id>, b: Id): nat
  {
    if ids == [] then 0 else One(ids[0] == b) + CountOf(ids[1..], b)
  }

  /** The retention sweep: clear every expired slot, then one decrement for each. */
  method SweepOnceAt(store: Store, cutoff: int, batch: seq<Id>) returns (cleared: nat)
    requires BlobsExist(store.db) && Lists(batch, ExpiredMessages(store.db, cutoff))
    modifies store
    ensures cleared == |batch|
    ensures store.db.messages.Keys == old(store.db).messages.Keys
    ensures forall m :: m in store.db.messages ==> var row := old(store.db).messages[m];
      store.db.messages[m] == if row.raw.Some? && row.rawAt.Some? && row.rawAt.value < cutoff
                              then row.(raw := None, rawAt := None) else row
    ensures store.db == old(store.db).(messages := store.db.messages, blobs := store.db.blobs)
    ensures store.db.blobs.Keys == old(store.db).blobs.Keys
    ensures SameSlack(old(store.db), store.db)
  {
    ghost var db0 := store.db;
    var ids := store.SweepExpiredRaw(cutoff, batch);
    ghost var db1 := store.db;
    forall i | 0 <= i < |ids| ensures ids[i] in db0.blobs {
      var m := batch[i];
      assert m in ExpiredMessages(db0, cutoff);
      assert m in db0.messages && db0.messages[m].raw.value in db0.blobs;
    }
    forall b ensures Slack(db1, b) == Slack(db0, b) + CountOf(ids[0..], b) {
      ClearedSlots(db0, ExpiredMessages(db0, cutoff), batch, ids, b);
      assert ids[0..] == ids;
    }
    for i := 0 to |ids|
      invariant store.db == db1.(blobs := store.db.blobs)
      invariant store.db.blobs.Keys == db0.blobs.Keys
      invariant forall b :: Slack(store.db, b) == Slack(db0, b) + CountOf(ids[i..], b)
    {
      ghost var before := store.db;
      assert ids[i] in before.blobs;
      var undone := store.DecBlobRef(ids[i]);
      forall b ensures Slack(store.db, b) == Slack(db0, b) + CountOf(ids[i + 1..], b) {
        DecSlack(before, ids[i], b);
        assert ids[i..][0] == ids[i] && ids[i..][1..] == ids[i + 1..];
      }
    }
    cleared := |ids|;
  }

  /** Clearing slots frees, for each blob, as many references as the batch names it. */
  lemma ClearedSlots(db: Db, slots: set<Id>, batch: seq<Id>, ids: seq<Id>, b: Id)
    requires slots <= db.messages.Keys && Lists(batch, slots) && |ids| == |batch|
    requires forall i :: 0 <= i < |batch| ==> db.messages[batch[i]].raw == Some(ids[i])
    ensures Slack(db.(messages := ClearSlots(db.messages, slots)), b) == Slack(db, b) + CountOf(ids, b)
  {
    var before := Referrers(db.messages, RawBlob, b);
    var after := ClearSlots(db.messages, slots);
    assert Referrers(after, RawBlob, b) == before - before * slots;
    CountedSlots(db.messages, batch, ids, b);
    forall m ensures m in before * slots <==> m in before * Elements(batch) {
      assert m in Elements(batch) <==> m in batch;
      assert m in slots <==> m in batch;
    }
    assert before * slots == before * Elements(batch);
  }

  /** The batch names each row once, with the blob in its slot. */
  ghost predicate NamesSlots(rows: map<Id, Message>, batch: seq<Id>, ids: seq<Id>)
  {
    && |ids| == |batch|
    && (forall i :: 0 <= i < |batch| ==> batch[i] in rows && rows[batch[i]].raw == Some(ids[i]))
    && (forall i, j :: 0 <= i < j < |batch| ==> batch[i] != batch[j])
  }

  lemma {:induction false} CountedSlots(rows: map<Id, Message>, batch: seq<Id>, ids: seq<Id>, b: Id)
    requires NamesSlots(rows, batch, ids)
    ensures |Referrers(rows, RawBlob, b) * Elements(batch)| == CountOf(ids, b)
    decreases |batch|
  {
    if batch == [] {
      assert Referrers(rows, RawBlob, b) * Elements(batch) == {};
    } else {
      assert NamesSlots(rows, batch[1..], ids[1..]);
      CountedSlots(rows, batch[1..], ids[1..], b);
      FirstElement(Referrers(rows, RawBlob, b), batch);
    }
  }

  lemma FirstElement(s: set<Id>, batch: seq<Id>)
    requires batch != [] && forall i :: 0 < i < |batch| ==> batch[i] != batch[0]
    ensures |s * Elements(batch)| == |s * Elements(batch[1..])| + One(batch[0] in s)
  {
    var rest := s * Elements(batch[1..]);
    assert batch[0] !in rest;
    forall m ensures m in s * Elements(batch) <==> m in (if batch[0] in s then rest + {batch[0]} else rest) {
      assert m in batch <==> m == batch[0] || m in batch[1..];
    }
    assert s * Elements(batch) == if batch[0] in s then rest + {batch[0]} else rest;
  }

  function ZeroRef(db: Db): set<Id>
  {
    set b | b in db.blobs && db.blobs[b].refcount == 0
  }

  /** Blobs a garbage collection pass reclaims, when the files in `stuck` cannot be
      unlinked. */
  function Reclaimable(db: Db, stuck: set<string>): set<Id>
  {
    set b | b in db.blobs && db.blobs[b].refcount == 0 && db.blobs[b].sha !in stuck
  }

  function Digests(db: Db, rows: set<Id>): set<string>
  {
    set b | b in rows && b in db.blobs :: db.blobs[b].sha
  }

  function SizeIf(db: Db, b: Id, stuck: set<string>): nat
  {
    if b in Reclaimable(db, stuck) then db.blobs[b].size else 0
  }

  function Sizes(db: Db, rows: seq<Id>, stuck: set<string>): nat
  {
    if rows == [] then 0 else Sizes(db, rows[..|rows| - 1], stuck) + SizeIf(db, rows[|rows| - 1], stuck)
  }

  /** What a collection pass has done: the tables, the files left, its two counters. */
  datatype Swept = Swept(db: Db, files: set<string>, rows: nat, bytes: nat)

  /** One listed row: unlink its file, then delete the row if it still counts zero. */
  function SweepRow(s: Swept, listed: map<Id, Blob>, b: Id, stuck: set<string>): Swept
    requires b in listed
  {
    if listed[b].sha in stuck then s
    else
      var dropped := b in s.db.blobs && s.db.blobs[b].refcount == 0;
      Swept(DeleteBlobIfZero(s.db, b), s.files - {listed[b].sha},
            s.rows + One(dropped), s.bytes + (if dropped then listed[b].size else 0))
  }

  function SweepRows(s: Swept, listed: map<Id, Blob>, rows: seq<Id>, stuck: set<string>): Swept
    requires forall i :: 0 <= i < |rows| ==> rows[i] in listed
  {
    if rows == [] then s
    else SweepRow(SweepRows(s, listed, rows[..|rows| - 1], stuck), listed, rows[|rows| - 1], stuck)
  }

  /** An undisturbed pass reclaims exactly the zero-reference blobs whose file can be
      unlinked: rows, files and both counters. */
  lemma SweepReclaims(db: Db, files: set<string>, rows: seq<Id>, stuck: set<string>)
    requires Lists(rows, ZeroRef(db))
    ensures forall i :: 0 <= i < |rows| ==> rows[i] in db.blobs
    ensures var s := SweepRows(Swept(db, files, 0, 0), db.blobs, rows, stuck);
      && s.db == db.(blobs := db.blobs - Reclaimable(db, stuck))
      && s.files == files - Digests(db, Reclaimable(db, stuck))
      && s.rows == |Reclaimable(db, stuck)|
      && s.bytes == Sizes(db, rows, stuck)
  {
    forall i | 0 <= i < |rows| ensures rows[i] in db.blobs {
      assert rows[i] in ZeroRef(db);
    }
    assert Candidates(db, rows) by {
      forall i | 0 <= i < |rows| ensures db.blobs[rows[i]].refcount == 0 {
        assert rows[i] in ZeroRef(db);
      }
    }
    SweepPrefix(db, files, rows, stuck);
    forall b ensures b in Taken(db, rows, stuck) <==> b in Reclaimable(db, stuck) {
      assert b in ZeroRef(db) <==> b in rows;
    }
    assert Taken(db, rows, stuck) == Reclaimable(db, stuck);
  }

  /** Distinct zero-reference rows. */
  ghost predicate Candidates(db: Db, rows: seq<Id>)
  {
    && (forall i :: 0 <= i < |rows| ==> rows[i] in db.blobs && db.blobs[rows[i]].refcount == 0)
    && (forall i, j :: 0 <= i < j < |rows| ==> rows[i] != rows[j])
  }

  /** The pass after reclaiming `done`. */
  function After(db: Db, files: set<string>, done: set<Id>, bytes: nat): Swept
  {
    Swept(db.(blobs := db.blobs - done), files - Digests(db, done), |done|, bytes)
  }

  /** Listed rows that get reclaimed. */
  function Taken(db: Db, rows: seq<Id>, stuck: set<string>): set<Id>
  {
    Reclaimable(db, stuck) * Elements(rows)
  }

  lemma {:induction false} SweepPrefix(db: Db, files: set<string>, rows: seq<Id>, stuck: set<string>)
    requires Candidates(db, rows)
    ensures SweepRows(Swept(db, files, 0, 0), db.blobs, rows, stuck)
         == After(db, files, Taken(db, rows, stuck), Sizes(db, rows, stuck))
    decreases |rows|
  {
    if rows == [] {
      assert Taken(db, rows, stuck) == {};
      assert db.blobs - {} == db.blobs;
    } else {
      var front, b := rows[..|rows| - 1], rows[|rows| - 1];
      assert Candidates(db, front);
      SweepPrefix(db, files, front, stuck);
      LastElement(db, rows, stuck);
      SweepOne(db, files, Taken(db, front, stuck), b, stuck, Sizes(db, front, stuck));
    }
  }

  lemma LastElement(db: Db, rows: seq<Id>, stuck: set<string>)
    requires Candidates(db, rows) && rows != []
    ensures var done, b := Taken(db, rows[..|rows| - 1], stuck), rows[|rows| - 1];
      && b !in done
      && Taken(db, rows, stuck) == (if b in Reclaimable(db, stuck) then done + {b} else done)
  {
    var front, b := rows[..|rows| - 1], rows[|rows| - 1];
    assert rows == front + [b];
    assert Elements(rows) == Elements(front) + {b} && b !in Elements(front);
  }

  lemma SweepOne(db: Db, files: set<string>, done: set<Id>, b: Id, stuck: set<string>, bytes: nat)
    requires b in db.blobs && db.blobs[b].refcount == 0 && b !in done
    ensures SweepRow(After(db, files, done, bytes), db.blobs, b, stuck)
         == After(db, files, if b in Reclaimable(db, stuck) then done + {b} else done, bytes + SizeIf(db, b, stuck))
  {
    if b in Reclaimable(db, stuck) {
      assert db.blobs - done - {b} == db.blobs - (done + {b});
      DigestsAdd(db, done, b);
    }
  }

  lemma DigestsAdd(db: Db, done: set<Id>, b: Id)
    requires b in db.blobs
    ensures Digests(db, done + {b}) == Digests(db, done) + {db.blobs[b].sha}
  {
  }

  /** What is reclaimed, read off the tables. */
  lemma ReclaimedMeans(db: Db, files: set<string>, stuck: set<string>)
    ensures forall b :: b in db.blobs - Reclaimable(db, stuck) <==>
      b in db.blobs && (db.blobs[b].refcount != 0 || db.blobs[b].sha in stuck)
    ensures forall sha :: sha in files - Digests(db, Reclaimable(db, stuck)) <==>
      && sha in files
      && (sha in stuck || forall b :: b in db.blobs && db.blobs[b].refcount == 0 ==> db.blobs[b].sha != sha)
    ensures Reclaimable(db, stuck) == set b | b in db.blobs && db.blobs[b].refcount == 0 && db.blobs[b].sha !in stuck
  {
    forall sha | sha in files
      ensures sha in Digests(db, Reclaimable(db, stuck)) <==>
        sha !in stuck && exists b :: b in db.blobs && db.blobs[b].refcount == 0 && db.blobs[b].sha == sha
    {
      if sha !in stuck && exists b :: b in db.blobs && db.blobs[b].refcount == 0 && db.blobs[b].sha == sha {
        var b :| b in db.blobs && db.blobs[b].refcount == 0 && db.blobs[b].sha == sha;
        assert b in Reclaimable(db, stuck);
      }
    }
  }

  /** The reclaimed bytes are the sizes of the reclaimed rows. */
  lemma SizesAre(db: Db, rows: seq<Id>, b: Id, stuck: set<string>)
    ensures Sizes(db, [], stuck) == 0
    ensures Sizes(db, rows + [b], stuck) == Sizes(db, rows, stuck)
         + (if b in db.blobs && db.blobs[b].refcount == 0 && db.blobs[b].sha !in stuck then db.blobs[b].size else 0)
  {
    assert (rows + [b])[..|rows|] == rows;
  }

  /** One collection pass over the listed zero-reference rows, undisturbed: a row goes
      exactly when it counts no reference and its file could be unlinked, a file when it is
      that of such a row. */
  method SweepBlobs(store: Store, files: set<string>, rows: seq<Id>, stuck: set<string>)
    returns (left: set<string>, deletedRows: nat, deletedBytes: nat)
    requires Lists(rows, ZeroRef(store.db))
    modifies store
    ensures store.db == old(store.db).(blobs := store.db.blobs)
    ensures forall b :: b in store.db.blobs <==>
      b in old(store.db).blobs && (old(store.db).blobs[b].refcount != 0 || old(store.db).blobs[b].sha in stuck)
    ensures forall b :: b in store.db.blobs ==> store.db.blobs[b] == old(store.db).blobs[b]
    ensures forall sha :: sha in left <==>
      sha in files && (sha in stuck || forall b :: b in old(store.db).blobs && old(store.db).blobs[b].refcount == 0 ==>
                                         old(store.db).blobs[b].sha != sha)
    ensures deletedRows
         == |set b | b in old(store.db).blobs && old(store.db).blobs[b].refcount == 0
                     && old(store.db).blobs[b].sha !in stuck|
    ensures deletedBytes == Sizes(old(store.db), rows, stuck)
  {
    ghost var db0 := store.db;
    ReclaimedMeans(db0, files, stuck);
    SweepReclaims(db0, files, rows, stuck);
    var listed := store.db.blobs;
    left, deletedRows, deletedBytes := files, 0, 0;
    for i := 0 to |rows|
      invariant Swept(store.db, left, deletedRows, deletedBytes)
        == SweepRows(Swept(db0, files, 0, 0), listed, rows[..i], stuck)
    {
      var b := rows[i];
      assert rows[..i + 1][..i] == rows[..i];
      if listed[b].sha !in stuck {
        left := left - {listed[b].sha};
        var dropped := store.DeleteBlobIfZero(b);
        if dropped {
          deletedRows, deletedBytes := deletedRows + 1, deletedBytes + listed[b].size;
        }
      }
    }
    assert rows[..|rows|] == rows;
  }
}
