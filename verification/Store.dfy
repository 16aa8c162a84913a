/**
 * The storage layer.  Each method is one WithTx closure on the single writer
 * connection and is proved against the transaction functions of Tables and
 * ThreadStats; an error rolls back.  Result sets of SELECTs and the row ids the
 * database assigns are parameters.
 */
module Storage {
  import opened Common
  import opened Tables
  import opened ThreadStats

  datatype MarkReadOutcome = MarkReadOutcome(changed: seq<Id>, changedThreads: set<Id>)

  datatype FlagToggleOutcome = FlagToggleOutcome(action: ToggleAction, changed: seq<Id>)

  datatype FlagDelta = FlagDelta(uid: int, flags: Flags)

  /** Rows in the order a query returns them: each once, and no others. */
  ghost predicate Lists(rows: seq<Id>, ids: set<Id>)
  {
    && (forall i :: 0 <= i < |rows| ==> rows[i] in ids)
    && (forall m :: m in ids ==> m in rows)
    && (forall i, j :: 0 <= i < j < |rows| ==> rows[i] != rows[j])
  }

  function FlaggedOf(rows: map<Id, Message>, ids: set<Id>): set<Id>
  {
    set m | m in ids && m in rows && FLAGGED in rows[m].flags
  }

  /** One more candidate unflagged. */
  lemma UnflagNext(rows: map<Id, Message>, cands: seq<Id>, i: nat)
    requires i < |cands| && cands[i] in rows
    requires forall j :: 0 <= j < i ==> cands[j] != cands[i]
    ensures var c, before := cands[i], UnflagAll(rows, Elements(cands[..i]));
      && c !in Elements(cands[..i]) && before[c] == rows[c]
      && UnflagAll(rows, Elements(cands[..i + 1]))
        == before[c := rows[c].(flags := RemoveFirst(rows[c].flags, FLAGGED))]
      && (FLAGGED !in rows[c].flags ==> UnflagAll(rows, Elements(cands[..i + 1])) == before)
      && FlaggedOf(rows, Elements(cands[..i + 1]))
         == FlaggedOf(rows, Elements(cands[..i])) + (if FLAGGED in rows[c].flags then {c} else {})
  {
    var c := cands[i];
    assert cands[..i + 1] == cands[..i] + [c];
    assert Elements(cands[..i + 1]) == Elements(cands[..i]) + {c};
    RemoveFirstLaws(rows[c].flags, FLAGGED);
  }

  lemma UnflagChanges(rows: map<Id, Message>, ids: set<Id>)
    ensures FlaggedOf(rows, ids) == set m | m in rows && UnflagAll(rows, ids)[m] != rows[m]
  {
    forall m | m in rows
      ensures UnflagAll(rows, ids)[m] != rows[m] <==> m in ids && FLAGGED in rows[m].flags
    {
      RemoveFirstLaws(rows[m].flags, FLAGGED);
      assert FLAGGED in rows[m].flags ==>
        Occurrences(RemoveFirst(rows[m].flags, FLAGGED), FLAGGED) != Occurrences(rows[m].flags, FLAGGED);
    }
  }

  function Count(counts: map<Id, nat>, b: Id): nat
  {
    if b in counts then counts[b] else 0
  }

  /** counts says how many of the rows in keys point at each blob. */
  ghost predicate Counts<K(!new), V>(counts: map<Id, nat>, rows: map<K, V>, column: V -> Option<Id>, keys: set<K>)
  {
    forall b :: Count(counts, b) == |Referrers(rows, column, b) * keys|
  }

  /** One more row with this link. */
  function Tally(counts: map<Id, nat>, link: Option<Id>): map<Id, nat>
  {
    if link.Some? then counts[link.value := Count(counts, link.value) + 1] else counts
  }

  /** The grouped SELECT: blob id and number of rows. */
  method CountLinks<K(==, !new), V>(rows: map<K, V>, column: V -> Option<Id>, keys: set<K>)
    returns (counts: map<Id, nat>)
    requires keys <= rows.Keys
    ensures Counts(counts, rows, column, keys)
  {
    counts := map[];
    var todo := keys;
    ghost var done: set<K> := {};
    CountNone(rows, column);
    while todo != {}
      invariant todo + done == keys && todo !! done
      invariant Counts(counts, rows, column, done)
      decreases |todo|
    {
      var k := Pick(todo);
      assert k in rows && k !in done;
      CountOne(counts, rows, column, done, k);
      counts := Tally(counts, column(rows[k]));
      todo, done := todo - {k}, done + {k};
    }
  }

  lemma CountNone<K(!new), V>(rows: map<K, V>, column: V -> Option<Id>)
    ensures Counts(map[], rows, column, {})
  {
    forall b ensures Count(map[], b) == |Referrers(rows, column, b) * {}| {
      assert Referrers(rows, column, b) * {} == {};
    }
  }

  lemma CountOne<K(!new), V>(counts: map<Id, nat>, rows: map<K, V>, column: V -> Option<Id>, done: set<K>, k: K)
    requires Counts(counts, rows, column, done) && k in rows && k !in done
    ensures Counts(Tally(counts, column(rows[k])), rows, column, done + {k})
  {
    var after := Tally(counts, column(rows[k]));
    forall b ensures Count(after, b) == |Referrers(rows, column, b) * (done + {k})| {
      MeetAdd(Referrers(rows, column, b), done, k);
      assert Count(counts, b) == |Referrers(rows, column, b) * done|;
      assert Count(after, b) == Count(counts, b) + One(column(rows[k]) == Some(b));
    }
  }

  lemma MeetAdd<K>(s: set<K>, done: set<K>, k: K)
    requires k !in done
    ensures |s * (done + {k})| == |s * done| + One(k in s)
  {
    assert s * (done + {k}) == if k in s then s * done + {k} else s * done;
  }

  /** The UPDATE over the grouped counts. */
  function Subtract(blobs: map<Id, Blob>, counts: map<Id, nat>): map<Id, Blob>
  {
    map b | b in blobs :: blobs[b].(refcount := blobs[b].refcount - Count(counts, b))
  }

  lemma SubtractIsDrain<K(!new), V>(blobs: map<Id, Blob>, rows: map<K, V>,
      column: V -> Option<Id>, keys: set<K>, counts: map<Id, nat>)
    requires Counts(counts, rows, column, keys)
    ensures Subtract(blobs, counts) == DrainRefs(blobs, rows, column, keys)
  {
    var left, right := Subtract(blobs, counts), DrainRefs(blobs, rows, column, keys);
    forall b | b in blobs ensures left[b] == right[b] {
      assert Count(counts, b) == |Referrers(rows, column, b) * keys|;
    }
    assert left == right;
  }

  class Store {
    var db: Db

    constructor (db: Db)
      ensures this.db == db
    {
      this.db := db;
    }

    // ---------------------------------------------------------- thread rows

    method UpdateThreadStats(t: Id)
      modifies this
      ensures db == Refresh(old(db), {t})
      ensures db == old(db).(threads := db.threads) && db.threads.Keys == old(db).threads.Keys
      ensures t in db.threads ==> Agrees(db, t) && db.threads[t].subject == old(db).threads[t].subject
      ensures forall u :: u in db.threads && u != t ==> db.threads[u] == old(db).threads[u]
    {
      RefreshMeans(db, {t});
      if t in db.threads {
        var lastDate := MaxDate(Dates(db, t));
        var row := ThreadRow(db.threads[t].subject, lastDate, |Members(db, t)|, |Unread(db, t)|,
                             AnyFlagged(db, t), WithAttachment(db, t) != {});
        assert row == StatsOf(db, t, db.threads[t].subject);
        db := db.(threads := db.threads[t := row]);
      }
      assert db.threads == Refresh(old(db), {t}).threads;
    }

    method RefreshThreadStatsForSet(threadSet: set<Id>)
      modifies this
      ensures db == Refresh(old(db), threadSet)
    {
      var todo := threadSet;
      while todo != {}
        invariant todo <= threadSet
        invariant db == Refresh(old(db), threadSet - todo)
        decreases |todo|
      {
        var t := Pick(todo);
        UpdateThreadStats(t);
        todo := todo - {t};
        RefreshAgain(old(db), threadSet - todo - {t}, t);
        assert threadSet - todo == threadSet - todo - {t} + {t};
      }
      assert threadSet - todo == threadSet;
    }

    /** Appends \Seen to every candidate that lacks it. */
    method MarkRowsAsSeen(cands: seq<Id>) returns (changed: seq<Id>, threadSet: set<Id>)
      requires forall i :: 0 <= i < |cands| ==> cands[i] in db.messages
      requires forall i, j :: 0 <= i < j < |cands| ==> cands[i] != cands[j]
      modifies this
      ensures db == old(db).(messages := MarkSeen(old(db).messages, Elements(cands)))
      ensures Lists(changed, NewlySeen(old(db).messages, Elements(cands)))
      ensures threadSet == ThreadsOf(old(db).messages, NewlySeen(old(db).messages, Elements(cands)))
      ensures forall m :: m in changed <==> m in cands && "\\Seen" !in old(db).messages[m].flags
    {
      changed, threadSet := [], {};
      assert db.messages == MarkSeen(db.messages, Elements(cands[..0]));
      for i := 0 to |cands|
        invariant db == old(db).(messages := MarkSeen(old(db).messages, Elements(cands[..i])))
        invariant Lists(changed, NewlySeen(old(db).messages, Elements(cands[..i])))
        invariant threadSet == ThreadsOf(old(db).messages, NewlySeen(old(db).messages, Elements(cands[..i])))
      {
        var c := cands[i];
        var m := db.messages[c];
        MarkSeenExtends(old(db).messages, cands, i);
        if SEEN !in m.flags {
          db := db.(messages := db.messages[c := m.(flags := m.flags + [SEEN])]);
          changed := changed + [c];
          if m.thread.Some? {
            threadSet := threadSet + {m.thread.value};
          }
        }
      }
      assert cands[..|cands|] == cands;
      forall m ensures m in changed <==> m in cands && "\\Seen" !in old(db).messages[m].flags {
        assert m in changed <==> m in NewlySeen(old(db).messages, Elements(cands));
      }
    }

    method MarkMessagesRead(ids: set<Id>, cands: seq<Id>) returns (out: MarkReadOutcome)
      requires Lists(cands, set m | m in ids && m in db.messages)
      modifies this
      ensures db == ThreadStats.MarkMessagesRead(old(db), ids)
      ensures Lists(out.changed, NewlySeen(old(db).messages, ids))
      ensures out.changedThreads == ThreadsOf(old(db).messages, NewlySeen(old(db).messages, ids))
      ensures forall m :: m in out.changed <==>
        m in ids && m in old(db).messages && "\\Seen" !in old(db).messages[m].flags
      ensures forall t :: t in out.changedThreads <==>
        exists m :: m in out.changed && old(db).messages[m].thread == Some(t)
    {
      var changed, threadSet := MarkRowsAsSeen(cands);
      ghost var rows := old(db).messages;
      forall m ensures m in Elements(cands) <==> m in ids && m in rows {
        assert m in Elements(cands) <==> m in cands;
      }
      assert MarkSeen(rows, Elements(cands)) == MarkSeen(rows, ids);
      assert NewlySeen(rows, Elements(cands)) == NewlySeen(rows, ids);
      RefreshThreadStatsForSet(threadSet);
      ReportedSeen(rows, changed, ids);
      out := MarkReadOutcome(changed, threadSet);
    }

    method MarkFolderMessagesRead(folder: Id, cands: seq<Id>) returns (out: MarkReadOutcome)
      requires Lists(cands, UnreadInFolder(db, folder))
      modifies this
      ensures db == ThreadStats.MarkMessagesRead(old(db), UnreadInFolder(old(db), folder))
      ensures Lists(out.changed, UnreadInFolder(old(db), folder))
      ensures out.changedThreads == ThreadsOf(old(db).messages, UnreadInFolder(old(db), folder))
      ensures forall m :: m in out.changed <==>
        m in old(db).messages && old(db).messages[m].folder == folder && "\\Seen" !in old(db).messages[m].flags
      ensures forall t :: t in out.changedThreads <==>
        exists m :: m in out.changed && old(db).messages[m].thread == Some(t)
    {
      var changed, threadSet := MarkRowsAsSeen(cands);
      ghost var rows := old(db).messages;
      ghost var ids := UnreadInFolder(old(db), folder);
      forall m ensures m in Elements(cands) <==> m in ids {
        assert m in Elements(cands) <==> m in cands;
      }
      assert Elements(cands) == ids && NewlySeen(rows, ids) == ids;
      RefreshThreadStatsForSet(threadSet);
      ReportedSeen(rows, changed, ids);
      out := MarkReadOutcome(changed, threadSet);
    }

    method ToggleThreadFlagged(t: Id, cands: seq<Id>) returns (out: FlagToggleOutcome)
      requires IsScan(db, t, cands)
      modifies this
      ensures db == Toggle(old(db), t, cands)
      ensures out.action == ToggleKind(old(db), t)
      ensures Lists(out.changed, set m | m in old(db).messages && db.messages[m] != old(db).messages[m])
      ensures out.action == Noop <==> forall m :: m in old(db).messages ==> old(db).messages[m].thread != Some(t)
      ensures out.action == Added ==>
        && |out.changed| == 1 && out.changed[0] in old(db).messages
        && var star := out.changed[0];
           && old(db).messages[star].thread == Some(t)
           && "\\Flagged" !in old(db).messages[star].flags && "\\Flagged" in db.messages[star].flags
           && forall m :: m in old(db).messages && old(db).messages[m].thread == Some(t) ==>
                old(db).messages[m].date <= old(db).messages[star].date
      ensures out.action == Removed ==> out.changed != [] && forall i :: 0 <= i < |out.changed| ==>
        && out.changed[i] in old(db).messages && "\\Flagged" in old(db).messages[out.changed[i]].flags
        && multiset(db.messages[out.changed[i]].flags)["\\Flagged"]
           == multiset(old(db).messages[out.changed[i]].flags)["\\Flagged"] - 1
    {
      out := ToggleRows(t, cands);
      ToggleReport(old(db), t, cands, out);
    }

    /** The closure: look for a flag, then remove them all or add one. */
    method ToggleRows(t: Id, cands: seq<Id>) returns (out: FlagToggleOutcome)
      requires IsScan(db, t, cands)
      modifies this
      ensures db == Toggle(old(db), t, cands)
      ensures out.action == ToggleKind(old(db), t)
      ensures Lists(out.changed, set m | m in old(db).messages && db.messages[m] != old(db).messages[m])
    {
      if cands == [] {
        assert forall m :: m in Members(db, t) ==> m in cands;
        assert Members(db, t) == {};
        return FlagToggleOutcome(Noop, []);
      }
      assert cands[0] in Members(db, t);
      var anyFlagged := false;
      for i := 0 to |cands|
        invariant db == old(db)
        invariant !anyFlagged
        invariant forall j :: 0 <= j < i ==> FLAGGED !in db.messages[cands[j]].flags
      {
        assert cands[i] in Members(db, t);
        if FLAGGED in db.messages[cands[i]].flags {
          assert cands[i] in Flagged(db, t);
          anyFlagged := true;
          break;
        }
      }
      assert anyFlagged <==> AnyFlagged(db, t) by {
        if AnyFlagged(db, t) {
          var m := AnyOf(Flagged(db, t));
          assert m in Members(db, t) && m in cands;
        }
      }
      if anyFlagged {
        var changed := UnflagRows(t, cands);
        UpdateThreadStats(t);
        out := FlagToggleOutcome(Removed, changed);
      } else {
        var c := cands[0];
        var m := db.messages[c];
        db := db.(messages := db.messages[c := m.(flags := m.flags + [FLAGGED])]);
        UpdateThreadStats(t);
        assert |m.flags + [FLAGGED]| != |m.flags|;
        out := FlagToggleOutcome(Added, [c]);
      }
    }

    /** Removes the first \Flagged from every candidate that has one. */
    method UnflagRows(t: Id, cands: seq<Id>) returns (changed: seq<Id>)
      requires IsScan(db, t, cands)
      modifies this
      ensures db == old(db).(messages := UnflagAll(old(db).messages, Members(old(db), t)))
      ensures Lists(changed, set m | m in old(db).messages && db.messages[m] != old(db).messages[m])
    {
      changed := [];
      ghost var rows := db.messages;
      forall i | 0 <= i < |cands| ensures cands[i] in rows {
        assert cands[i] in Members(db, t);
      }
      assert rows == UnflagAll(rows, Elements(cands[..0]));
      for i := 0 to |cands|
        invariant db == old(db).(messages := UnflagAll(rows, Elements(cands[..i])))
        invariant Lists(changed, FlaggedOf(rows, Elements(cands[..i])))
      {
        var c := cands[i];
        UnflagNext(rows, cands, i);
        var m := db.messages[c];
        if FLAGGED in m.flags {
          db := db.(messages := db.messages[c := m.(flags := RemoveFirst(m.flags, FLAGGED))]);
          changed := changed + [c];
        }
      }
      assert cands[..|cands|] == cands;
      forall m ensures m in Elements(cands) <==> m in Members(old(db), t) {
        assert m in Elements(cands) <==> m in cands;
      }
      assert Elements(cands) == Members(old(db), t);
      UnflagChanges(rows, Elements(cands));
    }

    // ------------------------------------------------------ inserts, deletes

    /** Thread, message and attachments in one transaction, or nothing at all. */
    method InsertParsedMessageBundle(b: Bundle, ids: NewIds) returns (r: Result<(Id, Id), DbError>)
      requires FreshIds(db, b, ids)
      modifies this
      ensures r.Ok? <==>
        && (b.existingThread.Some? ==> b.existingThread.value in old(db).threads)
        && b.message.account in old(db).accounts && b.message.folder in old(db).folders
        && !exists m :: m in old(db).messages && old(db).messages[m].account == b.message.account
             && old(db).messages[m].folder == b.message.folder && old(db).messages[m].uid == b.message.uid
      ensures r.Ok? ==> db == InsertBundle(old(db), b, ids) && Insertable(old(db), b)
      ensures r.Ok? ==> r.value == (ids.message, if b.existingThread.Some? then b.existingThread.value else ids.thread)
      ensures r.Err? ==> db == old(db) && r.error == ConstraintFailed
    {
      var saved := db;
      var t := BundleThread(b, ids);
      if b.existingThread.None? {
        db := db.(threads := db.threads[t := ThreadRow(b.newSubject, 0, 0, 0, false, false)]);
      }
      if t !in db.threads || b.message.account !in db.accounts || b.message.folder !in db.folders
         || exists m :: m in db.messages && db.messages[m].account == b.message.account
                        && db.messages[m].folder == b.message.folder && db.messages[m].uid == b.message.uid
      {
        db := saved;
        return Err(ConstraintFailed);
      }
      db := db.(messages := db.messages[ids.message := InsertedMessage(b, ids)]);
      ghost var half := db;
      for i := 0 to |b.attachments|
        invariant db == half.(attachments := InsertedAttachments(saved.attachments, b, ids, i))
      {
        db := db.(attachments := db.attachments[ids.attachments[i] := b.attachments[i].(message := ids.message)]);
      }
      UpdateThreadStats(t);
      r := Ok((ids.message, t));
    }

    /** Wipes a folder: exactly its messages go, no blob's count drifts from its links,
        and no thread is left without messages. */
    method DeleteMessagesByFolder(folder: Id)
      modifies this
      ensures db == Tables.DeleteMessagesByFolder(old(db), folder)
      ensures db.messages == old(db).messages - ScopedMessages(old(db), OfFolder(folder))
      ensures BlobsExist(old(db)) ==> SameSlack(old(db), db)
      ensures NoOrphans(db)
    {
      BulkDeletesLeaveNoOrphans(db, folder, 0);
      if BlobsExist(db) {
        DrainKeepsSlack(db, OfFolder(folder));
      }
      var scope := OfFolder(folder);
      DecBlobRefs(scope);
      db := RemoveMessages(db, ScopedMessages(db, scope));
      db := DeleteOrphanThreads(db);
    }

    /** Removes an account: exactly its messages go, again without drift or orphans; an
        unknown account is reported. */
    method DeleteAccount(account: Id) returns (deleted: bool)
      modifies this
      ensures (db, deleted) == Tables.DeleteAccount(old(db), account)
      ensures deleted <==> account in old(db).accounts
      ensures Integrity(old(db)) ==> db.messages == old(db).messages - ScopedMessages(old(db), OfAccount(account))
      ensures BlobsExist(old(db)) && Integrity(old(db)) ==> SameSlack(old(db), db)
      ensures NoOrphans(db)
    {
      BulkDeletesLeaveNoOrphans(db, 0, account);
      if Integrity(db) {
        CascadeIsScope(db, account);
        assert db.messages - {} == db.messages;
        if BlobsExist(db) {
          DeleteAccountKeepsSlack(db, account);
        }
      }
      DecBlobRefs(OfAccount(account));
      deleted := account in db.accounts;
      if deleted {
        db := WithoutAccount(db, account);
      }
      db := DeleteOrphanThreads(db);
    }

    /** Both reference columns, drained one after the other: rows are counted per blob
        first, so that a blob referenced many times loses them all in one update. */
    method DecBlobRefs(scope: Scope)
      modifies this
      ensures db == old(db).(blobs := DrainScope(old(db), scope))
    {
      var before := db;
      var atts, msgs := ScopedAttachments(before, scope), ScopedMessages(before, scope);
      var counts := CountLinks(before.attachments, AttachmentBlob, atts);
      SubtractIsDrain(before.blobs, before.attachments, AttachmentBlob, atts, counts);
      var half := Subtract(before.blobs, counts);
      counts := CountLinks(before.messages, RawBlob, msgs);
      SubtractIsDrain(half, before.messages, RawBlob, msgs, counts);
      db := db.(blobs := Subtract(half, counts));
    }

    // ------------------------------------------------------------ flag deltas

    method UpdateFlagsByUID(folder: Id, uid: int, flags: Flags) returns (r: Result<(Id, Option<Id>, bool), DbError>)
      modifies this
      ensures r.Err? ==> db == old(db) && forall m :: m in db.messages ==>
        !(db.messages[m].folder == folder && db.messages[m].uid == uid)
      ensures r.Ok? ==>
        && var (m, thread, changed) := r.value;
        && m in old(db).messages && old(db).messages[m].folder == folder && old(db).messages[m].uid == uid
        && thread == old(db).messages[m].thread
        && changed == (old(db).messages[m].flags != flags)
        && db == old(db).(messages := old(db).messages[m := old(db).messages[m].(flags := flags)])
    {
      var rows := set m | m in db.messages && db.messages[m].folder == folder && db.messages[m].uid == uid;
      if rows == {} {
        forall m | m in db.messages ensures !(db.messages[m].folder == folder && db.messages[m].uid == uid) {
          assert m !in rows;
        }
        return Err(NoRows);
      }
      var m := Pick(rows);
      var row := db.messages[m];
      if row.flags == flags {
        assert db.messages == db.messages[m := row.(flags := flags)];
        return Ok((m, row.thread, false));
      }
      db := db.(messages := db.messages[m := row.(flags := flags)]);
      r := Ok((m, row.thread, true));
    }

    method SetFolderHighestModSeq(folder: Id, modseq: nat)
      modifies this
      ensures db == Advanced(old(db), folder, modseq)
      ensures db == old(db).(folders := db.folders) && db.folders.Keys == old(db).folders.Keys
      ensures forall f :: f in db.folders ==> db.folders[f] == old(db).folders[f].(highestModSeq :=
        if f == folder && old(db).folders[f].highestModSeq < modseq then modseq else old(db).folders[f].highestModSeq)
    {
      if folder in db.folders && db.folders[folder].highestModSeq < modseq {
        db := db.(folders := db.folders[folder := db.folders[folder].(highestModSeq := modseq)]);
      }
    }

    // ------------------------------------------------------------------ blobs

    method InsertOrIncBlob(sha: string, size: nat, newId: Id) returns (id: Id, isNew: bool)
      requires newId !in db.blobs
      modifies this
      ensures IsRowFor(old(db), sha, id) && db == Tables.InsertOrIncBlob(old(db), sha, size, id)
      ensures isNew <==> forall b :: b in old(db).blobs ==> old(db).blobs[b].sha != sha
      ensures isNew ==> id == newId && db == old(db).(blobs := old(db).blobs[id := Blob(sha, size, 1)])
      ensures !isNew ==>
        && id in old(db).blobs && old(db).blobs[id].sha == sha
        && db == old(db).(blobs :=
             old(db).blobs[id := old(db).blobs[id].(refcount := old(db).blobs[id].refcount + 1)])
    {
      var rows := set b | b in db.blobs && db.blobs[b].sha == sha;
      if rows != {} {
        id := Pick(rows);
        isNew := false;
        db := db.(blobs := db.blobs[id := db.blobs[id].(refcount := db.blobs[id].refcount + 1)]);
      } else {
        forall b | b in db.blobs ensures db.blobs[b].sha != sha {
          assert b !in rows;
        }
        id, isNew := newId, true;
        db := db.(blobs := db.blobs[id := Blob(sha, size, 1)]);
      }
    }

    method DecBlobRef(id: Id) returns (r: Result<int, DbError>)
      modifies this
      ensures r.Ok? <==> id in old(db).blobs
      ensures r.Ok? ==> Tables.DecBlobRef(old(db), id) == Ok(db)
      ensures r.Ok? ==>
        && r.value == old(db).blobs[id].refcount - 1
        && db == old(db).(blobs := old(db).blobs[id := old(db).blobs[id].(refcount := r.value)])
      ensures r.Err? ==> db == old(db)
    {
      if id !in db.blobs {
        return Err(NoRows);
      }
      db := db.(blobs := db.blobs[id := db.blobs[id].(refcount := db.blobs[id].refcount - 1)]);
      r := Ok(db.blobs[id].refcount);
    }

    method DeleteBlobIfZero(id: Id) returns (deleted: bool)
      modifies this
      ensures db == Tables.DeleteBlobIfZero(old(db), id)
      ensures deleted <==> id in old(db).blobs && old(db).blobs[id].refcount == 0
      ensures db == if deleted then old(db).(blobs := old(db).blobs - {id}) else old(db)
    {
      deleted := id in db.blobs && db.blobs[id].refcount == 0;
      if deleted {
        db := db.(blobs := db.blobs - {id});
      }
    }

    method UpdateAttachmentDownloaded(att: Id, blob: Id)
      modifies this
      ensures db == Tables.UpdateAttachmentDownloaded(old(db), att, blob)
      ensures att in old(db).attachments ==> db == old(db).(attachments :=
        old(db).attachments[att := old(db).attachments[att].(blob := Some(blob), localPath := None)])
      ensures att !in old(db).attachments ==> db == old(db)
    {
      if att in db.attachments {
        db := db.(attachments := db.attachments[att := db.attachments[att].(blob := Some(blob), localPath := None)]);
      }
    }

    method ClearAttachmentBlob(att: Id) returns (r: Result<Option<Id>, DbError>)
      modifies this
      ensures match Tables.ClearAttachmentBlob(old(db), att)
        case Ok((after, prev)) => db == after && r == Ok(prev)
        case Err(e) => db == old(db) && r == Err(e)
      ensures r.Err? <==> att !in old(db).attachments
      ensures r.Ok? ==> r.value == old(db).attachments[att].blob && db == old(db).(attachments :=
        old(db).attachments[att := old(db).attachments[att].(blob := None, localPath := None)])
    {
      if att !in db.attachments {
        return Err(NoRows);
      }
      var prev := db.attachments[att].blob;
      db := db.(attachments := db.attachments[att := db.attachments[att].(blob := None, localPath := None)]);
      r := Ok(prev);
    }

    method SetMessageRawBlob(msg: Id, blob: Id, at: int) returns (r: Result<SetRawResult, DbError>)
      modifies this
      ensures match Tables.SetMessageRawBlob(old(db), msg, blob, at)
        case Ok((after, result)) => db == after && r == Ok(result)
        case Err(e) => db == old(db) && r == Err(e)
      ensures r.Err? <==> msg !in old(db).messages
      ensures r.Ok? ==> db == old(db).(messages :=
        old(db).messages[msg := old(db).messages[msg].(raw := Some(blob), rawAt := Some(at))])
      ensures r.Ok? ==>
        var slot := old(db).messages[msg].raw;
        r.value == if slot.None? then SetFresh else if slot.value == blob then SetNoop else SetReplaced(slot.value)
    {
      if msg !in db.messages {
        return Err(NoRows);
      }
      var m := db.messages[msg];
      match m.raw {
        case None =>
          db := db.(messages := db.messages[msg := m.(raw := Some(blob), rawAt := Some(at))]);
          r := Ok(SetFresh);
        case Some(existing) =>
          if existing == blob {
            db := db.(messages := db.messages[msg := m.(rawAt := Some(at))]);
            r := Ok(SetNoop);
          } else {
            db := db.(messages := db.messages[msg := m.(raw := Some(blob), rawAt := Some(at))]);
            r := Ok(SetReplaced(existing));
          }
      }
    }

    method ClearMessageRawBlob(msg: Id) returns (r: Result<Option<Id>, DbError>)
      modifies this
      ensures match Tables.ClearMessageRawBlob(old(db), msg)
        case Ok((after, prev)) => db == after && r == Ok(prev)
        case Err(e) => db == old(db) && r == Err(e)
      ensures r.Err? <==> msg !in old(db).messages
      ensures r.Ok? ==> r.value == old(db).messages[msg].raw
      ensures r.Ok? ==> db == if r.value.None? then old(db) else old(db).(messages :=
        old(db).messages[msg := old(db).messages[msg].(raw := None, rawAt := None)])
    {
      if msg !in db.messages {
        return Err(NoRows);
      }
      var prev := db.messages[msg].raw;
      if prev.Some? {
        db := db.(messages := db.messages[msg := db.messages[msg].(raw := None, rawAt := None)]);
      }
      r := Ok(prev);
    }

    /** Clears every slot captured before the cutoff; `batch` is the SELECT's answer. */
    method SweepExpiredRaw(cutoff: int, batch: seq<Id>) returns (cleared: seq<Id>)
      requires Lists(batch, ExpiredMessages(db, cutoff))
      modifies this
      ensures db == Tables.SweepExpiredRaw(old(db), cutoff)
      ensures db == old(db).(messages := db.messages) && db.messages.Keys == old(db).messages.Keys
      ensures forall m :: m in db.messages ==> var row := old(db).messages[m];
        db.messages[m] == if row.raw.Some? && row.rawAt.Some? && row.rawAt.value < cutoff
                          then row.(raw := None, rawAt := None) else row
      ensures |cleared| == |batch|
      ensures forall i :: 0 <= i < |batch| ==> old(db).messages[batch[i]].raw == Some(cleared[i])
    {
      cleared := [];
      ghost var rows := db.messages;
      assert rows == ClearSlots(rows, Elements(batch[..0]));
      for i := 0 to |batch|
        invariant db == old(db).(messages := ClearSlots(rows, Elements(batch[..i])))
        invariant |cleared| == i
        invariant forall j :: 0 <= j < i ==> rows[batch[j]].raw == Some(cleared[j])
      {
        var m := batch[i];
        assert m in ExpiredMessages(old(db), cutoff);
        assert batch[..i + 1] == batch[..i] + [m] && m !in batch[..i];
        cleared := cleared + [db.messages[m].raw.value];
        db := db.(messages := db.messages[m := db.messages[m].(raw := None, rawAt := None)]);
        assert Elements(batch[..i + 1]) == Elements(batch[..i]) + {m};
        assert db.messages == ClearSlots(rows, Elements(batch[..i + 1]));
      }
      assert batch[..|batch|] == batch;
      forall m ensures m in Elements(batch) <==> m in ExpiredMessages(old(db), cutoff) {
        assert m in Elements(batch) <==> m in batch;
      }
      assert Elements(batch) == ExpiredMessages(old(db), cutoff);
    }
  }

  /** COALESCE(MAX(date), 0). */
  method MaxDate(dates: set<int>) returns (r: int)
    ensures r == if dates == {} then 0 else MaxOf(dates)
  {
    r := 0;
    var seen: set<int> := {};
    while seen != dates
      invariant seen <= dates
      invariant seen == {} ==> r == 0
      invariant seen != {} ==> r in seen && forall d :: d in seen ==> d <= r
      decreases |dates - seen|
    {
      var d := Pick(dates - seen);
      if seen == {} || r < d {
        r := d;
      }
      assert dates - seen == dates - (seen + {d}) + {d};
      seen := seen + {d};
    }
  }

  /** One more thread refreshed on top of others. */
  lemma RefreshAgain(db: Db, touched: set<Id>, t: Id)
    ensures Refresh(Refresh(db, touched), {t}) == Refresh(db, touched + {t})
  {
    var mid := Refresh(db, touched);
    forall u | u in db.threads
      ensures Refresh(mid, {t}).threads[u] == Refresh(db, touched + {t}).threads[u]
    {
      assert SameView(db.messages, mid.messages, u);
      StatsFrame(db, mid, u, db.threads[u].subject);
    }
  }

  lemma MarkSeenExtends(rows: map<Id, Message>, cands: seq<Id>, i: nat)
    requires i < |cands| && cands[i] in rows && cands[i] !in cands[..i]
    ensures MarkSeen(rows, Elements(cands[..i + 1]))
      == MarkSeen(rows, Elements(cands[..i]))[cands[i] := WithSeen(rows[cands[i]])]
    ensures NewlySeen(rows, Elements(cands[..i + 1]))
         == NewlySeen(rows, Elements(cands[..i])) + (if SEEN in rows[cands[i]].flags then {} else {cands[i]})
    ensures ThreadsOf(rows, NewlySeen(rows, Elements(cands[..i + 1])))
         == ThreadsOf(rows, NewlySeen(rows, Elements(cands[..i])))
          + (if SEEN in rows[cands[i]].flags || rows[cands[i]].thread.None? then {} else {rows[cands[i]].thread.value})
  {
    assert cands[..i + 1] == cands[..i] + [cands[i]];
    assert Elements(cands[..i + 1]) == Elements(cands[..i]) + {cands[i]};
    ThreadsOfOneMore(rows, NewlySeen(rows, Elements(cands[..i])), cands[i]);
  }

  /** The report of a toggle, read off the tables before and after. */
  lemma ToggleReport(before: Db, t: Id, cands: seq<Id>, out: FlagToggleOutcome)
    requires IsScan(before, t, cands) && out.action == ToggleKind(before, t)
    requires var after := Toggle(before, t, cands);
      && after.messages.Keys == before.messages.Keys
      && Lists(out.changed, set m | m in before.messages && after.messages[m] != before.messages[m])
    ensures out.action == Noop <==> forall m :: m in before.messages ==> before.messages[m].thread != Some(t)
    ensures out.action == Added ==>
      && |out.changed| == 1 && out.changed[0] in before.messages
      && var star := out.changed[0];
         && before.messages[star].thread == Some(t)
         && "\\Flagged" !in before.messages[star].flags
         && "\\Flagged" in Toggle(before, t, cands).messages[star].flags
         && forall m :: m in before.messages && before.messages[m].thread == Some(t) ==>
              before.messages[m].date <= before.messages[star].date
    ensures out.action == Removed ==> out.changed != [] && forall i :: 0 <= i < |out.changed| ==>
      && out.changed[i] in before.messages && "\\Flagged" in before.messages[out.changed[i]].flags
      && multiset(Toggle(before, t, cands).messages[out.changed[i]].flags)["\\Flagged"]
         == multiset(before.messages[out.changed[i]].flags)["\\Flagged"] - 1
  {
    ToggleMeans(before, t, cands);
    match out.action
    case Noop =>
    case Added => StarReport(before, t, cands, out.changed);
    case Removed => UnstarReport(before, t, cands, out.changed);
  }

  lemma StarReport(before: Db, t: Id, cands: seq<Id>, changed: seq<Id>)
    requires IsScan(before, t, cands) && ToggleKind(before, t) == Added
    requires var after := Toggle(before, t, cands);
      && after.messages.Keys == before.messages.Keys
      && Lists(changed, set m | m in before.messages && after.messages[m] != before.messages[m])
    ensures cands != [] && changed == [cands[0]]
  {
    ToggleMeans(before, t, cands);
    var star := cands[0];
    var flags := before.messages[star].flags;
    assert |flags + ["\\Flagged"]| != |flags|;
    assert star in changed;
    forall i | 0 <= i < |changed| ensures changed[i] == star {
    }
    assert changed[0] == star && changed[|changed| - 1] == star;
  }

  lemma UnstarReport(before: Db, t: Id, cands: seq<Id>, changed: seq<Id>)
    requires IsScan(before, t, cands) && ToggleKind(before, t) == Removed
    requires var after := Toggle(before, t, cands);
      && after.messages.Keys == before.messages.Keys
      && Lists(changed, set m | m in before.messages && after.messages[m] != before.messages[m])
    ensures changed != [] && forall i :: 0 <= i < |changed| ==>
      && changed[i] in before.messages && "\\Flagged" in before.messages[changed[i]].flags
      && multiset(Toggle(before, t, cands).messages[changed[i]].flags)["\\Flagged"]
         == multiset(before.messages[changed[i]].flags)["\\Flagged"] - 1
  {
    ToggleMeans(before, t, cands);
    forall i | 0 <= i < |changed|
      ensures changed[i] in before.messages && "\\Flagged" in before.messages[changed[i]].flags
      ensures multiset(Toggle(before, t, cands).messages[changed[i]].flags)["\\Flagged"]
           == multiset(before.messages[changed[i]].flags)["\\Flagged"] - 1
    {
      FlagLost(before, t, cands, changed[i]);
    }
    var m :| m in before.messages && before.messages[m].thread == Some(t) && "\\Flagged" in before.messages[m].flags;
    FlagLost(before, t, cands, m);
    assert m in changed;
  }

  lemma FlagLost(before: Db, t: Id, cands: seq<Id>, m: Id)
    requires IsScan(before, t, cands) && ToggleKind(before, t) == Removed
    requires m in before.messages && before.messages[m].thread == Some(t) && "\\Flagged" in before.messages[m].flags
    ensures m in Toggle(before, t, cands).messages
    ensures multiset(Toggle(before, t, cands).messages[m].flags)["\\Flagged"]
         == multiset(before.messages[m].flags)["\\Flagged"] - 1
  {
    ToggleMeans(before, t, cands);
    var flags := before.messages[m].flags;
    var i :| 0 <= i < |flags| && flags[i] == "\\Flagged" && "\\Flagged" !in flags[..i]
          && Toggle(before, t, cands).messages[m] == before.messages[m].(flags := flags[..i] + flags[i + 1..]);
    OneFewer(flags, i);
  }

  /** The reported messages and threads, read off the tables. */
  lemma ReportedSeen(rows: map<Id, Message>, changed: seq<Id>, ids: set<Id>)
    requires Lists(changed, NewlySeen(rows, ids))
    ensures forall m :: m in changed <==> m in ids && m in rows && "\\Seen" !in rows[m].flags
    ensures forall t :: t in ThreadsOf(rows, NewlySeen(rows, ids)) <==>
      exists m :: m in changed && rows[m].thread == Some(t)
  {
    forall m ensures m in changed <==> m in ids && m in rows && "\\Seen" !in rows[m].flags {
      assert m in changed <==> m in NewlySeen(rows, ids);
    }
    forall t ensures t in ThreadsOf(rows, NewlySeen(rows, ids)) <==>
        exists m :: m in changed && rows[m].thread == Some(t)
    {
      if m :| m in changed && rows[m].thread == Some(t) {
        assert m in NewlySeen(rows, ids);
      }
    }
  }

  lemma ThreadsOfOneMore(rows: map<Id, Message>, ids: set<Id>, c: Id)
    requires c in rows
    ensures ThreadsOf(rows, ids + {c})
         == ThreadsOf(rows, ids) + (if rows[c].thread.None? then {} else {rows[c].thread.value})
  {
    forall t | t in ThreadsOf(rows, ids) ensures t in ThreadsOf(rows, ids + {c}) {
      var m :| m in ids && m in rows && rows[m].thread == Some(t);
      assert m in ids + {c};
    }
    if rows[c].thread.Some? {
      assert c in ids + {c};
    }
  }
}
