/**
 * The CONDSTORE flag-delta sweep of one folder against the store: the row-by-row
 * flag updates break the thread rows in between, and the refresh of the collected
 * threads repairs exactly those.
 */
module FlagDeltas {
  import opened Common
  import opened Tables
  import opened ThreadStats
  import opened Storage
  import Runs

  /** Flags of a UID after applying the deltas in order: the last one wins. */
  function Applied(deltas: seq<FlagDelta>, uid: int, flags: Flags): Flags
  {
    if deltas == [] then flags
    else
      var last := deltas[|deltas| - 1];
      if last.uid == uid then last.flags else Applied(deltas[..|deltas| - 1], uid, flags)
  }

  function AppliedTo(deltas: seq<FlagDelta>, folder: Id, m: Message): Message
  {
    if m.folder == folder then m.(flags := Applied(deltas, m.uid, m.flags)) else m
  }

  function AppliedAll(deltas: seq<FlagDelta>, folder: Id, messages: map<Id, Message>): map<Id, Message>
  {
    map m | m in messages :: AppliedTo(deltas, folder, messages[m])
  }

  lemma {:induction false} LastOne(deltas: seq<FlagDelta>, k: nat, flags: Flags)
    requires k < |deltas| && forall i :: k < i < |deltas| ==> deltas[i].uid != deltas[k].uid
    ensures Applied(deltas, deltas[k].uid, flags) == deltas[k].flags
  {
    if k < |deltas| - 1 {
      LastOne(deltas[..|deltas| - 1], k, flags);
    }
  }

  /** What applying the deltas means for a row: the last delta that names it sets its flags,
      a row that none names keeps them, and nothing else changes. */
  lemma LastDeltaWins(deltas: seq<FlagDelta>, folder: Id, rows: map<Id, Message>, m: Id)
    requires m in rows
    ensures var after := AppliedAll(deltas, folder, rows);
      && after.Keys == rows.Keys
      && after[m] == rows[m].(flags := after[m].flags)
      && (rows[m].folder != folder || (forall i :: 0 <= i < |deltas| ==> deltas[i].uid != rows[m].uid) ==>
            after[m].flags == rows[m].flags)
      && (forall i | 0 <= i < |deltas| && rows[m].folder == folder && deltas[i].uid == rows[m].uid
                     && (forall j :: i < j < |deltas| ==> deltas[j].uid != deltas[i].uid) ::
            after[m].flags == deltas[i].flags)
  {
    forall i | 0 <= i < |deltas| && rows[m].folder == folder && deltas[i].uid == rows[m].uid
      && (forall j :: i < j < |deltas| ==> deltas[j].uid != deltas[i].uid)
      ensures AppliedAll(deltas, folder, rows)[m].flags == deltas[i].flags
    {
      LastOne(deltas, i, rows[m].flags);
    }
    if forall i :: 0 <= i < |deltas| ==> deltas[i].uid != rows[m].uid {
      NamedByNone(deltas, rows[m].uid, rows[m].flags);
    }
  }

  lemma {:induction false} NamedByNone(deltas: seq<FlagDelta>, uid: int, flags: Flags)
    requires forall i :: 0 <= i < |deltas| ==> deltas[i].uid != uid
    ensures Applied(deltas, uid, flags) == flags
  {
    if deltas != [] {
      NamedByNone(deltas[..|deltas| - 1], uid, flags);
    }
  }

  /** UNIQUE(account_id, folder_id, uid), with one account per folder. */
  ghost predicate UniqueUids(messages: map<Id, Message>)
  {
    forall m, n | m in messages && n in messages && m != n ::
      messages[m].folder != messages[n].folder || messages[m].uid != messages[n].uid
  }

  /** The delta changes some row. */
  ghost predicate Differs(d: FlagDelta, folder: Id, messages: map<Id, Message>)
  {
    exists m ::
      && m in messages && messages[m].folder == folder && messages[m].uid == d.uid
      && messages[m].flags != d.flags
  }

  /** How many deltas change a row when they are applied in order. */
  ghost function Changes(deltas: seq<FlagDelta>, folder: Id, messages: map<Id, Message>): nat
  {
    if deltas == [] then 0
    else
      var front := deltas[..|deltas| - 1];
      Changes(front, folder, messages) + One(Differs(deltas[|deltas| - 1], folder, AppliedAll(front, folder, messages)))
  }

  lemma OneRowDiffers(rows: map<Id, Message>, deltas: seq<FlagDelta>, i: nat, folder: Id, m: Id)
    requires UniqueUids(rows) && i < |deltas|
    requires m in rows && rows[m].folder == folder && rows[m].uid == deltas[i].uid
    ensures Changes(deltas[..i + 1], folder, rows)
         == Changes(deltas[..i], folder, rows) + One(AppliedAll(deltas[..i], folder, rows)[m].flags != deltas[i].flags)
  {
    assert deltas[..i + 1][..i] == deltas[..i];
    var before := AppliedAll(deltas[..i], folder, rows);
    if Differs(deltas[i], folder, before) {
      var n :| n in before && before[n].folder == folder && before[n].uid == deltas[i].uid
            && before[n].flags != deltas[i].flags;
      assert n == m;
    }
  }

  lemma NoRowDiffers(rows: map<Id, Message>, deltas: seq<FlagDelta>, i: nat, folder: Id)
    requires i < |deltas|
    requires forall m :: m in rows ==> !(rows[m].folder == folder && rows[m].uid == deltas[i].uid)
    ensures Changes(deltas[..i + 1], folder, rows) == Changes(deltas[..i], folder, rows)
  {
    assert deltas[..i + 1][..i] == deltas[..i];
  }

  /** Rows whose flags differ between two states of the table. */
  function Moved(rows: map<Id, Message>, after: map<Id, Message>): set<Id>
  {
    set m | m in rows && m in after && after[m].flags != rows[m].flags
  }

  lemma MovedOne(rows: map<Id, Message>, before: map<Id, Message>, m: Id, flags: Flags)
    requires m in rows && m in before && before[m].flags == rows[m].flags
    ensures |Moved(rows, before[m := before[m].(flags := flags)])|
         == |Moved(rows, before)| + One(flags != rows[m].flags)
  {
    var after := before[m := before[m].(flags := flags)];
    assert m !in Moved(rows, before);
    if flags != rows[m].flags {
      assert Moved(rows, after) == Moved(rows, before) + {m};
    } else {
      assert Moved(rows, after) == Moved(rows, before);
    }
  }

  lemma MovedNext(deltas: seq<FlagDelta>, i: nat, folder: Id, rows: map<Id, Message>, m: Id)
    requires UniqueUids(rows) && i < |deltas|
    requires forall j :: 0 <= j < i ==> deltas[j].uid != deltas[i].uid
    requires m in rows && rows[m].folder == folder && rows[m].uid == deltas[i].uid
    ensures |Moved(rows, AppliedAll(deltas[..i + 1], folder, rows))|
         == |Moved(rows, AppliedAll(deltas[..i], folder, rows))| + One(deltas[i].flags != rows[m].flags)
    ensures AppliedAll(deltas[..i], folder, rows)[m].flags == rows[m].flags
  {
    AppliedNext(deltas, i, folder, rows, m);
    NamedByNone(deltas[..i], rows[m].uid, rows[m].flags);
    MovedOne(rows, AppliedAll(deltas[..i], folder, rows), m, deltas[i].flags);
  }

  lemma {:induction false} ChangesCountMoved(deltas: seq<FlagDelta>, n: nat, folder: Id, rows: map<Id, Message>)
    requires n <= |deltas| && UniqueUids(rows)
    requires forall i, j :: 0 <= i < j < |deltas| ==> deltas[i].uid != deltas[j].uid
    ensures Changes(deltas[..n], folder, rows) == |Moved(rows, AppliedAll(deltas[..n], folder, rows))|
  {
    if n == 0 {
      NoneApplied(deltas, folder, rows);
      assert Moved(rows, rows) == {};
    } else {
      ChangesCountMoved(deltas, n - 1, folder, rows);
      MovedStep(deltas, n - 1, folder, rows);
    }
  }

  lemma MovedStep(deltas: seq<FlagDelta>, i: nat, folder: Id, rows: map<Id, Message>)
    requires UniqueUids(rows) && i < |deltas|
    requires forall j :: 0 <= j < i ==> deltas[j].uid != deltas[i].uid
    ensures Changes(deltas[..i + 1], folder, rows) - Changes(deltas[..i], folder, rows)
         == |Moved(rows, AppliedAll(deltas[..i + 1], folder, rows))|
          - |Moved(rows, AppliedAll(deltas[..i], folder, rows))|
  {
    if m :| m in rows && rows[m].folder == folder && rows[m].uid == deltas[i].uid {
      OneRowDiffers(rows, deltas, i, folder, m);
      MovedNext(deltas, i, folder, rows, m);
    } else {
      NoRowDiffers(rows, deltas, i, folder);
      AppliedMiss(deltas, i, folder, rows);
    }
  }

  /** When no message is named twice, the count is the number of rows whose flags end up
      different. */
  lemma ChangesCountRows(deltas: seq<FlagDelta>, folder: Id, rows: map<Id, Message>)
    requires UniqueUids(rows) && forall i, j :: 0 <= i < j < |deltas| ==> deltas[i].uid != deltas[j].uid
    ensures Changes(deltas, folder, rows)
         == |set m | m in rows && AppliedAll(deltas, folder, rows)[m].flags != rows[m].flags|
  {
    var after := AppliedAll(deltas, folder, rows);
    ChangesCountMoved(deltas, |deltas|, folder, rows);
    assert deltas[..|deltas|] == deltas;
    assert Moved(rows, after) == set m | m in rows && after[m].flags != rows[m].flags;
  }

  function StoredModSeq(db: Db, folder: Id): nat
  {
    if folder in db.folders then db.folders[folder].highestModSeq else 0
  }

  /** The thread to refresh when message m gets these flags. */
  function Collected(m: Message, flags: Flags): set<Id>
  {
    if m.flags != flags && m.thread.Some? then {m.thread.value} else {}
  }

  function WithFlags(db: Db, m: Id, flags: Flags): Db
    requires m in db.messages
  {
    db.(messages := db.messages[m := db.messages[m].(flags := flags)])
  }

  lemma OneDelta(before: Db, after: Db, m: Id, flags: Flags, touched: set<Id>)
    requires m in before.messages && AgreeExcept(before, touched)
    requires after == WithFlags(before, m, flags)
    requires Collected(before.messages[m], flags) <= touched
    ensures AgreeExcept(after, touched)
  {
    forall t | t in after.threads && t !in touched ensures Agrees(after, t) {
      assert Agrees(before, t);
      assert SameView(before.messages, after.messages, t);
      StatsFrame(before, after, t, before.threads[t].subject);
    }
  }

  lemma NoneApplied(deltas: seq<FlagDelta>, folder: Id, rows: map<Id, Message>)
    ensures AppliedAll(deltas[..0], folder, rows) == rows
  {
    var none := AppliedAll(deltas[..0], folder, rows);
    forall m | m in rows ensures none[m] == rows[m] {
    }
    assert none == rows;
  }

  lemma AppliedNext(deltas: seq<FlagDelta>, i: nat, folder: Id, rows: map<Id, Message>, m: Id)
    requires UniqueUids(rows) && i < |deltas|
    requires m in rows && rows[m].folder == folder && rows[m].uid == deltas[i].uid
    ensures var before := AppliedAll(deltas[..i], folder, rows);
      AppliedAll(deltas[..i + 1], folder, rows) == before[m := before[m].(flags := deltas[i].flags)]
  {
    assert deltas[..i + 1][..i] == deltas[..i];
    var before, after := AppliedAll(deltas[..i], folder, rows), AppliedAll(deltas[..i + 1], folder, rows);
    var written := before[m := before[m].(flags := deltas[i].flags)];
    forall n | n in rows ensures after[n] == written[n] {
    }
    assert after == written;
  }

  lemma AppliedMiss(deltas: seq<FlagDelta>, i: nat, folder: Id, rows: map<Id, Message>)
    requires i < |deltas|
    requires forall m :: m in rows ==> !(rows[m].folder == folder && rows[m].uid == deltas[i].uid)
    ensures AppliedAll(deltas[..i + 1], folder, rows) == AppliedAll(deltas[..i], folder, rows)
  {
    assert deltas[..i + 1][..i] == deltas[..i];
    var before, after := AppliedAll(deltas[..i], folder, rows), AppliedAll(deltas[..i + 1], folder, rows);
    forall n | n in rows ensures after[n] == before[n] {
    }
    assert after == before;
  }

  /** The flags of a thread's messages sum up to the same row as before. */
  ghost predicate SameSummary(db: Db, after: Db, t: Id)
  {
    |Unread(after, t)| == |Unread(db, t)| && AnyFlagged(after, t) == AnyFlagged(db, t)
  }

  /** Without the refresh a thread row is right exactly when the deltas left its number of
      unread messages and the presence of a star as they were; so it is right whenever
      they changed none of its messages. */
  lemma UnrefreshedIff(db: Db, deltas: seq<FlagDelta>, folder: Id, t: Id)
    requires AllAgree(db) && t in db.threads
    ensures var after := db.(messages := AppliedAll(deltas, folder, db.messages));
      && (Agrees(after, t) <==> SameSummary(db, after, t))
      && ((forall m :: m in Members(db, t) ==> after.messages[m].flags == db.messages[m].flags) ==> Agrees(after, t))
  {
    var after := db.(messages := AppliedAll(deltas, folder, db.messages));
    SameRows(db, after, t);
    assert Agrees(db, t);
    if forall m :: m in Members(db, t) ==> after.messages[m].flags == db.messages[m].flags {
      assert Unread(after, t) == Unread(db, t) && Flagged(after, t) == Flagged(db, t);
    }
  }

  /** Deltas move flags only. */
  lemma SameRows(db: Db, after: Db, t: Id)
    requires after.messages.Keys == db.messages.Keys
    requires forall m :: m in db.messages ==> after.messages[m] == db.messages[m].(flags := after.messages[m].flags)
    ensures Members(after, t) == Members(db, t) && Dates(after, t) == Dates(db, t)
      && WithAttachment(after, t) == WithAttachment(db, t)
  {
    forall m ensures m in Members(after, t) <==> m in Members(db, t) {
      assert m in after.messages <==> m in db.messages;
    }
    assert Members(after, t) == Members(db, t);
    forall m | m in Members(db, t)
      ensures after.messages[m].date == db.messages[m].date
        && after.messages[m].hasAttachments == db.messages[m].hasAttachments
    {
    }
    assert Dates(after, t) == Dates(db, t);
    forall m ensures m in WithAttachment(after, t) <==> m in WithAttachment(db, t) {
    }
  }

  method ApplyDeltas(store: Store, folder: Id, deltas: seq<FlagDelta>) returns (changed: nat, threadSet: set<Id>)
    requires AllAgree(store.db) && UniqueUids(store.db.messages)
    modifies store
    ensures store.db == old(store.db).(messages := AppliedAll(deltas, folder, old(store.db).messages))
    ensures AgreeExcept(store.db, threadSet)
    ensures changed == Changes(deltas, folder, old(store.db).messages)
  {
    changed, threadSet := 0, {};
    ghost var rows := store.db.messages;
    NoneApplied(deltas, folder, rows);
    for i := 0 to |deltas|
      invariant store.db == old(store.db).(messages := AppliedAll(deltas[..i], folder, rows))
      invariant AgreeExcept(store.db, threadSet)
      invariant changed == Changes(deltas[..i], folder, rows)
    {
      ghost var before := store.db;
      var r := store.UpdateFlagsByUID(folder, deltas[i].uid, deltas[i].flags);
      if r.Ok? {
        var (m, thread, didChange) := r.value;
        if didChange {
          changed := changed + 1;
          if thread.Some? {
            threadSet := threadSet + {thread.value};
          }
        }
        OneRowDiffers(rows, deltas, i, folder, m);
        OneDelta(before, store.db, m, deltas[i].flags, threadSet);
        AppliedNext(deltas, i, folder, rows, m);
      } else {
        AppliedMiss(deltas, i, folder, rows);
        NoRowDiffers(rows, deltas, i, folder);
      }
    }
    assert deltas[..|deltas|] == deltas;
  }

  /** `deltas` is what the FETCH … CHANGEDSINCE streamed; streamOk is false when the
      stream ended in an error. */
  method SyncFlagDeltas(store: Store, folder: Id, serverModSeq: nat, deltas: seq<FlagDelta>, streamOk: bool)
    returns (r: Result<nat, nat>)
    requires AllAgree(store.db) && UniqueUids(store.db.messages)
    modifies store
    ensures r.Err? <==>
      && folder in old(store.db).folders && 0 < old(store.db).folders[folder].highestModSeq < serverModSeq
      && !streamOk
    // the deltas are applied exactly when a recorded watermark is behind the server
    ensures store.db.messages ==
      if folder in old(store.db).folders && 0 < old(store.db).folders[folder].highestModSeq < serverModSeq
      then AppliedAll(deltas, folder, old(store.db).messages) else old(store.db).messages
    // and the rows they change are counted
    ensures (match r case Ok(n) => n case Err(n) => n) ==
      if folder in old(store.db).folders && 0 < old(store.db).folders[folder].highestModSeq < serverModSeq
      then Changes(deltas, folder, old(store.db).messages) else 0
    // the watermark: a pass that succeeds leaves it at the server's value or above
    ensures store.db.folders.Keys == old(store.db).folders.Keys
    ensures r.Err? ==> store.db.folders == old(store.db).folders
    ensures forall f :: f in store.db.folders ==>
      store.db.folders[f] == old(store.db).folders[f].(highestModSeq :=
        if f == folder && r.Ok? && old(store.db).folders[f].highestModSeq < serverModSeq then serverModSeq
        else old(store.db).folders[f].highestModSeq)
    // so it never passes an unapplied change: where a recorded one has grown, every row
    // named by a delta has the flags of the last delta that names it
    ensures forall m, i |
      && folder in old(store.db).folders
      && 0 < old(store.db).folders[folder].highestModSeq < store.db.folders[folder].highestModSeq
      && m in old(store.db).messages && old(store.db).messages[m].folder == folder
      && 0 <= i < |deltas| && deltas[i].uid == old(store.db).messages[m].uid
      && (forall j :: i < j < |deltas| ==> deltas[j].uid != deltas[i].uid) ::
      m in store.db.messages && store.db.messages[m].flags == deltas[i].flags
    // thread rows: all right after a complete pass; after a failed one unrefreshed, and
    // right exactly when the flags still sum up to them
    ensures r.Ok? ==> AllAgree(store.db)
    ensures r.Err? ==> store.db.threads == old(store.db).threads
    ensures r.Err? ==> forall t :: t in store.db.threads ==>
      (Agrees(store.db, t) <==> SameSummary(old(store.db), store.db, t))
  {
    ghost var db0 := store.db;
    forall m | m in db0.messages {
      LastDeltaWins(deltas, folder, db0.messages, m);
    }
    if serverModSeq == 0 {
      return Ok(0);
    }
    var stored := StoredModSeq(store.db, folder);
    if stored == 0 {
      WatermarkKeepsStats(store.db, folder, serverModSeq, {});
      store.SetFolderHighestModSeq(folder, serverModSeq);
      return Ok(0);
    }
    if stored >= serverModSeq {
      return Ok(0);
    }
    var changed, threadSet := ApplyDeltas(store, folder, deltas);
    if !streamOk {
      forall t | t in store.db.threads ensures Agrees(store.db, t) <==> SameSummary(db0, store.db, t) {
        UnrefreshedIff(db0, deltas, folder, t);
      }
      return Err(changed);
    }
    RefreshTouched(store.db, store.db.messages, threadSet, threadSet);
    assert threadSet - threadSet == {};
    store.RefreshThreadStatsForSet(threadSet);
    WatermarkKeepsStats(store.db, folder, serverModSeq, {});
    store.SetFolderHighestModSeq(folder, serverModSeq);
    r := Ok(changed);
  }

  lemma WatermarkKeepsStats(db: Db, folder: Id, modseq: nat, open: set<Id>)
    requires AgreeExcept(db, open)
    ensures AgreeExcept(Advanced(db, folder, modseq), open)
  {
    var after := Advanced(db, folder, modseq);
    forall t | t in after.threads && t !in open ensures Agrees(after, t) {
      assert SameView(db.messages, after.messages, t);
      StatsFrame(db, after, t, db.threads[t].subject);
      assert Agrees(db, t);
    }
  }

  lemma {:induction false} AppliedAgain(deltas: seq<FlagDelta>, n: nat, uid: int, flags: Flags)
    requires n <= |deltas| && forall i, j :: 0 <= i < j < |deltas| ==> deltas[i].uid != deltas[j].uid
    ensures Applied(deltas[..n], uid, Applied(deltas, uid, flags)) == Applied(deltas, uid, flags)
    ensures n < |deltas| && deltas[n].uid == uid ==> Applied(deltas, uid, flags) == deltas[n].flags
  {
    if n > 0 {
      AppliedAgain(deltas, n - 1, uid, flags);
      assert deltas[..n][..n - 1] == deltas[..n - 1];
    }
    if n < |deltas| && deltas[n].uid == uid {
      LastOne(deltas, n, flags);
    }
  }

  /** The next pass does not repair it either: the deltas are streamed again, but no row
      changes any more, so no thread is collected for a refresh. */
  lemma {:induction false} RetryChangesNothing(deltas: seq<FlagDelta>, n: nat, folder: Id, rows: map<Id, Message>)
    requires n <= |deltas| && forall i, j :: 0 <= i < j < |deltas| ==> deltas[i].uid != deltas[j].uid
    ensures var after := AppliedAll(deltas, folder, rows);
      Changes(deltas[..n], folder, after) == 0 && AppliedAll(deltas[..n], folder, after) == after
  {
    var after := AppliedAll(deltas, folder, rows);
    var again := AppliedAll(deltas[..n], folder, after);
    forall m | m in rows ensures again[m] == after[m] {
      AppliedAgain(deltas, n, rows[m].uid, rows[m].flags);
    }
    assert again == after;
    if n > 0 {
      RetryChangesNothing(deltas, n - 1, folder, rows);
      assert deltas[..n][..n - 1] == deltas[..n - 1];
      forall m | m in after && after[m].folder == folder && after[m].uid == deltas[n - 1].uid
        ensures after[m].flags == deltas[n - 1].flags
      {
        AppliedAgain(deltas, n - 1, rows[m].uid, rows[m].flags);
      }
    }
  }

  /** A stream that fails midway leaves the thread of a changed message wrong: one
      message marked read on the server, its thread still counting it unread. */
  lemma FailedStreamLeavesDrift() returns (db: Db, deltas: seq<FlagDelta>)
    ensures AllAgree(db) && UniqueUids(db.messages)
    ensures !AllAgree(db.(messages := AppliedAll(deltas, 1, db.messages)))
  {
    var m := Message(1, 1, 7, Some(1), 100, [], false, None, None);
    db := Db({1}, map[1 := Folder(1, 5)], map[1 := ThreadRow("s", 100, 1, 1, false, false)],
             map[1 := m], map[], map[]);
    deltas := [FlagDelta(7, [SEEN])];
    assert Members(db, 1) == {1} && Unread(db, 1) == {1} && Flagged(db, 1) == {} && WithAttachment(db, 1) == {};
    assert Dates(db, 1) == {100};
    var after := db.(messages := AppliedAll(deltas, 1, db.messages));
    assert after.messages[1] == AppliedTo(deltas, 1, m);
    assert Members(after, 1) == {1} && 1 !in Unread(after, 1);
    assert Unread(after, 1) == {};
    assert !Agrees(after, 1);
  }

  // ------------------------------------------- sweeps among other transactions

  /** A running delta pass: the threads it has collected, and whether its stream ended. */
  datatype Sweep = Sweep(folder: Id, touched: set<Id>, streamed: bool)

  /** The store with the running passes, and the threads that failed passes collected and
      no pass has refreshed since. */
  datatype Sweeps = Sweeps(db: Db, running: map<nat, Sweep>, abandoned: set<Id>)

  datatype SweepStep =
    | Begin(pass: nat, folder: Id)
    | Delta(pass: nat, message: Id, flags: Flags)
    | StreamEnds(pass: nat, ok: bool)
    | RefreshThread(pass: nat, thread: Id)
    | RefreshFails(pass: nat, thread: Id)
    | Finish(pass: nat, modseq: nat)
    | Other(mutation: Mutation)

  /** Each delta and each refresh is a transaction of its own; other passes and other
      transactions run in between. A delta of an unknown UID changes nothing. */
  ghost predicate SweepNext(s: Sweeps, a: SweepStep, t: Sweeps)
  {
    match a
    case Begin(p, f) => p !in s.running && t == s.(running := s.running[p := Sweep(f, {}, false)])
    case Delta(p, m, flags) =>
      && p in s.running && !s.running[p].streamed
      && m in s.db.messages && s.db.messages[m].folder == s.running[p].folder
      && var w := s.running[p];
         t == s.(db := WithFlags(s.db, m, flags),
                 running := s.running[p := w.(touched := w.touched + Collected(s.db.messages[m], flags))])
    case StreamEnds(p, ok) =>
      && p in s.running && !s.running[p].streamed
      && t == if ok then s.(running := s.running[p := s.running[p].(streamed := true)])
              else s.(running := s.running - {p}, abandoned := s.abandoned + s.running[p].touched)
    case RefreshThread(p, id) =>
      && p in s.running && s.running[p].streamed && id in s.running[p].touched
      && var w := s.running[p];
         t == s.(db := Refresh(s.db, {id}), running := s.running[p := w.(touched := w.touched - {id})],
                 abandoned := s.abandoned - {id})
    case RefreshFails(p, id) =>
      && p in s.running && s.running[p].streamed && id in s.running[p].touched
      && var w := s.running[p];
         t == s.(running := s.running[p := w.(touched := w.touched - {id})], abandoned := s.abandoned + {id})
    case Finish(p, modseq) =>
      && p in s.running && s.running[p].streamed && s.running[p].touched == {}
      && t == s.(db := Advanced(s.db, s.running[p].folder, modseq), running := s.running - {p})
    case Other(m) => Mutates(s.db, m, t.db) && t == s.(db := t.db)
  }

  function TouchedBy(s: Sweeps, p: nat): set<Id>
  {
    if p in s.running then s.running[p].touched else {}
  }

  /** The threads whose rows may be wrong: some pass will refresh them or has given up. */
  function Open(s: Sweeps): set<Id>
  {
    s.abandoned + set p, t | p in s.running && t in TouchedBy(s, p) :: t
  }

  ghost predicate OnlyOpenWrong(s: Sweeps)
  {
    AgreeExcept(s.db, Open(s))
  }

  /** Outside `shut` every open thread stays open. */
  lemma StaysOpen(s: Sweeps, t: Sweeps, shut: set<Id>)
    requires s.abandoned - shut <= t.abandoned
    requires forall p :: p in s.running ==> TouchedBy(s, p) - shut <= t.abandoned + TouchedBy(t, p)
    ensures Open(s) - shut <= Open(t)
  {
    forall x | x in Open(s) - shut ensures x in Open(t) {
      if x !in t.abandoned {
        var p :| p in s.running && x in TouchedBy(s, p);
        assert x in TouchedBy(s, p) - shut;
      }
    }
  }

  lemma OpenStep(s: Sweeps, a: SweepStep, t: Sweeps)
    requires OnlyOpenWrong(s) && SweepNext(s, a, t)
    ensures OnlyOpenWrong(t)
  {
    var shut := if a.RefreshThread? then {a.thread} else {};
    StaysOpen(s, t, shut);
    match a
    case Delta(p, m, flags) =>
      forall x | x in Collected(s.db.messages[m], flags) ensures x in Open(t) {
        assert p in t.running && x in TouchedBy(t, p);
      }
      OneDelta(s.db, t.db, m, flags, Open(t));
    case RefreshThread(_, id) => RefreshTouched(s.db, s.db.messages, {id}, Open(s));
    case Finish(p, modseq) => WatermarkKeepsStats(s.db, s.running[p].folder, modseq, Open(s));
    case Other(m) => MutationKeepsStats(s.db, m, t.db, Open(s));
    case _ =>
  }

  /** Whatever runs between the deltas, only threads that some pass has yet to refresh, or
      gave up on, can have a wrong row; when all passes have finished and none failed,
      every row is right. */
  lemma SweepsRepair(s: Sweeps, run: seq<SweepStep>, t: Sweeps)
    requires AllAgree(s.db) && s.running == map[] && s.abandoned == {}
    requires Runs.Run(SweepNext, s, run, t)
    ensures AgreeExcept(t.db, Open(t))
    ensures t.running == map[] && t.abandoned == {} ==> AllAgree(t.db)
  {
    forall x, a, y | OnlyOpenWrong(x) && SweepNext(x, a, y) ensures OnlyOpenWrong(y) {
      OpenStep(x, a, y);
    }
    Runs.InvariantRun(SweepNext, OnlyOpenWrong, s, run, t);
  }
}
