/**
 * The denormalised thread rows: last_date, msg_count, unread_count, has_flagged
 * and has_attach, against the fold over the thread's messages.  Flag mutators and
 * bundle inserts refresh only the threads they touch.
 */
module ThreadStats {
  import opened Common
  import opened Tables
  import Runs

  // -------------------------------------------------------------------- fold

  ghost function MaxOf(dates: set<int>): (r: int)
    requires dates != {}
    ensures r in dates && forall d :: d in dates ==> d <= r
    decreases |dates|
  {
    var d := AnyOf(dates);
    if dates == {d} then d
    else
      var r := MaxOf(dates - {d});
      assert forall x :: x in dates ==> x == d || x in dates - {d};
      if r < d then d else r
  }

  function Dates(db: Db, t: Id): set<int>
  {
    set m | m in Members(db, t) :: db.messages[m].date
  }

  function Unread(db: Db, t: Id): set<Id>
  {
    set m | m in Members(db, t) && SEEN !in db.messages[m].flags
  }

  function Flagged(db: Db, t: Id): set<Id>
  {
    set m | m in Members(db, t) && FLAGGED in db.messages[m].flags
  }

  predicate AnyFlagged(db: Db, t: Id)
  {
    Flagged(db, t) != {}
  }

  function WithAttachment(db: Db, t: Id): set<Id>
  {
    set m | m in Members(db, t) && db.messages[m].hasAttachments
  }

  /** What updateThreadStats writes: the aggregates over the thread's messages. */
  ghost function StatsOf(db: Db, t: Id, subject: string): ThreadRow
  {
    ThreadRow(subject,
              if Dates(db, t) == {} then 0 else MaxOf(Dates(db, t)),
              |Members(db, t)|,
              |Unread(db, t)|,
              AnyFlagged(db, t),
              WithAttachment(db, t) != {})
  }

  ghost predicate Agrees(db: Db, t: Id)
  {
    t in db.threads ==> db.threads[t] == StatsOf(db, t, db.threads[t].subject)
  }

  /** Threads outside `open` agree with their messages. */
  ghost predicate AgreeExcept(db: Db, open: set<Id>)
  {
    forall t :: t in db.threads && t !in open ==> Agrees(db, t)
  }

  ghost predicate AllAgree(db: Db)
  {
    AgreeExcept(db, {})
  }

  /** What it means, column by column, that a thread row agrees with its messages. */
  lemma AgreesIff(db: Db, t: Id)
    requires t in db.threads
    ensures Agrees(db, t) <==>
      && db.threads[t].msgCount == |set m | m in db.messages && db.messages[m].thread == Some(t)|
      && db.threads[t].unreadCount
         == |set m | m in db.messages && db.messages[m].thread == Some(t) && "\\Seen" !in db.messages[m].flags|
      && (db.threads[t].hasFlagged <==>
            exists m :: m in db.messages && db.messages[m].thread == Some(t) && "\\Flagged" in db.messages[m].flags)
      && (db.threads[t].hasAttach <==>
            exists m :: m in db.messages && db.messages[m].thread == Some(t) && db.messages[m].hasAttachments)
      && (forall m :: m in db.messages && db.messages[m].thread == Some(t) ==>
            db.messages[m].date <= db.threads[t].lastDate)
      && ((exists m :: m in db.messages && db.messages[m].thread == Some(t)
                       && db.messages[m].date == db.threads[t].lastDate)
          || (db.threads[t].lastDate == 0 && forall m :: m in db.messages ==> db.messages[m].thread != Some(t)))
  {
    var row := db.threads[t];
    assert Members(db, t) == set m | m in db.messages && db.messages[m].thread == Some(t);
    assert Unread(db, t)
        == set m | m in db.messages && db.messages[m].thread == Some(t) && "\\Seen" !in db.messages[m].flags;
    FlagColumns(db, t);
    DateColumn(db, t, row.lastDate);
  }

  lemma FlagColumns(db: Db, t: Id)
    ensures AnyFlagged(db, t) <==>
      exists m :: m in db.messages && db.messages[m].thread == Some(t) && "\\Flagged" in db.messages[m].flags
    ensures WithAttachment(db, t) != {} <==>
      exists m :: m in db.messages && db.messages[m].thread == Some(t) && db.messages[m].hasAttachments
  {
    if m :| m in db.messages && db.messages[m].thread == Some(t) && "\\Flagged" in db.messages[m].flags {
      assert m in Flagged(db, t);
    }
    if AnyFlagged(db, t) {
      var m := AnyOf(Flagged(db, t));
      assert m in db.messages && db.messages[m].thread == Some(t) && "\\Flagged" in db.messages[m].flags;
    }
    if m :| m in db.messages && db.messages[m].thread == Some(t) && db.messages[m].hasAttachments {
      assert m in WithAttachment(db, t);
    }
    if WithAttachment(db, t) != {} {
      var m := AnyOf(WithAttachment(db, t));
      assert m in db.messages && db.messages[m].thread == Some(t) && db.messages[m].hasAttachments;
    }
  }

  lemma DateColumn(db: Db, t: Id, d: int)
    ensures d == (if Dates(db, t) == {} then 0 else MaxOf(Dates(db, t))) <==>
      && (forall m :: m in db.messages && db.messages[m].thread == Some(t) ==> db.messages[m].date <= d)
      && ((exists m :: m in db.messages && db.messages[m].thread == Some(t) && db.messages[m].date == d)
          || (d == 0 && forall m :: m in db.messages ==> db.messages[m].thread != Some(t)))
  {
    forall m | m in db.messages && db.messages[m].thread == Some(t) ensures db.messages[m].date in Dates(db, t) {
      assert m in Members(db, t);
    }
    forall x | x in Dates(db, t)
      ensures exists m :: m in db.messages && db.messages[m].thread == Some(t) && db.messages[m].date == x
    {
      var m :| m in Members(db, t) && db.messages[m].date == x;
    }
    if Dates(db, t) != {} {
      var top := MaxOf(Dates(db, t));
      assert top in Dates(db, t);
    }
  }

  ghost function Refresh(db: Db, touched: set<Id>): Db
  {
    db.(threads := map t | t in db.threads ::
          if t in touched then StatsOf(db, t, db.threads[t].subject) else db.threads[t])
  }

  /** Two tables that show thread t the same rows. */
  ghost predicate SameView(messages: map<Id, Message>, others: map<Id, Message>, t: Id)
  {
    forall m :: (m in messages && messages[m].thread == Some(t)) || (m in others && others[m].thread == Some(t)) ==>
      && m in messages && m in others && others[m].thread == messages[m].thread
      && others[m].date == messages[m].date && others[m].flags == messages[m].flags
      && others[m].hasAttachments == messages[m].hasAttachments
  }

  /** The frame: the aggregates of t depend on nothing else. */
  lemma StatsFrame(db: Db, other: Db, t: Id, subject: string)
    requires SameView(db.messages, other.messages, t)
    ensures StatsOf(other, t, subject) == StatsOf(db, t, subject)
  {
    forall m ensures m in Members(other, t) <==> m in Members(db, t) {
      assert m in db.messages && db.messages[m].thread == Some(t) ==> m in other.messages;
      assert m in other.messages && other.messages[m].thread == Some(t) ==> m in db.messages;
    }
    assert Members(other, t) == Members(db, t);
    forall m | m in Members(db, t)
      ensures other.messages[m].date == db.messages[m].date && other.messages[m].flags == db.messages[m].flags
      ensures other.messages[m].hasAttachments == db.messages[m].hasAttachments
    {
    }
    assert Dates(other, t) == Dates(db, t);
    assert Unread(other, t) == Unread(db, t);
    assert Flagged(other, t) == Flagged(db, t);
    assert WithAttachment(other, t) == WithAttachment(db, t);
  }

  /** Refreshing the touched threads repairs them, and leaves the others as right as they
      were when these see the same rows. */
  lemma RefreshTouched(db: Db, messages: map<Id, Message>, touched: set<Id>, open: set<Id>)
    requires AgreeExcept(db, open)
    requires forall t :: t in db.threads && t !in touched ==> SameView(db.messages, messages, t)
    ensures AgreeExcept(Refresh(db.(messages := messages), touched), open - touched)
  {
    var changed := db.(messages := messages);
    var after := Refresh(changed, touched);
    forall t | t in after.threads && t !in open - touched ensures Agrees(after, t) {
      assert SameView(changed.messages, after.messages, t);
      StatsFrame(changed, after, t, db.threads[t].subject);
      if t !in touched {
        StatsFrame(db, changed, t, db.threads[t].subject);
        assert Agrees(db, t);
      }
    }
  }

  /** A refresh makes the touched rows right, keeps subjects, and leaves everything else. */
  lemma RefreshMeans(db: Db, touched: set<Id>)
    ensures var after := Refresh(db, touched);
      && after == db.(threads := after.threads) && after.threads.Keys == db.threads.Keys
      && forall t :: t in db.threads ==>
           && after.threads[t].subject == db.threads[t].subject
           && (if t in touched then Agrees(after, t) else after.threads[t] == db.threads[t])
  {
    var after := Refresh(db, touched);
    forall t | t in touched && t in db.threads ensures Agrees(after, t) {
      assert SameView(db.messages, after.messages, t);
      StatsFrame(db, after, t, db.threads[t].subject);
    }
  }

  // ------------------------------------------------------------ marking read

  function WithSeen(m: Message): Message
  {
    if SEEN in m.flags then m else m.(flags := m.flags + [SEEN])
  }

  function MarkSeen(messages: map<Id, Message>, ids: set<Id>): map<Id, Message>
  {
    map m | m in messages :: if m in ids then WithSeen(messages[m]) else messages[m]
  }

  function NewlySeen(messages: map<Id, Message>, ids: set<Id>): set<Id>
  {
    set m | m in ids && m in messages && SEEN !in messages[m].flags
  }

  function ThreadsOf(messages: map<Id, Message>, ids: set<Id>): set<Id>
  {
    set m | m in ids && m in messages && messages[m].thread.Some? :: messages[m].thread.value
  }

  ghost function MarkMessagesRead(db: Db, ids: set<Id>): Db
  {
    Refresh(db.(messages := MarkSeen(db.messages, ids)), ThreadsOf(db.messages, NewlySeen(db.messages, ids)))
  }

  function UnreadInFolder(db: Db, folder: Id): set<Id>
  {
    set m | m in db.messages && db.messages[m].folder == folder && SEEN !in db.messages[m].flags
  }

  /** Marking read appends \Seen to the listed messages that lack it and changes no other
      flag and no other message. */
  lemma MarkReadWrites(db: Db, ids: set<Id>)
    ensures var after := MarkMessagesRead(db, ids);
      && after == db.(messages := after.messages, threads := after.threads)
      && after.messages.Keys == db.messages.Keys
      && forall m :: m in db.messages ==>
           after.messages[m] == if m in ids && "\\Seen" !in db.messages[m].flags
                                then db.messages[m].(flags := db.messages[m].flags + ["\\Seen"])
                                else db.messages[m]
  {
  }

  /** Marking read keeps every thread row right, although only the threads of the
      messages that flipped are refreshed. */
  lemma MarkReadKeepsStats(db: Db, ids: set<Id>, open: set<Id>)
    requires AgreeExcept(db, open)
    ensures AgreeExcept(MarkMessagesRead(db, ids), open)
  {
    var messages := MarkSeen(db.messages, ids);
    var touched := ThreadsOf(db.messages, NewlySeen(db.messages, ids));
    forall t | t in db.threads && t !in touched ensures SameView(db.messages, messages, t) {
      forall m | m in db.messages && db.messages[m].thread == Some(t)
        ensures messages[m] == db.messages[m]
      {
        assert m !in NewlySeen(db.messages, ids);
      }
    }
    RefreshTouched(db, messages, touched, open);
  }

  /** A thread's unread count drops by exactly the messages of it that flipped. */
  lemma MarkReadCount(db: Db, ids: set<Id>, t: Id)
    requires AllAgree(db) && t in db.threads
    ensures MarkMessagesRead(db, ids).threads[t].unreadCount
         == db.threads[t].unreadCount - |NewlySeen(db.messages, ids) * Members(db, t)|
  {
    MarkReadKeepsStats(db, ids, {});
    var after := MarkMessagesRead(db, ids);
    assert Agrees(db, t) && Agrees(after, t);
    var flipped := NewlySeen(db.messages, ids) * Members(db, t);
    SeenMembers(db, ids, after, t);
    assert flipped <= Unread(db, t);
  }

  lemma SeenMembers(db: Db, ids: set<Id>, after: Db, t: Id)
    requires after.messages == MarkSeen(db.messages, ids)
    ensures Members(after, t) == Members(db, t)
    ensures Unread(after, t) == Unread(db, t) - NewlySeen(db.messages, ids) * Members(db, t)
  {
    forall m ensures m in Members(after, t) <==> m in Members(db, t) {
      assert m in after.messages <==> m in db.messages;
    }
    forall m ensures m in Unread(after, t) <==> m in Unread(db, t) - NewlySeen(db.messages, ids) * Members(db, t) {
      assert m in Members(after, t) <==> m in Members(db, t);
    }
  }

  // ---------------------------------------------------------------- inserting

  datatype Bundle = Bundle(message: Message, attachments: seq<Attachment>,
      existingThread: Option<Id>, newSubject: string)

  /** Row ids the database would assign to a bundle. */
  datatype NewIds = NewIds(thread: Id, message: Id, attachments: seq<Id>)

  ghost predicate FreshIds(db: Db, b: Bundle, ids: NewIds)
  {
    && ids.thread !in db.threads && ids.message !in db.messages
    && |ids.attachments| == |b.attachments|
    && (forall i :: 0 <= i < |ids.attachments| ==> ids.attachments[i] !in db.attachments)
    && (forall i, j :: 0 <= i < j < |ids.attachments| ==> ids.attachments[i] != ids.attachments[j])
  }

  function BundleThread(b: Bundle, ids: NewIds): Id
  {
    if b.existingThread.Some? then b.existingThread.value else ids.thread
  }

  /** Foreign keys and UNIQUE(account, folder, uid). */
  ghost predicate Insertable(db: Db, b: Bundle)
  {
    && (b.existingThread.Some? ==> b.existingThread.value in db.threads)
    && b.message.account in db.accounts && b.message.folder in db.folders
    && forall m :: m in db.messages ==>
         !(db.messages[m].account == b.message.account && db.messages[m].folder == b.message.folder
           && db.messages[m].uid == b.message.uid)
  }

  function InsertedMessage(b: Bundle, ids: NewIds): Message
  {
    b.message.(thread := Some(BundleThread(b, ids)), raw := None, rawAt := None)
  }

  function InsertedAttachments(rows: map<Id, Attachment>, b: Bundle, ids: NewIds, n: nat): map<Id, Attachment>
    requires n <= |b.attachments| && |ids.attachments| == |b.attachments|
  {
    if n == 0 then rows
    else
      var before := InsertedAttachments(rows, b, ids, n - 1);
      before[ids.attachments[n - 1] := b.attachments[n - 1].(message := ids.message)]
  }

  /** The thread rows with a bundle's new thread, if it starts one. */
  function ThreadsWith(db: Db, b: Bundle, t: Id): map<Id, ThreadRow>
  {
    if b.existingThread.Some? then db.threads
    else db.threads[t := ThreadRow(b.newSubject, 0, 0, 0, false, false)]
  }

  ghost function InsertBundle(db: Db, b: Bundle, ids: NewIds): Db
    requires |ids.attachments| == |b.attachments|
  {
    var t := BundleThread(b, ids);
    Refresh(db.(threads := ThreadsWith(db, b, t),
                messages := db.messages[ids.message := InsertedMessage(b, ids)],
                attachments := InsertedAttachments(db.attachments, b, ids, |b.attachments|)), {t})
  }

  /** What a bundle writes: its message as it came, on its thread and with an empty slot;
      its attachments as they came, with this message.  No other row changes. */
  lemma InsertWrites(db: Db, b: Bundle, ids: NewIds)
    requires FreshIds(db, b, ids)
    ensures var after := InsertBundle(db, b, ids);
      var t := if b.existingThread.Some? then b.existingThread.value else ids.thread;
      && after == db.(messages := after.messages, attachments := after.attachments, threads := after.threads)
      && after.messages == db.messages[ids.message := b.message.(thread := Some(t), raw := None, rawAt := None)]
      && (forall a :: a in after.attachments <==> a in db.attachments || a in ids.attachments)
      && (forall a :: a in db.attachments ==> after.attachments[a] == db.attachments[a])
      && (forall i :: 0 <= i < |b.attachments| ==>
            after.attachments[ids.attachments[i]] == b.attachments[i].(message := ids.message))
  {
    AttachmentIds(db.attachments, b, ids, |b.attachments|);
    AttachmentsWritten(db.attachments, b, ids, |b.attachments|);
    assert ids.attachments[..|ids.attachments|] == ids.attachments;
  }

  /** The thread of a bundle: one that exists keeps its subject, a new one takes the
      bundle's; the other threads stay as they are. */
  lemma InsertThread(db: Db, b: Bundle, ids: NewIds)
    requires FreshIds(db, b, ids) && (b.existingThread.Some? ==> b.existingThread.value in db.threads)
    ensures var after := InsertBundle(db, b, ids);
      var t := if b.existingThread.Some? then b.existingThread.value else ids.thread;
      && after.threads.Keys == db.threads.Keys + {t}
      && (forall u :: u in db.threads && u != t ==> after.threads[u] == db.threads[u])
      && after.threads[t].subject == (if b.existingThread.Some? then db.threads[t].subject else b.newSubject)
  {
  }

  lemma {:induction false} AttachmentIds(rows: map<Id, Attachment>, b: Bundle, ids: NewIds, n: nat)
    requires n <= |b.attachments| == |ids.attachments|
    ensures forall a :: a in InsertedAttachments(rows, b, ids, n) <==> a in rows || a in ids.attachments[..n]
  {
    if n > 0 {
      AttachmentIds(rows, b, ids, n - 1);
      assert ids.attachments[..n] == ids.attachments[..n - 1] + [ids.attachments[n - 1]];
    }
  }

  lemma {:induction false} AttachmentsWritten(rows: map<Id, Attachment>, b: Bundle, ids: NewIds, n: nat)
    requires n <= |b.attachments| == |ids.attachments|
    requires forall i :: 0 <= i < |ids.attachments| ==> ids.attachments[i] !in rows
    requires forall i, j :: 0 <= i < j < |ids.attachments| ==> ids.attachments[i] != ids.attachments[j]
    ensures var after := InsertedAttachments(rows, b, ids, n);
      && (forall a :: a in rows ==> a in after && after[a] == rows[a])
      && (forall i :: 0 <= i < n ==>
            && ids.attachments[i] in after
            && after[ids.attachments[i]] == b.attachments[i].(message := ids.message))
  {
    if n > 0 {
      AttachmentsWritten(rows, b, ids, n - 1);
    }
  }

  /** An inserted bundle keeps every thread row right and leaves no empty thread. */
  lemma InsertKeepsStats(db: Db, b: Bundle, ids: NewIds, open: set<Id>)
    requires AgreeExcept(db, open) && FreshIds(db, b, ids)
    requires b.existingThread.Some? ==> b.existingThread.value in db.threads
    ensures AgreeExcept(InsertBundle(db, b, ids), open)
    ensures ids.message in Members(InsertBundle(db, b, ids), BundleThread(b, ids))
    ensures BundleThread(b, ids) in InsertBundle(db, b, ids).threads
  {
    var t0 := BundleThread(b, ids);
    var after := InsertBundle(db, b, ids);
    forall t | t in after.threads && t !in open ensures Agrees(after, t) {
      var changed := db.(messages := after.messages, attachments := after.attachments,
                         threads := ThreadsWith(db, b, t0));
      assert SameView(changed.messages, after.messages, t);
      StatsFrame(changed, after, t, after.threads[t].subject);
      if t != t0 {
        assert SameView(db.messages, after.messages, t);
        StatsFrame(db, after, t, after.threads[t].subject);
        assert Agrees(db, t);
      }
    }
  }

  // ----------------------------------------------------------------- toggling

  datatype ToggleAction = Noop | Added | Removed

  /** The rows SELECT … WHERE thread_id = t ORDER BY date DESC returns. */
  ghost predicate IsScan(db: Db, t: Id, cands: seq<Id>)
  {
    && (forall i :: 0 <= i < |cands| ==> cands[i] in Members(db, t))
    && (forall m :: m in Members(db, t) ==> m in cands)
    && (forall i, j :: 0 <= i < j < |cands| ==>
          cands[i] != cands[j] && cands[i] in db.messages && cands[j] in db.messages
          && db.messages[cands[i]].date >= db.messages[cands[j]].date)
  }

  /** slices.Index followed by slices.Delete: the first occurrence only. */
  function RemoveFirst(flags: Flags, flag: string): Flags
  {
    if flags == [] then []
    else if flags[0] == flag then flags[1..]
    else [flags[0]] + RemoveFirst(flags[1..], flag)
  }

  function Occurrences(flags: Flags, flag: string): nat
  {
    if flags == [] then 0 else (if flags[0] == flag then 1 else 0) + Occurrences(flags[1..], flag)
  }

  function Without(flags: Flags, flag: string): Flags
  {
    if flags == [] then []
    else (if flags[0] == flag then [] else [flags[0]]) + Without(flags[1..], flag)
  }

  function UnflagAll(messages: map<Id, Message>, ids: set<Id>): map<Id, Message>
  {
    map m | m in messages ::
      if m in ids then messages[m].(flags := RemoveFirst(messages[m].flags, FLAGGED)) else messages[m]
  }

  function ToggledMessages(db: Db, t: Id, cands: seq<Id>): map<Id, Message>
    requires cands != [] ==> cands[0] in db.messages
  {
    if cands == [] then db.messages
    else if AnyFlagged(db, t) then UnflagAll(db.messages, Members(db, t))
    else db.messages[cands[0] := db.messages[cands[0]].(flags := db.messages[cands[0]].flags + [FLAGGED])]
  }

  function ToggleKind(db: Db, t: Id): ToggleAction
  {
    if Members(db, t) == {} then Noop else if AnyFlagged(db, t) then Removed else Added
  }

  ghost function Toggle(db: Db, t: Id, cands: seq<Id>): Db
    requires IsScan(db, t, cands)
  {
    if cands == [] then db else
    assert cands[0] in Members(db, t); Refresh(db.(messages := ToggledMessages(db, t, cands)), {t})
  }

  lemma {:induction false} RemoveFirstLaws(flags: Flags, flag: string)
    ensures Occurrences(flags, flag) > 0 <==> flag in flags
    ensures Occurrences(RemoveFirst(flags, flag), flag) == if flag in flags then Occurrences(flags, flag) - 1 else 0
    ensures Without(RemoveFirst(flags, flag), flag) == Without(flags, flag)
    ensures flag !in flags ==> RemoveFirst(flags, flag) == flags && RemoveFirst(flags + [flag], flag) == flags
  {
    if flags != [] {
      RemoveFirstLaws(flags[1..], flag);
      assert (flags + [flag])[1..] == flags[1..] + [flag];
      assert flags == [flags[0]] + flags[1..];
    } else {
      assert (flags + [flag])[1..] == [];
    }
  }

  /** The one that goes is the first, and the others keep their places. */
  lemma {:induction false} RemoveFirstAt(flags: Flags, flag: string) returns (i: nat)
    requires flag in flags
    ensures i < |flags| && flags[i] == flag && flag !in flags[..i]
    ensures RemoveFirst(flags, flag) == flags[..i] + flags[i + 1..]
  {
    if flags[0] == flag {
      i := 0;
    } else {
      var k := RemoveFirstAt(flags[1..], flag);
      i := k + 1;
      OneLater(flags, k);
      assert flags[i] == flags[1..][k];
    }
  }

  lemma OneLater(flags: Flags, k: nat)
    requires k + 1 < |flags|
    ensures flags[..k + 1] == [flags[0]] + flags[1..][..k]
    ensures flags[..k + 1] + flags[k + 2..] == [flags[0]] + (flags[1..][..k] + flags[1..][k + 1..])
  {
    assert flags[1..][k + 1..] == flags[k + 2..];
  }

  lemma OneFewer(flags: Flags, i: nat)
    requires i < |flags|
    ensures multiset(flags[..i] + flags[i + 1..])[flags[i]] == multiset(flags)[flags[i]] - 1
  {
    assert flags == flags[..i] + [flags[i]] + flags[i + 1..];
  }

  lemma {:induction false} WithoutAppend(flags: Flags, flag: string)
    ensures Without(flags + [flag], flag) == Without(flags, flag)
  {
    if flags == [] {
      assert (flags + [flag])[1..] == [];
    } else {
      WithoutAppend(flags[1..], flag);
      assert (flags + [flag])[1..] == flags[1..] + [flag];
    }
  }

  lemma ToggleKeepsStats(db: Db, t: Id, cands: seq<Id>, open: set<Id>)
    requires AgreeExcept(db, open) && IsScan(db, t, cands)
    ensures AgreeExcept(Toggle(db, t, cands), open)
  {
    if cands != [] {
      assert cands[0] in Members(db, t);
      var messages := ToggledMessages(db, t, cands);
      forall u | u in db.threads && u !in {t} ensures SameView(db.messages, messages, u) {
      }
      RefreshTouched(db, messages, {t}, open);
    }
  }

  /** What a toggle does, read off the tables: nothing on a thread without messages; if some
      message of the thread is flagged, each of those loses its first \Flagged; otherwise
      a message of the thread that none of it postdates gains one.  No other row changes. */
  lemma ToggleMeans(db: Db, t: Id, cands: seq<Id>)
    requires IsScan(db, t, cands)
    ensures ToggleKind(db, t) == Noop <==> forall m :: m in db.messages ==> db.messages[m].thread != Some(t)
    ensures ToggleKind(db, t) == Removed <==>
      exists m :: m in db.messages && db.messages[m].thread == Some(t) && "\\Flagged" in db.messages[m].flags
    ensures ToggleKind(db, t) == Noop ==> Toggle(db, t, cands) == db
    ensures ToggleKind(db, t) == Added ==>
      && cands != [] && cands[0] in db.messages && db.messages[cands[0]].thread == Some(t)
      && (forall m :: m in db.messages && db.messages[m].thread == Some(t) ==>
            db.messages[m].date <= db.messages[cands[0]].date)
      && Toggle(db, t, cands).messages == db.messages[cands[0] :=
           db.messages[cands[0]].(flags := db.messages[cands[0]].flags + ["\\Flagged"])]
    ensures ToggleKind(db, t) == Removed ==>
      && Toggle(db, t, cands).messages.Keys == db.messages.Keys
      && (forall m :: m in db.messages && !(db.messages[m].thread == Some(t) && "\\Flagged" in db.messages[m].flags) ==>
            Toggle(db, t, cands).messages[m] == db.messages[m])
      && (forall m :: m in db.messages && db.messages[m].thread == Some(t) && "\\Flagged" in db.messages[m].flags ==>
            var flags := db.messages[m].flags;
            exists i :: 0 <= i < |flags| && flags[i] == "\\Flagged" && "\\Flagged" !in flags[..i]
              && Toggle(db, t, cands).messages[m] == db.messages[m].(flags := flags[..i] + flags[i + 1..]))
  {
    FlagColumns(db, t);
    NoMembersIff(db, t, cands);
    if cands != [] {
      assert cands[0] in Members(db, t);
      if AnyFlagged(db, t) {
        UnflagMeans(db.messages, Members(db, t));
      } else {
        TopIsLatest(db, t, cands);
      }
    }
  }

  lemma NoMembersIff(db: Db, t: Id, cands: seq<Id>)
    requires IsScan(db, t, cands)
    ensures Members(db, t) == {} <==> cands == []
    ensures cands == [] <==> forall m :: m in db.messages ==> db.messages[m].thread != Some(t)
  {
    if cands != [] {
      var m := cands[0];
      assert m in Members(db, t);
      assert exists x :: x in db.messages && db.messages[x].thread == Some(t);
    } else {
      forall m ensures m !in Members(db, t) {
        assert m !in cands;
      }
      forall m | m in db.messages ensures db.messages[m].thread != Some(t) {
        assert m !in Members(db, t);
      }
    }
  }

  lemma TopIsLatest(db: Db, t: Id, cands: seq<Id>)
    requires IsScan(db, t, cands) && cands != []
    ensures cands[0] in Members(db, t)
    ensures forall m :: m in Members(db, t) ==> db.messages[m].date <= db.messages[cands[0]].date
  {
    forall m | m in Members(db, t) ensures db.messages[m].date <= db.messages[cands[0]].date {
      assert m in cands;
      var i :| 0 <= i < |cands| && cands[i] == m;
    }
  }

  lemma UnflagMeans(messages: map<Id, Message>, ids: set<Id>)
    ensures UnflagAll(messages, ids).Keys == messages.Keys
    ensures forall m :: m in messages && !(m in ids && "\\Flagged" in messages[m].flags) ==>
      UnflagAll(messages, ids)[m] == messages[m]
    ensures forall m :: m in messages && m in ids && "\\Flagged" in messages[m].flags ==>
      var flags := messages[m].flags;
      exists i :: 0 <= i < |flags| && flags[i] == "\\Flagged" && "\\Flagged" !in flags[..i]
        && UnflagAll(messages, ids)[m] == messages[m].(flags := flags[..i] + flags[i + 1..])
  {
    forall m | m in messages && !(m in ids && "\\Flagged" in messages[m].flags)
      ensures UnflagAll(messages, ids)[m] == messages[m]
    {
      RemoveFirstLaws(messages[m].flags, FLAGGED);
    }
    forall m | m in messages && m in ids && "\\Flagged" in messages[m].flags
      ensures var flags := messages[m].flags;
        exists i :: 0 <= i < |flags| && flags[i] == "\\Flagged" && "\\Flagged" !in flags[..i]
          && UnflagAll(messages, ids)[m] == messages[m].(flags := flags[..i] + flags[i + 1..])
    {
      var i := RemoveFirstAt(messages[m].flags, FLAGGED);
    }
  }

  /** Only \Flagged moves: every other flag keeps its place, in every message. */
  lemma TogglePreservesOthers(db: Db, t: Id, cands: seq<Id>, m: Id)
    requires IsScan(db, t, cands) && m in db.messages
    ensures m in Toggle(db, t, cands).messages
    ensures var after := Toggle(db, t, cands).messages[m];
      && after == db.messages[m].(flags := after.flags)
      && Without(after.flags, FLAGGED) == Without(db.messages[m].flags, FLAGGED)
      && (m !in Members(db, t) ==> after == db.messages[m])
  {
    RemoveFirstLaws(db.messages[m].flags, FLAGGED);
    WithoutAppend(db.messages[m].flags, FLAGGED);
    if cands != [] {
      assert cands[0] in Members(db, t);
    }
  }

  /** On a thread with messages the toggle negates has_flagged exactly when no
      message carries the flag twice. */
  lemma ToggleNegates(db: Db, t: Id, cands: seq<Id>)
    requires IsScan(db, t, cands) && cands != []
    ensures AnyFlagged(Toggle(db, t, cands), t) == !AnyFlagged(db, t)
        <==> forall m :: m in Members(db, t) ==> Occurrences(db.messages[m].flags, FLAGGED) <= 1
  {
    var after := Toggle(db, t, cands);
    assert cands[0] in Members(db, t);
    assert Members(after, t) == Members(db, t);
    forall m | m in Members(db, t)
      ensures Occurrences(db.messages[m].flags, FLAGGED) > 0 <==> FLAGGED in db.messages[m].flags
      ensures AnyFlagged(db, t) ==>
        (FLAGGED in after.messages[m].flags <==> Occurrences(db.messages[m].flags, FLAGGED) > 1)
    {
      RemoveFirstLaws(db.messages[m].flags, FLAGGED);
      RemoveFirstLaws(after.messages[m].flags, FLAGGED);
    }
    if AnyFlagged(db, t) {
      forall m | m in Members(db, t)
        ensures m in Flagged(after, t) <==> Occurrences(db.messages[m].flags, FLAGGED) > 1
      {
      }
      if AnyFlagged(after, t) {
        var m := AnyOf(Flagged(after, t));
        assert m in Members(db, t);
      }
    } else {
      assert cands[0] in Flagged(after, t);
      forall m | m in Members(db, t) ensures Occurrences(db.messages[m].flags, FLAGGED) <= 1 {
        assert m !in Flagged(db, t);
      }
    }
  }

  /** Toggling twice from an unflagged thread restores every message and every row. */
  lemma ToggleTwice(db: Db, t: Id, cands: seq<Id>, again: seq<Id>)
    requires AllAgree(db) && IsScan(db, t, cands) && !AnyFlagged(db, t)
    requires IsScan(Toggle(db, t, cands), t, again)
    ensures Toggle(Toggle(db, t, cands), t, again) == db
  {
    var mid := Toggle(db, t, cands);
    if cands != [] {
      ToggleTwiceRows(db, t, cands, again);
      ToggleKeepsStats(db, t, cands, {});
      ToggleKeepsStats(mid, t, again, {});
      SameThreads(db, Toggle(mid, t, again));
    } else {
      if again != [] {
        assert mid == db;
        assert again[0] in Members(db, t);
        assert forall m :: m in Members(db, t) ==> m in cands;
        assert false;
      }
    }
  }

  lemma ToggleTwiceRows(db: Db, t: Id, cands: seq<Id>, again: seq<Id>)
    requires IsScan(db, t, cands) && cands != [] && !AnyFlagged(db, t)
    requires IsScan(Toggle(db, t, cands), t, again)
    ensures Toggle(Toggle(db, t, cands), t, again).messages == db.messages
  {
    var mid := Toggle(db, t, cands);
    var top := cands[0];
    assert top in Members(db, t) && top in Members(mid, t) && top in again;
    assert top in Flagged(mid, t);
    var last := Toggle(mid, t, again);
    forall m | m in db.messages ensures last.messages[m] == db.messages[m] {
      assert m !in Flagged(db, t);
      RemoveFirstLaws(db.messages[m].flags, FLAGGED);
    }
  }

  /** Right rows over the same messages are the same rows. */
  lemma SameThreads(db: Db, after: Db)
    requires AllAgree(db) && AllAgree(after)
    requires after.messages == db.messages && after.threads.Keys == db.threads.Keys
    requires forall u :: u in db.threads ==> after.threads[u].subject == db.threads[u].subject
    ensures after.threads == db.threads
  {
    forall u | u in db.threads ensures after.threads[u] == db.threads[u] {
      assert Agrees(after, u) && Agrees(db, u);
      assert SameView(db.messages, after.messages, u);
      StatsFrame(db, after, u, db.threads[u].subject);
    }
  }

  // ------------------------------------------------------------- bulk deletes

  ghost predicate NoOrphans(db: Db)
  {
    forall t :: t in db.threads ==> Members(db, t) != {}
  }

  lemma BulkDeletesLeaveNoOrphans(db: Db, folder: Id, account: Id)
    ensures NoOrphans(DeleteMessagesByFolder(db, folder))
    ensures NoOrphans(DeleteAccount(db, account).0)
  {
    OrphansGone(DrainAndRemove(db, OfFolder(folder)));
    var drained := db.(blobs := DrainScope(db, OfAccount(account)));
    OrphansGone(drained);
    OrphansGone(WithoutAccount(drained, account));
  }

  lemma OrphansGone(db: Db)
    ensures NoOrphans(DeleteOrphanThreads(db))
  {
    var after := DeleteOrphanThreads(db);
    forall t | t in after.threads ensures Members(after, t) != {} {
      assert Members(after, t) == Members(db, t);
    }
  }

  /** A thread row that is kept while some messages go is right exactly when the thread
      lost none of them. */
  lemma KeptRow(db: Db, after: Db, gone: set<Id>, t: Id)
    requires AllAgree(db) && t in db.threads && t in after.threads && after.threads[t] == db.threads[t]
    requires after.messages == db.messages - gone
    ensures Agrees(after, t) <==> forall m :: m in Members(db, t) ==> m !in gone
  {
    assert Agrees(db, t);
    if forall m :: m in Members(db, t) ==> m !in gone {
      assert SameView(db.messages, after.messages, t);
      StatsFrame(db, after, t, db.threads[t].subject);
    } else {
      FewerMembers(Members(db, t), Members(after, t), gone);
      assert after.threads[t].msgCount != |Members(after, t)|;
    }
  }

  lemma FewerMembers(before: set<Id>, left: set<Id>, gone: set<Id>)
    requires forall m :: m in left <==> m in before && m !in gone
    requires !forall m :: m in before ==> m !in gone
    ensures |left| < |before|
  {
    var m :| m in before && m in gone;
    forall x | x in left ensures x in before - {m} {
      assert x in before && x !in gone;
    }
    SubsetSize(left, before - {m});
  }

  lemma SubsetSize(small: set<Id>, large: set<Id>)
    requires small <= large
    ensures |small| <= |large|
  {
    assert large == small + (large - small);
  }

  /** The deletes do not recompute the threads that survive: such a row is right exactly
      when the thread lost no message. */
  lemma SurvivorStats(db: Db, folder: Id, t: Id)
    requires AllAgree(db) && t in DeleteMessagesByFolder(db, folder).threads
    ensures Agrees(DeleteMessagesByFolder(db, folder), t)
        <==> forall m :: m in Members(db, t) ==> db.messages[m].folder != folder
  {
    var gone := ScopedMessages(db, OfFolder(folder));
    KeptRow(db, DeleteMessagesByFolder(db, folder), gone, t);
    forall m | m in Members(db, t) ensures m in gone <==> db.messages[m].folder == folder {
    }
  }

  /** The same for a removed account, since a thread can span accounts. */
  lemma SurvivorStatsOfAccount(db: Db, account: Id, t: Id)
    requires AllAgree(db) && Integrity(db) && t in DeleteAccount(db, account).0.threads
    ensures Agrees(DeleteAccount(db, account).0, t)
        <==> forall m :: m in Members(db, t) ==> db.messages[m].account != account
  {
    CascadeIsScope(db, account);
    var gone := ScopedMessages(db, OfAccount(account));
    assert db.messages - {} == db.messages;
    KeptRow(db, DeleteAccount(db, account).0, gone, t);
    forall m | m in Members(db, t) ensures m in gone <==> db.messages[m].account == account {
    }
  }

  // --------------------------------------------------------------------- runs

  /** The transactions that maintain thread rows. */
  datatype Mutation =
    | Insert(bundle: Bundle, ids: NewIds)
    | MarkRead(messages: set<Id>)
    | MarkFolderRead(folder: Id)
    | ToggleThread(thread: Id, cands: seq<Id>)

  ghost predicate Mutates(db: Db, a: Mutation, t: Db)
  {
    match a
    case Insert(b, ids) => FreshIds(db, b, ids) && Insertable(db, b) && t == InsertBundle(db, b, ids)
    case MarkRead(ids) => t == MarkMessagesRead(db, ids)
    case MarkFolderRead(f) => t == MarkMessagesRead(db, UnreadInFolder(db, f))
    case ToggleThread(id, cands) => IsScan(db, id, cands) && t == Toggle(db, id, cands)
  }

  lemma MutationKeepsStats(db: Db, a: Mutation, t: Db, open: set<Id>)
    requires AgreeExcept(db, open) && Mutates(db, a, t)
    ensures AgreeExcept(t, open)
  {
    match a
    case Insert(b, ids) => InsertKeepsStats(db, b, ids, open);
    case MarkRead(ids) => MarkReadKeepsStats(db, ids, open);
    case MarkFolderRead(f) => MarkReadKeepsStats(db, UnreadInFolder(db, f), open);
    case ToggleThread(id, cands) => ToggleKeepsStats(db, id, cands, open);
  }

  /** Through every run of inserts, mark-reads and toggles the thread rows equal the
      recomputed fold. */
  lemma StatsAlwaysAgree(db: Db, run: seq<Mutation>, t: Db)
    requires AllAgree(db) && Runs.Run(Mutates, db, run, t)
    ensures AllAgree(t)
  {
    forall x, a, y | AllAgree(x) && Mutates(x, a, y) ensures AllAgree(y) {
      MutationKeepsStats(x, a, y, {});
    }
    Runs.InvariantRun(Mutates, AllAgree, db, run, t);
  }
}
