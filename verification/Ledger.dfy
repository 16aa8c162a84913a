/**
 * The blob reference ledger as a transition system.  Every procedure that moves
 * references runs as several transactions; between two of them it holds a token.
 * Steps of the attachment downloader, raw capture, lazy fetch, legacy backfill,
 * healing reads, retention sweep, folder wipe, account removal and the blob
 * garbage collector interleave freely, and the process may crash.
 */
module Ledger {
  import opened Common
  import opened Tables
  import Runs

  /** Names of tokens: one per procedure, or one per slot a sweep cleared. */
  datatype Job = Job(n: nat) | Slot(sweep: nat, msg: Id)

  datatype Purpose =
    | ForAttachment(att: Id, compensate: bool)  // backfill undoes a failed link, the downloader does not
    | ForRaw(msg: Id)
    | ToRelease                                 // DecBlobRef comes next

  datatype Token = Token(blob: Id, purpose: Purpose)

  datatype Candidate = Candidate(blob: Id, sha: string)

  datatype Collector = Collector(todo: seq<Candidate>, unlinked: bool)

  datatype World = World(
    db: Db,
    held: map<Job, Token>,
    lost: map<Job, Id>,           // history: references nobody will ever give back
    files: set<string>,           // digests with a file at their BlobPath
    collectors: map<nat, Collector>,
    written: map<Job, string>,    // WriteContentAddressed has returned, InsertOrIncBlob not yet
    unlinked: set<string>)        // history: digests unlinked since they were last written

  datatype Action =
    | WriteFile(j: Job, sha: string) | AcquireFails(j: Job)
    | Acquire(j: Job, sha: string, size: nat, id: Id, purpose: Purpose)
    | LinkAttachment(j: Job) | LinkFails(j: Job)
    | LinkRaw(j: Job, at: int) | LinkRawFails(j: Job)
    | Release(j: Job) | ReleaseFails(j: Job)
    | HealRaw(j: Job, msg: Id) | HealAttachment(j: Job, att: Id) | ForgetAttachment(j: Job, att: Id)
    | ExpireRaw(sweep: nat, cutoff: int)
    | WipeFolder(folder: Id) | RemoveAccount(account: Id)
    | InsertMessage(id: Id, m: Message, atts: map<Id, Attachment>)
    | OtherTransaction(db: Db)
    | ListZero(g: nat, todo: seq<Candidate>) | Unlink(g: nat, ok: bool) | DeleteRow(g: nat)
    | Crash

  predicate Unused(w: World, j: Job)
  {
    j !in w.held && j !in w.lost
  }

  predicate Holds(w: World, j: Job)
  {
    j in w.held && w.held[j].purpose != ToRelease
  }

  /** A transaction that does not touch the reference columns: flags, thread rows,
      folder rows, new accounts. */
  ghost predicate SameReferences(db: Db, t: Db)
  {
    && t.blobs == db.blobs && t.attachments == db.attachments
    && t.messages.Keys == db.messages.Keys
    && (forall m :: m in db.messages ==> t.messages[m].raw == db.messages[m].raw)
    && Integrity(t)
  }

  predicate ZeroRefs(db: Db, todo: seq<Candidate>)
  {
    forall i :: 0 <= i < |todo| ==>
      todo[i].blob in db.blobs && db.blobs[todo[i].blob].refcount == 0 && db.blobs[todo[i].blob].sha == todo[i].sha
  }

  ghost predicate Enabled(w: World, a: Action)
  {
    match a
    case WriteFile(j, _) => Unused(w, j) && j !in w.written
    case AcquireFails(j) => j in w.written
    case Acquire(j, sha, _, id, p) =>
      Unused(w, j) && j in w.written && w.written[j] == sha && IsRowFor(w.db, sha, id) && p != ToRelease
    case LinkAttachment(j) => Holds(w, j) && w.held[j].purpose.ForAttachment?
    case LinkFails(j) => Holds(w, j) && w.held[j].purpose.ForAttachment?
    case LinkRaw(j, _) => Holds(w, j) && w.held[j].purpose.ForRaw?
    case LinkRawFails(j) => Holds(w, j) && w.held[j].purpose.ForRaw?
    case Release(j) => j in w.held && w.held[j].purpose == ToRelease
    case ReleaseFails(j) => j in w.held && w.held[j].purpose == ToRelease
    case HealRaw(j, m) => Unused(w, j) && m in w.db.messages
    case HealAttachment(j, a) => Unused(w, j) && a in w.db.attachments
    case ForgetAttachment(j, a) => Unused(w, j) && a in w.db.attachments
    case ExpireRaw(sweep, _) => forall m: Id :: Unused(w, Slot(sweep, m))
    case WipeFolder(_) => true
    case RemoveAccount(_) => true
    case InsertMessage(id, m, atts) =>
      && id !in w.db.messages && m.raw == None
      && m.folder in w.db.folders && w.db.folders[m.folder].account == m.account
      && (m.thread.Some? ==> m.thread.value in w.db.threads)
      && (forall x :: x in atts ==> x !in w.db.attachments && atts[x].message == id && atts[x].blob == None)
    case OtherTransaction(t) => SameReferences(w.db, t)
    case ListZero(g, todo) => g !in w.collectors && ZeroRefs(w.db, todo)
    case Unlink(g, _) => g in w.collectors && w.collectors[g].todo != [] && !w.collectors[g].unlinked
    case DeleteRow(g) => g in w.collectors && w.collectors[g].todo != [] && w.collectors[g].unlinked
    case Crash => true
  }

  /** Token j turns into a lost reference to b. */
  function Lose(w: World, j: Job, b: Id): World
  {
    w.(held := w.held - {j}, lost := w.lost[j := b])
  }

  function SlotTokens(db: Db, sweep: nat, slots: set<Id>): map<Job, Token>
    requires forall m :: m in slots ==> m in db.messages && db.messages[m].raw.Some?
  {
    map m | m in slots :: Slot(sweep, m) := Token(db.messages[m].raw.value, ToRelease)
  }

  ghost function Apply(w: World, a: Action): World
    requires Enabled(w, a)
  {
    match a
    // a fresh file, or a dedup hit on one that is there
    case WriteFile(j, sha) =>
      w.(files := w.files + {sha}, unlinked := w.unlinked - {sha}, written := w.written[j := sha])
    case AcquireFails(j) => w.(written := w.written - {j})
    case Acquire(j, sha, size, id, p) =>
      w.(db := InsertOrIncBlob(w.db, sha, size, id), held := w.held[j := Token(id, p)], written := w.written - {j})
    case LinkAttachment(j) =>
      var att, b := w.held[j].purpose.att, w.held[j].blob;
      var linked := w.(db := UpdateAttachmentDownloaded(w.db, att, b), held := w.held - {j});
      if att !in w.db.attachments then Lose(w, j, b)
      else if w.db.attachments[att].blob.None? then linked
      else linked.(lost := w.lost[j := w.db.attachments[att].blob.value])
    case LinkFails(j) =>
      if w.held[j].purpose.compensate then w.(held := w.held[j := w.held[j].(purpose := ToRelease)])
      else Lose(w, j, w.held[j].blob)
    case LinkRaw(j, at) =>
      (match SetMessageRawBlob(w.db, w.held[j].purpose.msg, w.held[j].blob, at)
       case Err(_) => w.(held := w.held[j := w.held[j].(purpose := ToRelease)])
       case Ok((db, SetFresh)) => w.(db := db, held := w.held - {j})
       case Ok((db, SetReplaced(prev))) => w.(db := db, held := w.held[j := Token(prev, ToRelease)])
       case Ok((db, SetNoop)) => w.(db := db, held := w.held[j := w.held[j].(purpose := ToRelease)]))
    case LinkRawFails(j) => w.(held := w.held[j := w.held[j].(purpose := ToRelease)])
    case Release(j) =>
      (match DecBlobRef(w.db, w.held[j].blob)
       case Ok(db) => w.(db := db, held := w.held - {j})
       case Err(_) => Lose(w, j, w.held[j].blob))
    case ReleaseFails(j) => Lose(w, j, w.held[j].blob)
    case HealRaw(j, m) =>
      (match ClearMessageRawBlob(w.db, m)
       case Ok((db, Some(prev))) => w.(db := db, held := w.held[j := Token(prev, ToRelease)])
       case _ => w)
    case HealAttachment(j, a) =>
      (match ClearAttachmentBlob(w.db, a)
       case Ok((db, Some(prev))) => w.(db := db, held := w.held[j := Token(prev, ToRelease)])
       case Ok((db, None)) => w.(db := db)
       case Err(_) => w)
    case ForgetAttachment(j, a) =>
      (match ClearAttachmentBlob(w.db, a)
       case Ok((db, Some(prev))) => w.(db := db, lost := w.lost[j := prev])
       case Ok((db, None)) => w.(db := db)
       case Err(_) => w)
    case ExpireRaw(sweep, cutoff) =>
      w.(db := SweepExpiredRaw(w.db, cutoff), held := w.held + SlotTokens(w.db, sweep, ExpiredMessages(w.db, cutoff)))
    case WipeFolder(f) => w.(db := DeleteMessagesByFolder(w.db, f))
    case RemoveAccount(acc) => w.(db := DeleteAccount(w.db, acc).0)
    case InsertMessage(id, m, atts) =>
      w.(db := w.db.(messages := w.db.messages[id := m], attachments := w.db.attachments + atts))
    case OtherTransaction(t) => w.(db := t)
    case ListZero(g, todo) => w.(collectors := w.collectors[g := Collector(todo, false)])
    case Unlink(g, ok) =>
      var c := w.collectors[g];
      if ok then w.(files := w.files - {c.todo[0].sha}, unlinked := w.unlinked + {c.todo[0].sha},
                    collectors := w.collectors[g := c.(unlinked := true)])
      else w.(collectors := w.collectors[g := Collector(c.todo[1..], false)])
    case DeleteRow(g) =>
      var c := w.collectors[g];
      w.(db := DeleteBlobIfZero(w.db, c.todo[0].blob), collectors := w.collectors[g := Collector(c.todo[1..], false)])
    case Crash =>
      w.(held := map[], lost := w.lost + Abandoned(w.held), collectors := map[], written := map[])
  }

  ghost predicate Initial(w: World)
  {
    && Integrity(w.db) && w.held == map[] && w.lost == map[] && w.collectors == map[]
    && w.written == map[] && w.unlinked == {}
    && Balanced(w)
    && forall b :: b in w.db.blobs && Links(w.db, b) > 0 ==> w.db.blobs[b].sha in w.files
  }

  ghost predicate Next(w: World, a: Action, v: World)
  {
    Enabled(w, a) && v == Apply(w, a)
  }

  ghost predicate Reachable(w: World)
  {
    Runs.Reachable(Initial, Next, w)
  }

  // --------------------------------------------------------------- the ledger

  function TokenBlob(t: Token): Option<Id> { Some(t.blob) }

  function LostBlob(b: Id): Option<Id> { Some(b) }

  function Claims(w: World, b: Id): nat
  {
    Links(w.db, b) + Refs(w.held, TokenBlob, b) + Refs(w.lost, LostBlob, b)
  }

  /** Every blob's refcount is the number of its links, held tokens and lost
      references; nothing refers to a blob without a row. */
  ghost predicate Balanced(w: World)
  {
    forall b :: RefCount(w.db, b) == Claims(w, b)
  }

  ghost predicate Inv(w: World)
  {
    Integrity(w.db) && Balanced(w) && w.held.Keys !! w.lost.Keys
  }

  lemma AcquireStep(w: World, j: Job, sha: string, size: nat, id: Id, p: Purpose)
    requires Inv(w) && Enabled(w, Acquire(j, sha, size, id, p))
    ensures Inv(Apply(w, Acquire(j, sha, size, id, p)))
  {
    var v := Apply(w, Acquire(j, sha, size, id, p));
    forall b ensures RefCount(v.db, b) == Claims(v, b) {
      RefsUpdate(w.held, TokenBlob, j, Token(id, p), b);
      assert RefCount(w.db, b) == Claims(w, b);
    }
  }

  // One lemma for each kind of step: what it adds to a blob's refcount it adds to
  // the blob's claims.

  lemma HoldingStep(w: World, a: Action)
    requires Inv(w) && Enabled(w, a)
    requires a.LinkAttachment? || a.LinkFails? || a.LinkRawFails? || a.ReleaseFails?
    ensures Balanced(Apply(w, a))
  {
    var v, token := Apply(w, a), w.held[a.j];
    if a.LinkAttachment? {
      LinkAttachmentStep(w, a.j);
    } else if a.LinkRawFails? || (a.LinkFails? && token.purpose.compensate) {
      TokenMoves(w, v, a.j, token.(purpose := ToRelease));
    } else {
      TokenLost(w, v, a.j);
    }
  }

  lemma LinkAttachmentStep(w: World, j: Job)
    requires Inv(w) && Enabled(w, LinkAttachment(j))
    ensures Balanced(Apply(w, LinkAttachment(j)))
  {
    var v, att, b0 := Apply(w, LinkAttachment(j)), w.held[j].purpose.att, w.held[j].blob;
    if att !in w.db.attachments {
      TokenLost(w, v, j);
    } else {
      var row := w.db.attachments[att];
      forall b ensures RefCount(v.db, b) == Claims(v, b) {
        assert RefCount(w.db, b) == Claims(w, b);
        RefsRemoveOne(w.held, TokenBlob, j, b);
        RefsUpdate(w.db.attachments, AttachmentBlob, att, row.(blob := Some(b0), localPath := None), b);
        if row.blob.Some? {
          RefsUpdate(w.lost, LostBlob, j, row.blob.value, b);
        }
      }
    }
  }

  lemma TokenLost(w: World, v: World, j: Job)
    requires Inv(w) && j in w.held && v == Lose(w, j, w.held[j].blob)
    ensures Balanced(v)
  {
    forall b ensures RefCount(v.db, b) == Claims(v, b) {
      assert RefCount(w.db, b) == Claims(w, b);
      RefsRemoveOne(w.held, TokenBlob, j, b);
      RefsUpdate(w.lost, LostBlob, j, w.held[j].blob, b);
    }
  }

  lemma LinkRawStep(w: World, j: Job, at: int)
    requires Inv(w) && Enabled(w, LinkRaw(j, at))
    ensures Balanced(Apply(w, LinkRaw(j, at)))
  {
    var msg := w.held[j].purpose.msg;
    if msg !in w.db.messages {
      TokenMoves(w, Apply(w, LinkRaw(j, at)), j, w.held[j].(purpose := ToRelease));
    } else {
      var v, m := LinkRawEffect(w, j, at);
      forall b ensures Refs(v.held, TokenBlob, b) + One(m.raw == Some(b))
                    == Refs(w.held, TokenBlob, b) + One(w.db.messages[msg].raw == Some(b)) {
        TokenAnswers(w, j, w.db.messages[msg].raw, b);
      }
      SlotLinked(w, v, msg, m);
    }
  }

  /** The slot takes the token's blob; the token is spent, exchanged for the old blob's, or
      left over. */
  lemma LinkRawEffect(w: World, j: Job, at: int) returns (v: World, m: Message)
    requires Enabled(w, LinkRaw(j, at)) && w.held[j].purpose.msg in w.db.messages
    ensures v == Apply(w, LinkRaw(j, at)) && v.lost == w.lost && m.raw == Some(w.held[j].blob)
    ensures v.db == w.db.(messages := w.db.messages[w.held[j].purpose.msg := m])
    ensures var slot := w.db.messages[w.held[j].purpose.msg].raw;
      v.held == if slot.None? then w.held - {j}
                else if slot.value == w.held[j].blob then w.held[j := w.held[j].(purpose := ToRelease)]
                else w.held[j := Token(slot.value, ToRelease)]
  {
    m := SlotFilled(w.db, w.held[j].purpose.msg, w.held[j].blob, at);
    v := Apply(w, LinkRaw(j, at));
  }

  lemma SlotFilled(db: Db, msg: Id, blob: Id, at: int) returns (m: Message)
    requires msg in db.messages
    ensures var r, slot := SetMessageRawBlob(db, msg, blob, at), db.messages[msg].raw;
      && r.Ok? && m.raw == Some(blob) && r.value.0 == db.(messages := db.messages[msg := m])
      && r.value.1 == if slot.None? then SetFresh else if slot.value == blob then SetNoop else SetReplaced(slot.value)
  {
    m := db.messages[msg].(raw := Some(blob), rawAt := Some(at));
  }

  /** The held tokens pay for what the slot gains. */
  lemma SlotLinked(w: World, v: World, msg: Id, m: Message)
    requires Balanced(w) && msg in w.db.messages
    requires v.db == w.db.(messages := w.db.messages[msg := m]) && v.lost == w.lost
    requires forall b :: Refs(v.held, TokenBlob, b) + One(m.raw == Some(b))
                      == Refs(w.held, TokenBlob, b) + One(w.db.messages[msg].raw == Some(b))
    ensures Balanced(v)
  {
    forall b ensures RefCount(v.db, b) == Claims(v, b) {
      assert RefCount(w.db, b) == Claims(w, b);
      RefsUpdate(w.db.messages, RawBlob, msg, m, b);
      assert Refs(v.held, TokenBlob, b) + One(m.raw == Some(b))
          == Refs(w.held, TokenBlob, b) + One(w.db.messages[msg].raw == Some(b));
    }
  }

  /** The tokens after SetMessageRawBlob found the slot empty, taken, or already right. */
  lemma TokenAnswers(w: World, j: Job, slot: Option<Id>, b: Id)
    requires j in w.held
    ensures Refs(w.held - {j}, TokenBlob, b) + One(w.held[j].blob == b) == Refs(w.held, TokenBlob, b)
    ensures slot.Some? ==>
      Refs(w.held[j := Token(slot.value, ToRelease)], TokenBlob, b) + One(w.held[j].blob == b)
      == Refs(w.held, TokenBlob, b) + One(slot == Some(b))
    ensures Refs(w.held[j := w.held[j].(purpose := ToRelease)], TokenBlob, b) == Refs(w.held, TokenBlob, b)
  {
    RefsRemoveOne(w.held, TokenBlob, j, b);
    RefsUpdate(w.held, TokenBlob, j, w.held[j].(purpose := ToRelease), b);
    if slot.Some? {
      RefsUpdate(w.held, TokenBlob, j, Token(slot.value, ToRelease), b);
    }
  }

  lemma TokenMoves(w: World, v: World, j: Job, token: Token)
    requires Balanced(w) && j in w.held && token.blob == w.held[j].blob
    requires v == w.(held := w.held[j := token])
    ensures Balanced(v)
  {
    forall b ensures RefCount(v.db, b) == Claims(v, b) {
      assert RefCount(w.db, b) == Claims(w, b);
      RefsUpdate(w.held, TokenBlob, j, token, b);
    }
  }

  lemma ReleaseStep(w: World, j: Job)
    requires Inv(w) && Enabled(w, Release(j))
    ensures Balanced(Apply(w, Release(j)))
  {
    var v := Apply(w, Release(j));
    forall b ensures RefCount(v.db, b) == Claims(v, b) {
      assert RefCount(w.db, b) == Claims(w, b);
      RefsRemoveOne(w.held, TokenBlob, j, b);
      RefsUpdate(w.lost, LostBlob, j, w.held[j].blob, b);
    }
  }

  lemma HealRawStep(w: World, j: Job, msg: Id)
    requires Inv(w) && Enabled(w, HealRaw(j, msg))
    ensures Balanced(Apply(w, HealRaw(j, msg)))
  {
    var v := Apply(w, HealRaw(j, msg));
    var m := w.db.messages[msg];
    if m.raw.Some? {
      forall b ensures RefCount(v.db, b) == Claims(v, b) {
        assert RefCount(w.db, b) == Claims(w, b);
        RefsUpdate(w.held, TokenBlob, j, Token(m.raw.value, ToRelease), b);
        RefsUpdate(w.db.messages, RawBlob, msg, m.(raw := None, rawAt := None), b);
      }
    }
  }

  lemma HealAttachmentStep(w: World, a: Action)
    requires Inv(w) && Enabled(w, a) && (a.HealAttachment? || a.ForgetAttachment?)
    ensures Balanced(Apply(w, a))
  {
    var v := Apply(w, a);
    var row := w.db.attachments[a.att];
    forall b ensures RefCount(v.db, b) == Claims(v, b) {
      assert RefCount(w.db, b) == Claims(w, b);
      RefsUpdate(w.db.attachments, AttachmentBlob, a.att, row.(blob := None, localPath := None), b);
      if row.blob.Some? {
        if a.HealAttachment? {
          RefsUpdate(w.held, TokenBlob, a.j, Token(row.blob.value, ToRelease), b);
        } else {
          RefsUpdate(w.lost, LostBlob, a.j, row.blob.value, b);
        }
      }
    }
  }

  function SlotJobs(sweep: nat, slots: set<Id>): set<Job>
  {
    set m | m in slots :: Slot(sweep, m)
  }

  lemma SlotCount(sweep: nat, slots: set<Id>)
    ensures |SlotJobs(sweep, slots)| == |slots|
  {
    RenamedSize(slots, (m: Id) => Slot(sweep, m), SlotJobs(sweep, slots));
  }

  /** A sweep turns every cleared slot into exactly one token. */
  lemma ExpireRawStep(w: World, sweep: nat, cutoff: int)
    requires Inv(w) && Enabled(w, ExpireRaw(sweep, cutoff))
    ensures Balanced(Apply(w, ExpireRaw(sweep, cutoff)))
  {
    var v := Apply(w, ExpireRaw(sweep, cutoff));
    var slots := ExpiredMessages(w.db, cutoff);
    forall b ensures RefCount(v.db, b) == Claims(v, b) {
      assert RefCount(w.db, b) == Claims(w, b);
      SlotsCleared(w.db.messages, slots, b);
      TokensOfSlots(w.db, sweep, slots, b);
      SlotCount(sweep, Referrers(w.db.messages, RawBlob, b) * slots);
      HeldUnion(w.held, SlotTokens(w.db, sweep, slots), b);
    }
  }

  lemma SlotsCleared(messages: map<Id, Message>, slots: set<Id>, b: Id)
    ensures Refs(ClearSlots(messages, slots), RawBlob, b) + |Referrers(messages, RawBlob, b) * slots|
         == Refs(messages, RawBlob, b)
  {
    var before := Referrers(messages, RawBlob, b);
    assert Referrers(ClearSlots(messages, slots), RawBlob, b) == before - before * slots;
  }

  lemma TokensOfSlots(db: Db, sweep: nat, slots: set<Id>, b: Id)
    requires forall m :: m in slots ==> m in db.messages && db.messages[m].raw.Some?
    ensures Referrers(SlotTokens(db, sweep, slots), TokenBlob, b)
         == SlotJobs(sweep, Referrers(db.messages, RawBlob, b) * slots)
  {
  }

  lemma HeldUnion(held: map<Job, Token>, tokens: map<Job, Token>, b: Id)
    requires held.Keys !! tokens.Keys
    ensures Refs(held + tokens, TokenBlob, b) == Refs(held, TokenBlob, b) + Refs(tokens, TokenBlob, b)
  {
    assert Referrers(held + tokens, TokenBlob, b)
        == Referrers(held, TokenBlob, b) + Referrers(tokens, TokenBlob, b);
  }

  lemma CrashStep(w: World)
    requires Inv(w)
    ensures Balanced(Apply(w, Crash))
  {
    var v := Apply(w, Crash);
    forall b ensures RefCount(v.db, b) == Claims(v, b) {
      assert RefCount(w.db, b) == Claims(w, b);
      HeldBecomesLost(w.held, w.lost, b);
      assert Referrers(v.held, TokenBlob, b) == {};
    }
  }

  function Abandoned(held: map<Job, Token>): map<Job, Id>
  {
    map j | j in held :: held[j].blob
  }

  lemma HeldBecomesLost(held: map<Job, Token>, lost: map<Job, Id>, b: Id)
    requires held.Keys !! lost.Keys
    ensures Refs(lost + Abandoned(held), LostBlob, b) == Refs(lost, LostBlob, b) + Refs(held, TokenBlob, b)
  {
    var before, added := Referrers(lost, LostBlob, b), Referrers(held, TokenBlob, b);
    var all := Referrers(lost + Abandoned(held), LostBlob, b);
    forall j ensures j in all <==> j in before + added {
      assert j in held ==> j !in lost;
    }
    assert all == before + added;
    assert before !! added;
  }

  lemma DeleteRowStep(w: World, g: nat)
    requires Inv(w) && Enabled(w, DeleteRow(g))
    ensures Balanced(Apply(w, DeleteRow(g)))
  {
    var v := Apply(w, DeleteRow(g));
    forall b ensures RefCount(v.db, b) == Claims(v, b) {
      assert RefCount(w.db, b) == Claims(w, b);
    }
  }

  lemma SameReferrers<K, V>(rows: map<K, V>, others: map<K, V>, column: V -> Option<Id>, b: Id)
    requires rows.Keys <= others.Keys
    requires forall k :: k in others ==> column(others[k]) == if k in rows then column(rows[k]) else None
    ensures Refs(others, column, b) == Refs(rows, column, b)
  {
    assert Referrers(others, column, b) == Referrers(rows, column, b);
  }

  lemma InsertMessageStep(w: World, id: Id, m: Message, atts: map<Id, Attachment>)
    requires Inv(w) && Enabled(w, InsertMessage(id, m, atts))
    ensures Balanced(Apply(w, InsertMessage(id, m, atts)))
  {
    var v := Apply(w, InsertMessage(id, m, atts));
    forall b ensures RefCount(v.db, b) == Claims(v, b) {
      assert RefCount(w.db, b) == Claims(w, b);
      SameReferrers(w.db.messages, v.db.messages, RawBlob, b);
      forall x | x in v.db.attachments
        ensures AttachmentBlob(v.db.attachments[x])
             == if x in w.db.attachments then AttachmentBlob(w.db.attachments[x]) else None
      {
        if x in atts {
          assert atts[x].blob == None;
        }
      }
      SameReferrers(w.db.attachments, v.db.attachments, AttachmentBlob, b);
    }
  }

  lemma OtherStep(w: World, t: Db)
    requires Inv(w) && Enabled(w, OtherTransaction(t))
    ensures Balanced(Apply(w, OtherTransaction(t)))
  {
    var v := Apply(w, OtherTransaction(t));
    forall b ensures RefCount(v.db, b) == Claims(v, b) {
      assert RefCount(w.db, b) == Claims(w, b);
      forall m | m in t.messages ensures RawBlob(t.messages[m]) == RawBlob(w.db.messages[m]) {
        assert m in w.db.messages;
      }
      SameReferrers(w.db.messages, t.messages, RawBlob, b);
    }
  }

  // ---------------------------------------------------------------- bulk drain

  lemma DrainKeepsBalance(w: World, v: World, scope: Scope, b: Id)
    requires v.held == w.held && v.lost == w.lost
    ensures var t := DrainAndRemove(w.db, scope);
      RefCount(w.db, b) == Claims(w, b) && RefCount(v.db, b) == RefCount(t, b) && Links(v.db, b) == Links(t, b) ==>
        RefCount(v.db, b) == Claims(v, b)
  {
    DrainMatchesCascade(w.db, scope, b);
  }

  lemma WipeStep(w: World, folder: Id)
    requires Inv(w)
    ensures Balanced(Apply(w, WipeFolder(folder)))
  {
    var v := Apply(w, WipeFolder(folder));
    forall b ensures RefCount(v.db, b) == Claims(v, b) {
      OrphansKeepRefs(DrainAndRemove(w.db, OfFolder(folder)), b);
      DrainKeepsBalance(w, v, OfFolder(folder), b);
    }
  }

  lemma RemoveAccountStep(w: World, account: Id)
    requires Inv(w)
    ensures Balanced(Apply(w, RemoveAccount(account)))
  {
    var v := Apply(w, RemoveAccount(account));
    var scope := OfAccount(account);
    var t := DrainAndRemove(w.db, scope);
    CascadeIsScope(w.db, account);
    assert account !in w.db.accounts ==> ScopedAttachments(w.db, scope) == {};
    forall b ensures RefCount(v.db, b) == Claims(v, b) {
      assert v.db.messages == t.messages && v.db.attachments == t.attachments && v.db.blobs == t.blobs;
      assert RefCount(v.db, b) == RefCount(t, b) && Links(v.db, b) == Links(t, b);
      DrainKeepsBalance(w, v, scope, b);
    }
  }

  /** Same accounts, folders and threads, and rows that keep their foreign keys. */
  ghost predicate SameKeys(db: Db, t: Db)
  {
    && t.accounts == db.accounts && t.folders == db.folders && t.threads == db.threads
    && t.messages.Keys == db.messages.Keys && t.attachments.Keys == db.attachments.Keys
    && (forall m :: m in db.messages ==>
          t.messages[m].account == db.messages[m].account && t.messages[m].folder == db.messages[m].folder
          && t.messages[m].thread == db.messages[m].thread)
    && (forall a :: a in db.attachments ==> t.attachments[a].message == db.attachments[a].message)
  }

  lemma KeysKeepIntegrity(db: Db, t: Db)
    requires Integrity(db) && SameKeys(db, t)
    ensures Integrity(t)
  {
  }

  lemma SweepKeepsIntegrity(db: Db, cutoff: int)
    requires Integrity(db)
    ensures Integrity(SweepExpiredRaw(db, cutoff))
  {
    KeysKeepIntegrity(db, SweepExpiredRaw(db, cutoff));
  }

  lemma SlotsKeepIntegrity(w: World, a: Action)
    requires Inv(w) && Enabled(w, a) && (a.LinkRaw? || a.HealRaw?)
    ensures Integrity(Apply(w, a).db)
  {
    if a.LinkRaw? {
      SlotIntegrity(w.db, w.held[a.j].purpose.msg, w.held[a.j].blob, a.at);
    } else {
      SlotIntegrity(w.db, a.msg, 0, 0);
    }
  }

  lemma SlotIntegrity(db: Db, msg: Id, blob: Id, at: int)
    requires Integrity(db)
    ensures SetMessageRawBlob(db, msg, blob, at).Ok? ==> Integrity(SetMessageRawBlob(db, msg, blob, at).value.0)
    ensures ClearMessageRawBlob(db, msg).Ok? ==> Integrity(ClearMessageRawBlob(db, msg).value.0)
  {
    if msg in db.messages {
      RowIntegrity(db, msg, SetMessageRawBlob(db, msg, blob, at).value.0.messages[msg]);
      RowIntegrity(db, msg, ClearMessageRawBlob(db, msg).value.0.messages[msg]);
      assert db.messages[msg := db.messages[msg]] == db.messages;
    }
  }

  lemma RowIntegrity(db: Db, msg: Id, m: Message)
    requires Integrity(db) && msg in db.messages
    requires m == db.messages[msg].(raw := m.raw, rawAt := m.rawAt)
    ensures Integrity(db.(messages := db.messages[msg := m]))
  {
    KeysKeepIntegrity(db, db.(messages := db.messages[msg := m]));
  }

  lemma AttachmentsKeepIntegrity(w: World, a: Action)
    requires Inv(w) && Enabled(w, a) && (a.LinkAttachment? || a.HealAttachment? || a.ForgetAttachment?)
    ensures Integrity(Apply(w, a).db)
  {
    if a.LinkAttachment? {
      KeysKeepIntegrity(w.db, UpdateAttachmentDownloaded(w.db, w.held[a.j].purpose.att, w.held[a.j].blob));
    } else {
      KeysKeepIntegrity(w.db, ClearAttachmentBlob(w.db, a.att).value.0);
    }
  }

  lemma InsertKeepsIntegrity(w: World, a: Action)
    requires Inv(w) && Enabled(w, a) && a.InsertMessage?
    ensures Integrity(Apply(w, a).db)
  {
  }

  lemma IntegrityStep(w: World, a: Action)
    requires Inv(w) && Enabled(w, a) && !a.RemoveAccount? && !a.WipeFolder?
    ensures Integrity(Apply(w, a).db)
  {
    if a.LinkRaw? || a.HealRaw? {
      SlotsKeepIntegrity(w, a);
    } else if a.ExpireRaw? {
      SweepKeepsIntegrity(w.db, a.cutoff);
    } else if a.LinkAttachment? || a.HealAttachment? || a.ForgetAttachment? {
      AttachmentsKeepIntegrity(w, a);
    } else if a.InsertMessage? {
      InsertKeepsIntegrity(w, a);
    } else if !a.OtherTransaction? {
      OnlyBlobs(w, a);
      KeysKeepIntegrity(w.db, Apply(w, a).db);
    }
  }

  lemma OnlyBlobs(w: World, a: Action)
    requires Enabled(w, a)
    requires a.WriteFile? || a.AcquireFails? || a.Acquire? || a.LinkFails? || a.LinkRawFails?
      || a.Release? || a.ReleaseFails?
          || a.ListZero? || a.Unlink? || a.DeleteRow? || a.Crash?
    ensures Apply(w, a).db == w.db.(blobs := Apply(w, a).db.blobs)
  {
  }

  lemma OrphansKeepIntegrity(db: Db)
    requires Integrity(db)
    ensures Integrity(DeleteOrphanThreads(db))
  {
    forall m | m in db.messages && db.messages[m].thread.Some?
      ensures db.messages[m].thread.value in DeleteOrphanThreads(db).threads
    {
      assert m in Members(db, db.messages[m].thread.value);
    }
  }

  lemma BulkIntegrity(w: World, a: Action)
    requires Inv(w) && (a.RemoveAccount? || a.WipeFolder?)
    ensures Integrity(Apply(w, a).db)
  {
    if a.WipeFolder? {
      var drained := w.db.(blobs := DrainScope(w.db, OfFolder(a.folder)));
      RemovalKeepsIntegrity(drained, ScopedMessages(w.db, OfFolder(a.folder)));
      OrphansKeepIntegrity(DrainAndRemove(w.db, OfFolder(a.folder)));
    } else {
      AccountIntegrity(w.db, a.account);
    }
  }

  lemma RemovalKeepsIntegrity(db: Db, gone: set<Id>)
    requires Integrity(db)
    ensures Integrity(RemoveMessages(db, gone))
  {
  }

  lemma AccountIntegrity(db: Db, account: Id)
    requires Integrity(db)
    ensures Integrity(DeleteAccount(db, account).0)
  {
    var drained := db.(blobs := DrainScope(db, OfAccount(account)));
    if account in db.accounts {
      FoldersKeepIntegrity(drained, account);
      OrphansKeepIntegrity(WithoutAccount(drained, account));
    } else {
      OrphansKeepIntegrity(drained);
    }
  }

  lemma FoldersKeepIntegrity(db: Db, account: Id)
    requires Integrity(db)
    ensures Integrity(WithoutAccount(db, account))
  {
    RemovalKeepsIntegrity(db, CascadedMessages(db, account));
  }

  lemma InvStep(w: World, a: Action)
    requires Inv(w) && Enabled(w, a)
    ensures Inv(Apply(w, a))
  {
    if a.RemoveAccount? || a.WipeFolder? {
      BulkIntegrity(w, a);
    } else {
      IntegrityStep(w, a);
    }
    BalancedStep(w, a);
    KeysStep(w, a);
  }

  /** A token is never both held and lost. */
  lemma KeysStep(w: World, a: Action)
    requires Inv(w) && Enabled(w, a)
    ensures Apply(w, a).held.Keys !! Apply(w, a).lost.Keys
  {
    if a.LinkAttachment? || a.LinkFails? || a.LinkRaw? || a.LinkRawFails? || a.Release? || a.ReleaseFails? {
      KeysSpent(w, a);
    } else if a.HealRaw? || a.HealAttachment? || a.ForgetAttachment? || a.Acquire? || a.ExpireRaw? {
      KeysTaken(w, a);
    } else if !a.Crash? {
      NoTokenMoves(w, a);
      NoLossElsewhere(w, a);
    }
  }

  lemma KeysSpent(w: World, a: Action)
    requires w.held.Keys !! w.lost.Keys && Enabled(w, a)
    requires a.LinkAttachment? || a.LinkFails? || a.LinkRaw? || a.LinkRawFails? || a.Release? || a.ReleaseFails?
    ensures Apply(w, a).held.Keys !! Apply(w, a).lost.Keys
  {
  }

  lemma KeysTaken(w: World, a: Action)
    requires w.held.Keys !! w.lost.Keys && Enabled(w, a)
    requires a.HealRaw? || a.HealAttachment? || a.ForgetAttachment? || a.Acquire? || a.ExpireRaw?
    ensures Apply(w, a).held.Keys !! Apply(w, a).lost.Keys
  {
  }

  lemma BalancedStep(w: World, a: Action)
    requires Inv(w) && Enabled(w, a)
    ensures Balanced(Apply(w, a))
  {
    match a
    case WriteFile(_, _) =>
    case AcquireFails(_) =>
    case Acquire(j, sha, size, id, p) => AcquireStep(w, j, sha, size, id, p);
    case LinkRaw(j, at) => LinkRawStep(w, j, at);
    case Release(j) => ReleaseStep(w, j);
    case HealRaw(j, m) => HealRawStep(w, j, m);
    case HealAttachment(_, _) => HealAttachmentStep(w, a);
    case ForgetAttachment(_, _) => HealAttachmentStep(w, a);
    case ExpireRaw(sweep, cutoff) => ExpireRawStep(w, sweep, cutoff);
    case WipeFolder(f) => WipeStep(w, f);
    case RemoveAccount(acc) => RemoveAccountStep(w, acc);
    case InsertMessage(id, m, atts) => InsertMessageStep(w, id, m, atts);
    case OtherTransaction(t) => OtherStep(w, t);
    case ListZero(_, _) =>
    case Unlink(_, _) =>
    case DeleteRow(g) => DeleteRowStep(w, g);
    case Crash => CrashStep(w);
    case _ => HoldingStep(w, a);
  }

  lemma ReachableInv(w: World)
    requires Reachable(w)
    ensures Inv(w)
  {
    forall x, a, y | Inv(x) && Next(x, a, y) ensures Inv(y) {
      InvStep(x, a);
    }
    Runs.InvariantReachable(Initial, Next, Inv, w);
  }

  // ---------------------------------------------------------------- theorems

  /** The reference ledger, over every interleaving and every crash. */
  lemma LedgerBalances(w: World, b: Id)
    requires Reachable(w) && b in w.db.blobs
    ensures w.db.blobs[b].refcount
         == Links(w.db, b) + Refs(w.held, TokenBlob, b) + Refs(w.lost, LostBlob, b)
    ensures w.db.blobs[b].refcount >= Links(w.db, b) >= 0
  {
    ReachableInv(w);
    assert RefCount(w.db, b) == Claims(w, b);
  }

  /** Every link and every held token names a blob row that exists, so a release
      never misses and always leaves a count of at least zero. */
  lemma NoDanglingReference(w: World)
    requires Reachable(w)
    ensures forall a :: a in w.db.attachments && w.db.attachments[a].blob.Some? ==>
      w.db.attachments[a].blob.value in w.db.blobs
    ensures forall m :: m in w.db.messages && w.db.messages[m].raw.Some? ==> w.db.messages[m].raw.value in w.db.blobs
    ensures forall j :: j in w.held ==> w.held[j].blob in w.db.blobs && w.db.blobs[w.held[j].blob].refcount >= 1
  {
    ReachableInv(w);
    forall a | a in w.db.attachments && w.db.attachments[a].blob.Some?
      ensures w.db.attachments[a].blob.value in w.db.blobs
    {
      var b := w.db.attachments[a].blob.value;
      RefsPositive(w.db.attachments, AttachmentBlob, a, b);
      assert RefCount(w.db, b) == Claims(w, b);
    }
    forall m | m in w.db.messages && w.db.messages[m].raw.Some?
      ensures w.db.messages[m].raw.value in w.db.blobs
    {
      var b := w.db.messages[m].raw.value;
      RefsPositive(w.db.messages, RawBlob, m, b);
      assert RefCount(w.db, b) == Claims(w, b);
    }
    forall j | j in w.held
      ensures w.held[j].blob in w.db.blobs && w.db.blobs[w.held[j].blob].refcount >= 1
    {
      RefsPositive(w.held, TokenBlob, j, w.held[j].blob);
      assert RefCount(w.db, w.held[j].blob) == Claims(w, w.held[j].blob);
    }
  }

  /** Whatever happened between enumeration, unlink and delete: the row the collector
      removes has no link, no token and no lost reference, so the foreign keys of the
      attachment and raw columns see nothing to restrict or to set to NULL. */
  lemma CollectorSafe(w: World, g: nat, b: Id)
    requires Reachable(w) && Enabled(w, DeleteRow(g))
    requires b in w.db.blobs && b !in Apply(w, DeleteRow(g)).db.blobs
    ensures forall a :: a in w.db.attachments ==> w.db.attachments[a].blob != Some(b)
    ensures forall m :: m in w.db.messages ==> w.db.messages[m].raw != Some(b)
    ensures forall j :: j in w.held ==> w.held[j].blob != b
    ensures forall j :: j in w.lost ==> w.lost[j] != b
  {
    LedgerBalances(w, b);
    assert Refs(w.db.attachments, AttachmentBlob, b) == Refs(w.db.messages, RawBlob, b) == 0;
    assert Refs(w.held, TokenBlob, b) == Refs(w.lost, LostBlob, b) == 0;
    forall a | a in w.db.attachments ensures w.db.attachments[a].blob != Some(b) {
      assert a !in Referrers(w.db.attachments, AttachmentBlob, b);
    }
    forall m | m in w.db.messages ensures w.db.messages[m].raw != Some(b) {
      assert m !in Referrers(w.db.messages, RawBlob, b);
    }
    forall j | j in w.held ensures w.held[j].blob != b {
      assert j !in Referrers(w.held, TokenBlob, b);
    }
    forall j | j in w.lost ensures w.lost[j] != b {
      assert j !in Referrers(w.lost, LostBlob, b);
    }
  }

  lemma BulkKeepsBlobRows(db: Db, id: Id)
    ensures DeleteMessagesByFolder(db, id).blobs.Keys == db.blobs.Keys
    ensures DeleteAccount(db, id).0.blobs.Keys == db.blobs.Keys
  {
  }

  lemma LinksKeepBlobs(db: Db, row: Id, blob: Id, at: int)
    ensures UpdateAttachmentDownloaded(db, row, blob).blobs == db.blobs
    ensures SetMessageRawBlob(db, row, blob, at).Ok? ==> SetMessageRawBlob(db, row, blob, at).value.0.blobs == db.blobs
    ensures ClearMessageRawBlob(db, row).Ok? ==> ClearMessageRawBlob(db, row).value.0.blobs == db.blobs
    ensures ClearAttachmentBlob(db, row).Ok? ==> ClearAttachmentBlob(db, row).value.0.blobs == db.blobs
  {
  }

  lemma LinkRawKeepsBlobs(w: World, j: Job, at: int)
    requires Enabled(w, LinkRaw(j, at))
    ensures Apply(w, LinkRaw(j, at)).db.blobs == w.db.blobs
  {
    LinksKeepBlobs(w.db, w.held[j].purpose.msg, w.held[j].blob, at);
  }

  lemma LinkAttachmentKeepsBlobs(w: World, j: Job)
    requires Enabled(w, LinkAttachment(j))
    ensures Apply(w, LinkAttachment(j)).db.blobs == w.db.blobs
  {
    LinksKeepBlobs(w.db, w.held[j].purpose.att, w.held[j].blob, 0);
  }

  lemma HealKeepsBlobs(w: World, a: Action)
    requires Enabled(w, a) && (a.HealRaw? || a.HealAttachment? || a.ForgetAttachment?)
    ensures Apply(w, a).db.blobs == w.db.blobs
  {
    LinksKeepBlobs(w.db, if a.HealRaw? then a.msg else a.att, 0, 0);
  }

  /** No other step removes a blob row. */
  lemma OnlyTheCollectorDeletes(w: World, a: Action, b: Id)
    requires Enabled(w, a)
    ensures b in w.db.blobs && b !in Apply(w, a).db.blobs ==> a.DeleteRow? && w.db.blobs[b].refcount == 0
  {
    match a
    case WipeFolder(f) => BulkKeepsBlobRows(w.db, f);
    case RemoveAccount(acc) => BulkKeepsBlobRows(w.db, acc);
    case LinkRaw(j, at) => LinkRawKeepsBlobs(w, j, at);
    case LinkAttachment(j) => LinkAttachmentKeepsBlobs(w, j);
    case HealRaw(_, _) => HealKeepsBlobs(w, a);
    case HealAttachment(_, _) => HealKeepsBlobs(w, a);
    case ForgetAttachment(_, _) => HealKeepsBlobs(w, a);
    case _ =>
  }

  /** The statements at which a reference can be lost, and nowhere else. */
  predicate MayLose(w: World, a: Action)
  {
    match a
    // UpdateAttachmentDownloaded on a vanished row, or over an existing link
    case LinkAttachment(j) =>
      Holds(w, j) && w.held[j].purpose.ForAttachment?
      && (w.held[j].purpose.att in w.db.attachments ==> w.db.attachments[w.held[j].purpose.att].blob.Some?)
    // the downloader's uncompensated error path
    case LinkFails(j) => Holds(w, j) && w.held[j].purpose.ForAttachment? && !w.held[j].purpose.compensate
    // a swallowed DecBlobRef error
    case ReleaseFails(_) => true
    // a ClearAttachmentBlob whose result is discarded
    case ForgetAttachment(_, att) => att in w.db.attachments && w.db.attachments[att].blob.Some?
    case Crash => w.held != map[]
    case _ => false
  }

  lemma LossesIdentified(w: World, a: Action)
    requires Reachable(w) && Enabled(w, a)
    ensures Apply(w, a).lost != w.lost <==> MayLose(w, a)
    ensures w.lost.Keys <= Apply(w, a).lost.Keys
  {
    ReachableInv(w);
    if a.Release? {
      NoDanglingReference(w);
    } else if a.LinkAttachment? || a.LinkFails? || a.ReleaseFails? || a.ForgetAttachment? {
      LossByToken(w, a);
    } else if a.Crash? {
      LossByCrash(w);
    } else {
      NoLossElsewhere(w, a);
    }
  }

  lemma LossByToken(w: World, a: Action)
    requires Inv(w) && Enabled(w, a)
    requires a.LinkAttachment? || a.LinkFails? || a.ReleaseFails? || a.ForgetAttachment?
    ensures Apply(w, a).lost != w.lost <==> MayLose(w, a)
    ensures w.lost.Keys <= Apply(w, a).lost.Keys
  {
    assert a.j !in w.lost;
    assert MayLose(w, a) ==> a.j in Apply(w, a).lost;
  }

  lemma LossByCrash(w: World)
    requires Inv(w)
    ensures Apply(w, Crash).lost != w.lost <==> w.held != map[]
    ensures w.lost.Keys <= Apply(w, Crash).lost.Keys
  {
    var lost := Apply(w, Crash).lost;
    if w.held != map[] {
      var j :| j in w.held;
      assert j in lost && j !in w.lost;
    } else {
      assert lost == w.lost;
    }
  }

  lemma NoLossElsewhere(w: World, a: Action)
    requires Enabled(w, a)
    requires !a.Release? && !a.LinkAttachment? && !a.LinkFails? && !a.ReleaseFails? && !a.ForgetAttachment? && !a.Crash?
    ensures Apply(w, a).lost == w.lost && !MayLose(w, a)
  {
  }

  /** Steps of the raw path (capture, lazy fetch, healing read, retention sweep)
      whose decrements succeed. */
  predicate RawPath(w: World, a: Action)
  {
    match a
    case Acquire(_, _, _, _, p) => p.ForRaw?
    case LinkRaw(_, _) => true
    case LinkRawFails(_) => true
    case Release(_) => true
    case HealRaw(_, _) => true
    case ExpireRaw(_, _) => true
    case _ => false
  }

  lemma RawPathLosesNothing(w: World, a: Action)
    requires Reachable(w) && Enabled(w, a) && RawPath(w, a)
    ensures Apply(w, a).lost == w.lost
  {
    LossesIdentified(w, a);
  }

  /** With every procedure finished and nothing lost, refcount is the link count. */
  lemma QuiescentCountIsLinks(w: World, b: Id)
    requires Reachable(w) && w.held == map[] && w.lost == map[] && b in w.db.blobs
    ensures w.db.blobs[b].refcount == Links(w.db, b)
  {
    LedgerBalances(w, b);
    assert Referrers(w.held, TokenBlob, b) == {} && Referrers(w.lost, LostBlob, b) == {};
  }

  // ------------------------------------------------------------ healing reads

  /** The token named j is given back, lost or swept away by a crash. */
  predicate Spends(a: Action, j: Job)
  {
    a == Release(j) || a == ReleaseFails(j) || a == Crash
  }

  lemma TokenStays(w: World, a: Action, j: Job)
    requires Enabled(w, a) && !Spends(a, j)
    requires j in w.held && w.held[j].purpose == ToRelease
    ensures j in Apply(w, a).held && Apply(w, a).held[j] == w.held[j]
  {
    if a.LinkAttachment? || a.LinkFails? || a.LinkRaw? || a.LinkRawFails? || a.Release? || a.ReleaseFails? {
      OthersSpend(w, a, j);
    } else if a.HealRaw? || a.HealAttachment? || a.ForgetAttachment? || a.Acquire? || a.ExpireRaw? {
      OthersTake(w, a, j);
    } else {
      NoTokenMoves(w, a);
    }
  }

  lemma OthersSpend(w: World, a: Action, j: Job)
    requires Enabled(w, a) && j in w.held && w.held[j].purpose == ToRelease && !Spends(a, j)
    requires a.LinkAttachment? || a.LinkFails? || a.LinkRaw? || a.LinkRawFails? || a.Release? || a.ReleaseFails?
    ensures j in Apply(w, a).held && Apply(w, a).held[j] == w.held[j]
  {
    assert a.j != j;
  }

  lemma OthersTake(w: World, a: Action, j: Job)
    requires Enabled(w, a) && j in w.held
    requires a.HealRaw? || a.HealAttachment? || a.ForgetAttachment? || a.Acquire? || a.ExpireRaw?
    ensures j in Apply(w, a).held && Apply(w, a).held[j] == w.held[j]
  {
  }

  lemma NoTokenMoves(w: World, a: Action)
    requires Enabled(w, a)
    requires a.WriteFile? || a.AcquireFails? || a.WipeFolder? || a.RemoveAccount? || a.InsertMessage?
          || a.OtherTransaction? || a.ListZero? || a.Unlink? || a.DeleteRow?
    ensures Apply(w, a).held == w.held
  {
  }

  lemma {:induction false} TokenStaysRun(w: World, acts: seq<Action>, v: World, j: Job)
    requires Runs.Run(Next, w, acts, v) && forall i :: 0 <= i < |acts| ==> !Spends(acts[i], j)
    requires j in w.held && w.held[j].purpose == ToRelease
    ensures j in v.held && v.held[j] == w.held[j]
    decreases |acts|
  {
    if acts != [] {
      var m :| Next(w, acts[0], m) && Runs.Run(Next, m, acts[1..], v);
      TokenStays(w, acts[0], j);
      TokenStaysRun(m, acts[1..], v, j);
    }
  }

  /** Exactly one reference is given back: to this blob, and by this token. */
  ghost predicate GivesBackOne(w: World, v: World, j: Job, b: Id)
  {
    && b in w.db.blobs
    && v == w.(db := w.db.(blobs := w.db.blobs[b := w.db.blobs[b].(refcount := w.db.blobs[b].refcount - 1)]),
               held := w.held - {j})
  }

  lemma HeldTokenReleases(w: World, j: Job)
    requires Reachable(w) && j in w.held && w.held[j].purpose == ToRelease
    ensures Enabled(w, Release(j)) && GivesBackOne(w, Apply(w, Release(j)), j, w.held[j].blob)
  {
    NoDanglingReference(w);
  }

  lemma HealTakesToken(w: World, a: Action, j: Job, b: Id)
    requires Enabled(w, a) && (a.HealRaw? || a.HealAttachment?) && a.j == j && HealedLink(w, a) == Some(b)
    ensures var v := Apply(w, a);
      && HealedLink(v, a) == None && Links(v.db, b) == Links(w.db, b) - 1
      && v.held == w.held[j := Token(b, ToRelease)] && v.db.blobs == w.db.blobs
    ensures a.HealAttachment? ==>
      a.att in Apply(w, a).db.attachments
      && Apply(w, a).db.attachments[a.att] == w.db.attachments[a.att].(blob := None, localPath := None)
  {
    if a.HealRaw? {
      RefsUpdate(w.db.messages, RawBlob, a.msg, w.db.messages[a.msg].(raw := None, rawAt := None), b);
    } else {
      RefsUpdate(w.db.attachments, AttachmentBlob, a.att, w.db.attachments[a.att].(blob := None, localPath := None), b);
    }
  }

  /** The link a healing read finds. */
  function HealedLink(w: World, a: Action): Option<Id>
    requires a.HealRaw? || a.HealAttachment?
  {
    if a.HealRaw? then (if a.msg in w.db.messages then w.db.messages[a.msg].raw else None)
    else if a.att in w.db.attachments then w.db.attachments[a.att].blob else None
  }

  /** The world after the transaction of a healing read that finds a link. */
  function Healed(w: World, a: Action): World
    requires (a.HealRaw? || a.HealAttachment?) && HealedLink(w, a).Some?
  {
    var token := Token(HealedLink(w, a).value, ToRelease);
    if a.HealRaw? then w.(db := ClearMessageRawBlob(w.db, a.msg).value.0, held := w.held[a.j := token])
    else w.(db := ClearAttachmentBlob(w.db, a.att).value.0, held := w.held[a.j := token])
  }

  lemma HealedIs(w: World, a: Action)
    requires (a.HealRaw? || a.HealAttachment?) && Unused(w, a.j) && HealedLink(w, a).Some?
    ensures Enabled(w, a) && Healed(w, a) == Apply(w, a)
  {
  }

  /** A healing read takes its link away at once, and whatever runs before its release,
      the release then gives back exactly one reference to the blob that was linked. */
  lemma HealGivesBackOne(w: World, a: Action, j: Job, b: Id, acts: seq<Action>, v: World)
    requires Reachable(w) && Unused(w, j)
    requires (a.HealRaw? || a.HealAttachment?) && a.j == j && HealedLink(w, a) == Some(b)
    requires Runs.Run(Next, Healed(w, a), acts, v) && forall i :: 0 <= i < |acts| ==> !Spends(acts[i], j)
    ensures Enabled(w, a) && Healed(w, a) == Apply(w, a)
    ensures HealedLink(Apply(w, a), a) == None && Links(Apply(w, a).db, b) == Links(w.db, b) - 1
    ensures a.HealAttachment? ==>
      a.att in Apply(w, a).db.attachments
      && Apply(w, a).db.attachments[a.att] == w.db.attachments[a.att].(blob := None, localPath := None)
    ensures Enabled(v, Release(j)) && GivesBackOne(v, Apply(v, Release(j)), j, b)
  {
    HealedIs(w, a);
    var h := Apply(w, a);
    HealTakesToken(w, a, j, b);
    Runs.ReachStep(Initial, Next, w, a, h);
    TokenStaysRun(h, acts, v, j);
    Runs.ReachRun(Initial, Next, h, acts, v);
    HeldTokenReleases(v, j);
  }

  // ------------------------------------- bulk drain against per-row release

  /** DecBlobRef once for each listed row, in order. */
  function ReleaseEach<K, V>(blobs: map<Id, Blob>, rows: map<K, V>,
      column: V -> Option<Id>, order: seq<K>): (r: map<Id, Blob>)
    requires forall k :: k in order ==> k in rows
    ensures r.Keys == blobs.Keys
  {
    if order == [] then blobs
    else
      var rest := ReleaseEach(blobs, rows, column, order[1..]);
      var link := column(rows[order[0]]);
      if link.Some? && link.value in rest then
        rest[link.value := rest[link.value].(refcount := rest[link.value].refcount - 1)]
      else rest
  }

  lemma {:induction false} ReleaseEachCount<K, V>(blobs: map<Id, Blob>, rows: map<K, V>,
      column: V -> Option<Id>, order: seq<K>, b: Id)
    requires forall k :: k in order ==> k in rows
    requires forall i, j :: 0 <= i < j < |order| ==> order[i] != order[j]
    requires b in blobs
    ensures ReleaseEach(blobs, rows, column, order)[b]
         == blobs[b].(refcount := blobs[b].refcount - |Referrers(rows, column, b) * (set k | k in order)|)
    decreases |order|
  {
    if order == [] {
      assert Referrers(rows, column, b) * (set k | k in order) == {};
    } else {
      ReleaseEachCount(blobs, rows, column, order[1..], b);
      OneMore(Referrers(rows, column, b), order);
      ReleaseFirst(blobs, rows, column, order, b);
    }
  }

  lemma ReleaseFirst<K, V>(blobs: map<Id, Blob>, rows: map<K, V>, column: V -> Option<Id>, order: seq<K>, b: Id)
    requires order != [] && (forall k :: k in order ==> k in rows) && b in blobs
    ensures ReleaseEach(blobs, rows, column, order)[b]
         == var rest := ReleaseEach(blobs, rows, column, order[1..])[b];
            rest.(refcount := rest.refcount - One(order[0] in Referrers(rows, column, b)))
  {
  }

  lemma OneMore<K>(s: set<K>, order: seq<K>)
    requires order != [] && forall i :: 0 < i < |order| ==> order[i] != order[0]
    ensures |s * (set k | k in order)| == |s * (set k | k in order[1..])| + One(order[0] in s)
  {
    var all, rest := set k | k in order, set k | k in order[1..];
    var part := s * rest;
    assert order[0] !in rest;
    forall k ensures k in s * all <==> k in (if order[0] in s then part + {order[0]} else part) {
      assert k in order <==> k == order[0] || k in order[1..];
    }
    assert s * all == if order[0] in s then part + {order[0]} else part;
  }

  /** The grouped UPDATE is the same as releasing row by row, in any order. */
  lemma DrainIsPerRowRelease<K, V>(blobs: map<Id, Blob>, rows: map<K, V>,
      column: V -> Option<Id>, keys: set<K>, order: seq<K>)
    requires keys <= rows.Keys && keys == set k | k in order
    requires forall i, j :: 0 <= i < j < |order| ==> order[i] != order[j]
    ensures DrainRefs(blobs, rows, column, keys) == ReleaseEach(blobs, rows, column, order)
  {
    forall b | b in blobs
      ensures DrainRefs(blobs, rows, column, keys)[b] == ReleaseEach(blobs, rows, column, order)[b]
    {
      ReleaseEachCount(blobs, rows, column, order, b);
    }
  }

  lemma Take(w: World, a: Action) returns (v: World)
    requires Reachable(w) && Enabled(w, a)
    ensures Reachable(v) && v == Apply(w, a)
  {
    v := Apply(w, a);
    Runs.ReachStep(Initial, Next, w, a, v);
  }
}
