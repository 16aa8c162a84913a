/**
 * Synchronising one folder, as a transition system within one UIDVALIDITY epoch:
 * the server (appends, flag changes, expunges, MODSEQ counter), the sync pass
 * (SELECT, MAX(uid), UID SEARCH, chunked FETCH with an ack barrier, CONDSTORE
 * flag deltas), the writer's FIFO queue, and the rows of the database.
 *
 * A pass may be abandoned at any point; what it queued stays queued.  The
 * process may crash, which empties the queue.  Passes on one folder do not
 * overlap.
 */
module FolderSync {
  import opened Common
  import Runs

  type Uid = nat
  type Flags = seq<string>

  datatype Copy = Copy(flags: Flags, modseq: nat)

  datatype Server = Server(mail: map<Uid, Copy>, uidNext: Uid, highest: nat)

  /** A fetched message on its way to the writer.  `asOf` is a history variable:
      the server's MODSEQ counter when the flags were read. */
  datatype Item = Item(uid: Uid, flags: Flags, asOf: nat, own: bool)

  /** A message row.  `edited` marks flags changed locally since the last server read. */
  datatype Row = Row(flags: Flags, asOf: nat, edited: bool)

  datatype Pass =
    | NoPass
    | Selected(h: nat)
    | Located(h: nat, cursor: Uid)
    | Fetching(h: nat, cursor: Uid, uids: seq<Uid>, lo: nat, delivered: set<Uid>)
    | Deltas(h: nat, since: nat, reported: set<Uid>)

  datatype State = State(
    server: Server,
    rows: map<Uid, Row>,
    watermark: nat,          // folders.highest_modseq
    baseline: nat,           // history: the first watermark recorded
    queue: seq<Item>,        // the writer's channel
    blemished: set<Uid>,     // history: insert failed, or overtaken inside a FETCH
    pass: Pass)

  datatype Action =
    // the server and the user
    | Append(uid: Uid, flags: Flags) | SetFlags(uid: Uid, flags: Flags) | Expunge(uid: Uid)
    | LocalEdit(uid: Uid, flags: Flags)
    // the pass; condstore tells whether the server reports HIGHESTMODSEQ
    | Select(condstore: bool) | ReadMax(cursor: Uid) | Search(uids: seq<Uid>)
    | FetchRow(uid: Uid) | ChunkDone | FetchDone | DeltaRow(uid: Uid) | DeltaDone
    | Abandon | Crash
    // the writer; ok tells whether parsing and inserting the head succeeds
    | Process(ok: bool)

  /** The filtered answer to UID SEARCH above the cursor. */
  predicate IsSearchResult(uids: seq<Uid>, mail: map<Uid, Copy>, cursor: Uid)
  {
    Ascending(uids)
    && (forall u :: u in uids ==> u in mail && cursor < u)
    && (forall u :: u in mail && cursor < u ==> u in uids)
  }

  /** COALESCE(MAX(uid), 0). */
  predicate IsMaxUid(rows: map<Uid, Row>, cursor: Uid)
  {
    (cursor in rows || (rows == map[] && cursor == 0)) && forall u :: u in rows ==> u <= cursor
  }

  function ChunkEnd(uids: seq<Uid>, lo: nat): (hi: nat)
    requires lo <= |uids|
    ensures lo <= hi <= |uids| && hi - lo <= FETCH_BATCH_SIZE
  {
    if lo + FETCH_BATCH_SIZE < |uids| then lo + FETCH_BATCH_SIZE else |uids|
  }

  function Chunk(p: Pass): seq<Uid>
    requires p.Fetching?
  {
    if p.lo <= |p.uids| then p.uids[p.lo..ChunkEnd(p.uids, p.lo)] else []
  }

  predicate OwnQueued(queue: seq<Item>)
  {
    exists i :: 0 <= i < |queue| && queue[i].own
  }

  function Disowned(queue: seq<Item>): (r: seq<Item>)
    ensures |r| == |queue|
    ensures forall i :: 0 <= i < |queue| ==> r[i] == queue[i].(own := false)
  {
    seq(|queue|, i requires 0 <= i < |queue| => queue[i].(own := false))
  }

  /** SetFolderHighestModSeq: writes only a greater value. */
  function Advance(stored: nat, modseq: nat): (r: nat)
    ensures r >= stored && r >= modseq && (r == stored || r == modseq)
  {
    if stored < modseq then modseq else stored
  }

  predicate Enabled(s: State, a: Action)
  {
    match a
    case Append(u, _) => s.server.uidNext <= u
    case SetFlags(u, _) => u in s.server.mail
    case Expunge(u) => u in s.server.mail
    case LocalEdit(u, _) => u in s.rows
    case Select(_) => s.pass.NoPass?
    case ReadMax(c) => s.pass.Selected? && IsMaxUid(s.rows, c)
    case Search(uids) => s.pass.Located? && IsSearchResult(uids, s.server.mail, s.pass.cursor)
    case FetchRow(u) => s.pass.Fetching? && u in Chunk(s.pass) && u in s.server.mail && u !in s.pass.delivered
    // FETCH has returned a row for every live member, and every ack is in
    case ChunkDone => s.pass.Fetching? && s.pass.lo < |s.pass.uids| && !OwnQueued(s.queue)
      && forall u :: u in Chunk(s.pass) && u in s.server.mail ==> u in s.pass.delivered
    case FetchDone => s.pass.Fetching? && s.pass.lo >= |s.pass.uids|
    case DeltaRow(u) => s.pass.Deltas? && u in s.server.mail && s.pass.since < s.server.mail[u].modseq
    // CHANGEDSINCE has reported every message last changed in (since, h]
    case DeltaDone => s.pass.Deltas?
      && forall u :: u in s.server.mail && s.pass.since < s.server.mail[u].modseq <= s.pass.h ==> u in s.pass.reported
    case Abandon => true
    case Crash => true
    case Process(_) => s.queue != []
  }

  /** Members of the chunk still owed by the FETCH that a row for u overtakes. */
  function Overtaken(s: State, u: Uid): set<Uid>
    requires s.pass.Fetching?
  {
    set v | v in Chunk(s.pass) && v in s.server.mail && v !in s.pass.delivered && v < u
  }

  function Apply(s: State, a: Action): State
    requires Enabled(s, a)
  {
    var srv := s.server;
    match a
    case Append(u, fl) =>
      s.(server := Server(srv.mail[u := Copy(fl, srv.highest + 1)], u + 1, srv.highest + 1))
    case SetFlags(u, fl) =>
      s.(server := srv.(mail := srv.mail[u := Copy(fl, srv.highest + 1)], highest := srv.highest + 1))
    case Expunge(u) =>
      s.(server := srv.(mail := srv.mail - {u}, highest := srv.highest + 1))
    case LocalEdit(u, fl) =>
      s.(rows := s.rows[u := s.rows[u].(flags := fl, edited := true)])
    case Select(condstore) => s.(pass := Selected(if condstore then srv.highest else 0))
    case ReadMax(c) => s.(pass := Located(s.pass.h, c))
    case Search(uids) => s.(pass := Fetching(s.pass.h, s.pass.cursor, uids, 0, {}))
    case FetchRow(u) =>
      s.(queue := s.queue + [Item(u, srv.mail[u].flags, srv.highest, true)],
         blemished := s.blemished + Overtaken(s, u),
         pass := s.pass.(delivered := s.pass.delivered + {u}))
    case ChunkDone => s.(pass := s.pass.(lo := ChunkEnd(s.pass.uids, s.pass.lo), delivered := {}))
    case FetchDone =>
      if s.pass.h == 0 then s.(pass := NoPass)
      else if s.watermark == 0 then
        s.(watermark := Advance(0, s.pass.h), baseline := s.pass.h, pass := NoPass)
      else if s.watermark >= s.pass.h then s.(pass := NoPass)
      else s.(pass := Deltas(s.pass.h, s.watermark, {}))
    case DeltaRow(u) =>
      s.(rows := if u in s.rows then s.rows[u := Row(srv.mail[u].flags, srv.highest, false)] else s.rows,
         pass := s.pass.(reported := s.pass.reported + {u}))
    case DeltaDone => s.(watermark := Advance(s.watermark, s.pass.h), pass := NoPass)
    case Abandon => s.(queue := Disowned(s.queue), pass := NoPass)
    case Crash => s.(queue := [], pass := NoPass)
    case Process(ok) =>
      var m := s.queue[0];
      var rest := s.(queue := s.queue[1..]);
      if m.uid in s.rows then rest                       // UNIQUE violation
      else if ok then rest.(rows := s.rows[m.uid := Row(m.flags, m.asOf, false)])
      else rest.(blemished := s.blemished + {m.uid})
  }

  /** An empty local folder against any well-formed server. */
  ghost predicate Initial(s: State)
  {
    ServerOk(s.server) && s == State(s.server, map[], 0, 0, [], {}, NoPass)
  }

  ghost predicate Next(s: State, a: Action, t: State)
  {
    Enabled(s, a) && t == Apply(s, a)
  }

  ghost predicate Reachable(s: State)
  {
    Runs.Reachable(Initial, Next, s)
  }

  // --------------------------------------------------------------- invariant

  ghost predicate ServerOk(srv: Server)
  {
    0 < srv.uidNext
    && forall u :: u in srv.mail ==> 0 < u < srv.uidNext && 0 < srv.mail[u].modseq <= srv.highest
  }

  /** Live on the server and never blemished. */
  predicate Clear(s: State, u: Uid)
  {
    u in s.server.mail && u !in s.blemished
  }

  /** Flags read at `asOf` are still right for a message not changed since. */
  predicate TrueAsOf(srv: Server, u: Uid, flags: Flags, asOf: nat)
  {
    u in srv.mail && srv.mail[u].modseq <= asOf ==> srv.mail[u].flags == flags
  }

  predicate Past(srv: Server, u: Uid, asOf: nat)
  {
    u < srv.uidNext && asOf <= srv.highest
  }

  ghost predicate RowsTrue(s: State)
  {
    forall u :: u in s.rows ==>
      Past(s.server, u, s.rows[u].asOf) && (s.rows[u].edited || TrueAsOf(s.server, u, s.rows[u].flags, s.rows[u].asOf))
  }

  ghost predicate QueueTrue(s: State)
  {
    forall i :: 0 <= i < |s.queue| ==>
      && Past(s.server, s.queue[i].uid, s.queue[i].asOf)
      && TrueAsOf(s.server, s.queue[i].uid, s.queue[i].flags, s.queue[i].asOf)
  }

  ghost predicate Truthful(s: State)
  {
    ServerOk(s.server) && RowsTrue(s) && QueueTrue(s)
  }

  ghost predicate Ahead(queue: seq<Item>, i: nat, u: Uid)
    requires i <= |queue|
  {
    exists j :: 0 <= j < i && queue[j].uid == u
  }

  /** The rows are downward closed, and stay so whenever the writer takes the head. */
  ghost predicate Closed(s: State)
  {
    && (forall r: Uid, u: Uid :: r in s.rows && u < r && Clear(s, u) ==> u in s.rows)
    && (forall i, u: Uid :: 0 <= i < |s.queue| && u < s.queue[i].uid && Clear(s, u) ==>
      u in s.rows || Ahead(s.queue, i, u))
  }

  /** Every queued insert that can still matter concerns one of `pending`. */
  ghost predicate QueueWithin(s: State, pending: seq<Uid>)
  {
    forall i :: 0 <= i < |s.queue| && Clear(s, s.queue[i].uid) && s.queue[i].uid !in s.rows ==>
      s.queue[i].uid in pending
  }

  ghost predicate StoredUpTo(s: State, cursor: Uid)
  {
    cursor < s.server.uidNext && forall u: Uid :: Clear(s, u) && u <= cursor ==> u in s.rows
  }

  ghost predicate OwnItem(queue: seq<Item>, u: Uid)
  {
    exists i :: 0 <= i < |queue| && queue[i].uid == u && queue[i].own
  }

  ghost predicate FetchOk(s: State)
    requires s.pass.Fetching?
  {
    var p := s.pass;
    && p.lo <= |p.uids| && Ascending(p.uids)
    && StoredUpTo(s, p.cursor)
    && (forall i :: 0 <= i < |p.uids| ==> p.cursor < p.uids[i] < s.server.uidNext)
    && (forall i, u :: 0 <= i < |p.uids| && u in s.server.mail && p.cursor < u < p.uids[i] ==> u in p.uids)
    && (forall i :: 0 <= i < p.lo && Clear(s, p.uids[i]) ==> p.uids[i] in s.rows)
    && QueueWithin(s, p.uids[p.lo..])
    && (forall u :: u in p.delivered ==> u in Chunk(p) && (Clear(s, u) ==> u in s.rows || OwnItem(s.queue, u)))
  }

  ghost predicate DeltasOk(s: State)
    requires s.pass.Deltas?
  {
    && QueueWithin(s, [])
    && s.pass.since == s.watermark
    && (forall u :: u in s.pass.reported && Clear(s, u) && u in s.rows ==> s.pass.h <= s.rows[u].asOf)
  }

  ghost predicate PassOk(s: State)
  {
    match s.pass
    case NoPass => true
    case Selected(h) => h <= s.server.highest
    case Located(h, c) => h <= s.server.highest && StoredUpTo(s, c)
    case Fetching(h, _, _, _, _) => h <= s.server.highest && FetchOk(s)
    case Deltas(h, _, _) => h <= s.server.highest && DeltasOk(s)
  }

  /** Flags known as of `asOf` cover every change between the baseline and the watermark. */
  ghost predicate Current(s: State, u: Uid, asOf: nat)
  {
    Clear(s, u) && s.baseline < s.server.mail[u].modseq <= s.watermark ==> s.server.mail[u].modseq <= asOf
  }

  ghost predicate Marked(s: State)
  {
    && s.baseline <= s.watermark <= s.server.highest
    && (forall u :: u in s.rows ==> Current(s, u, s.rows[u].asOf))
    && (forall i :: 0 <= i < |s.queue| && s.queue[i].uid !in s.rows ==> Current(s, s.queue[i].uid, s.queue[i].asOf))
  }

  ghost predicate Inv(s: State)
  {
    Truthful(s) && Closed(s) && PassOk(s) && Marked(s)
  }

  lemma RowsTrueStep(s: State, a: Action)
    requires Inv(s) && Enabled(s, a)
    ensures ServerOk(Apply(s, a).server) && RowsTrue(Apply(s, a))
  {
  }

  lemma QueueTrueStep(s: State, a: Action)
    requires Inv(s) && Enabled(s, a)
    ensures QueueTrue(Apply(s, a))
  {
    match a
    case Process(_) =>
    case _ =>
  }

  /** A step that leaves server, rows and the queue's contents alone. */
  lemma QuietStep(s: State, a: Action)
    requires Inv(s) && Enabled(s, a)
    requires a.Select? || a.ReadMax? || a.Search? || a.ChunkDone? || a.Abandon? || a.Crash?
    ensures Closed(Apply(s, a)) && Marked(Apply(s, a))
  {
    var t := Apply(s, a);
    if a.Abandon? {
      forall i, u: Uid | 0 <= i < |s.queue| && Ahead(s.queue, i, u) ensures Ahead(t.queue, i, u) {
        var j :| 0 <= j < i && s.queue[j].uid == u;
        assert t.queue[j].uid == u;
      }
    }
  }

  // The server and the user.

  predicate Outside(a: Action)
  {
    a.Append? || a.SetFlags? || a.Expunge? || a.LocalEdit?
  }

  lemma OutsideKeeps(s: State, a: Action)
    requires Inv(s) && Enabled(s, a) && Outside(a)
    ensures var t := Apply(s, a); forall u: Uid :: u < s.server.uidNext && Clear(t, u) ==> Clear(s, u)
    ensures var t := Apply(s, a); t.rows.Keys == s.rows.Keys
  {
  }

  lemma OutsideClosed(s: State, a: Action)
    requires Inv(s) && Enabled(s, a) && Outside(a)
    ensures Closed(Apply(s, a))
  {
    OutsideKeeps(s, a);
  }

  lemma OutsidePass(s: State, a: Action)
    requires Inv(s) && Enabled(s, a) && Outside(a)
    ensures PassOk(Apply(s, a))
  {
    OutsideKeeps(s, a);
  }

  lemma OutsideMarked(s: State, a: Action)
    requires Inv(s) && Enabled(s, a) && Outside(a)
    ensures Marked(Apply(s, a))
  {
    OutsideKeeps(s, a);
  }

  // The writer.

  lemma ProcessClosed(s: State, ok: bool)
    requires Inv(s) && Enabled(s, Process(ok))
    ensures Closed(Apply(s, Process(ok)))
  {
    var t := Apply(s, Process(ok));
    forall r: Uid, u: Uid | r in t.rows && u < r && Clear(t, u) ensures u in t.rows {
      if r !in s.rows {
        assert r == s.queue[0].uid;
        assert !Ahead(s.queue, 0, u);
      }
    }
    forall i, u: Uid | 0 <= i < |t.queue| && u < t.queue[i].uid && Clear(t, u)
      ensures u in t.rows || Ahead(t.queue, i, u)
    {
      AheadTail(s, ok, i, u);
    }
  }

  lemma AheadTail(s: State, ok: bool, i: nat, u: Uid)
    requires Closed(s) && Enabled(s, Process(ok)) && i + 1 < |s.queue|
    requires u < s.queue[i + 1].uid && Clear(Apply(s, Process(ok)), u)
    ensures var t := Apply(s, Process(ok)); u in t.rows || Ahead(t.queue, i, u)
  {
    var t := Apply(s, Process(ok));
    if u !in s.rows {
      var j :| 0 <= j < i + 1 && s.queue[j].uid == u;
      if j > 0 {
        assert t.queue[j - 1].uid == u;
      }
    }
  }

  lemma ProcessWithin(s: State, ok: bool, pending: seq<Uid>)
    requires Enabled(s, Process(ok)) && QueueWithin(s, pending)
    ensures QueueWithin(Apply(s, Process(ok)), pending)
  {
    var t := Apply(s, Process(ok));
    forall i | 0 <= i < |t.queue| ensures t.queue[i] == s.queue[i + 1] {
    }
  }

  lemma ProcessOwn(s: State, ok: bool, u: Uid)
    requires Enabled(s, Process(ok)) && (Clear(s, u) ==> u in s.rows || OwnItem(s.queue, u))
    ensures var t := Apply(s, Process(ok)); Clear(t, u) ==> u in t.rows || OwnItem(t.queue, u)
  {
    var t := Apply(s, Process(ok));
    if Clear(t, u) && u !in t.rows {
      var i :| 0 <= i < |s.queue| && s.queue[i].uid == u && s.queue[i].own;
      assert t.queue[i - 1] == s.queue[i];
    }
  }

  lemma ProcessPass(s: State, ok: bool)
    requires Inv(s) && Enabled(s, Process(ok))
    ensures PassOk(Apply(s, Process(ok)))
  {
    match s.pass
    case Fetching(_, _, _, _, _) => ProcessFetch(s, ok);
    case Deltas(_, _, _) => ProcessWithin(s, ok, []); ProcessDeltas(s, ok);
    case _ =>
  }

  lemma ProcessFetch(s: State, ok: bool)
    requires Inv(s) && Enabled(s, Process(ok)) && s.pass.Fetching?
    ensures PassOk(Apply(s, Process(ok)))
  {
    var t := Apply(s, Process(ok));
    ProcessWithin(s, ok, s.pass.uids[s.pass.lo..]);
    forall u | u in s.pass.delivered ensures Clear(t, u) ==> u in t.rows || OwnItem(t.queue, u) {
      ProcessOwn(s, ok, u);
    }
    assert StoredUpTo(t, s.pass.cursor);
  }

  lemma ProcessDeltas(s: State, ok: bool)
    requires Inv(s) && Enabled(s, Process(ok)) && s.pass.Deltas? && QueueWithin(Apply(s, Process(ok)), [])
    ensures PassOk(Apply(s, Process(ok)))
  {
    var u := s.queue[0].uid;
    assert Clear(s, u) ==> u in s.rows;
  }

  lemma ProcessMarked(s: State, ok: bool)
    requires Inv(s) && Enabled(s, Process(ok))
    ensures Marked(Apply(s, Process(ok)))
  {
  }

  // The pass.

  lemma FetchRowClosed(s: State, x: Uid)
    requires Inv(s) && Enabled(s, FetchRow(x))
    ensures Closed(Apply(s, FetchRow(x)))
  {
    var t := Apply(s, FetchRow(x));
    forall i, u: Uid | 0 <= i < |t.queue| && u < t.queue[i].uid && Clear(t, u)
      ensures u in t.rows || Ahead(t.queue, i, u)
    {
      if i < |s.queue| {
        assert u in s.rows || Ahead(s.queue, i, u);
        if u !in s.rows {
          var j :| 0 <= j < i && s.queue[j].uid == u;
          assert t.queue[j].uid == u;
        }
      } else {
        BelowFetched(s, x, u);
        if u !in s.rows {
          var j :| 0 <= j < |s.queue| && s.queue[j].uid == u && s.queue[j].own;
          assert t.queue[j].uid == u;
        }
      }
    }
  }

  /** When the row for x arrives, every clear message below x that x does not
      overtake is stored or queued by this pass. */
  lemma BelowFetched(s: State, x: Uid, u: Uid)
    requires Inv(s) && Enabled(s, FetchRow(x)) && u < x && Clear(s, u) && u !in Overtaken(s, x)
    ensures u in s.rows || OwnItem(s.queue, u)
  {
    var p := s.pass;
    if u <= p.cursor {
      assert StoredUpTo(s, p.cursor);
    } else {
      var j := SearchedBelow(s, x, u);
      if j < p.lo {
        assert Clear(s, p.uids[j]);
      } else {
        assert u in p.delivered;
      }
    }
  }

  /** u is among the searched UIDs, in an earlier chunk or in the current one. */
  lemma SearchedBelow(s: State, x: Uid, u: Uid) returns (j: nat)
    requires s.pass.Fetching? && FetchOk(s) && x in Chunk(s.pass)
    requires u in s.server.mail && s.pass.cursor < u < x
    ensures j < |s.pass.uids| && s.pass.uids[j] == u && (j >= s.pass.lo ==> u in Chunk(s.pass))
  {
    var p := s.pass;
    var k: nat :| k < |Chunk(p)| && Chunk(p)[k] == x;
    assert p.uids[p.lo + k] == x;
    assert u in p.uids;
    j := IndexBelow(p.uids, p.lo + k, u);
    if j >= p.lo {
      assert u == Chunk(p)[j - p.lo];
    }
  }

  lemma IndexBelow(uids: seq<Uid>, k: nat, u: Uid) returns (j: nat)
    requires Ascending(uids) && k < |uids| && u in uids && u < uids[k]
    ensures j < k && uids[j] == u
  {
    j :| 0 <= j < |uids| && uids[j] == u;
  }

  lemma FetchRowPass(s: State, x: Uid)
    requires Inv(s) && Enabled(s, FetchRow(x))
    ensures PassOk(Apply(s, FetchRow(x)))
  {
    var t := Apply(s, FetchRow(x));
    var n := |s.queue|;
    assert Chunk(t.pass) == Chunk(s.pass);
    assert t.queue[n].uid == x && t.queue[n].own;
    forall u | u in s.pass.delivered && OwnItem(s.queue, u) ensures OwnItem(t.queue, u) {
      var i :| 0 <= i < |s.queue| && s.queue[i].uid == u && s.queue[i].own;
      assert t.queue[i] == s.queue[i];
    }
    assert x in s.pass.uids[s.pass.lo..];
  }

  lemma FetchRowMarked(s: State, x: Uid)
    requires Inv(s) && Enabled(s, FetchRow(x))
    ensures Marked(Apply(s, FetchRow(x)))
  {
  }

  lemma ChunkDonePass(s: State)
    requires Inv(s) && Enabled(s, ChunkDone)
    ensures PassOk(Apply(s, ChunkDone))
  {
    var t := Apply(s, ChunkDone);
    ChunkStored(s);
    ChunkWithin(s);
    assert FetchOk(t);
  }

  /** The barrier: every ack of the chunk is in, so its messages are stored. */
  lemma ChunkStored(s: State)
    requires s.pass.Fetching? && FetchOk(s) && Enabled(s, ChunkDone)
    ensures forall i :: 0 <= i < ChunkEnd(s.pass.uids, s.pass.lo) && Clear(s, s.pass.uids[i]) ==>
      s.pass.uids[i] in s.rows
  {
    var lo, hi := s.pass.lo, ChunkEnd(s.pass.uids, s.pass.lo);
    forall i | lo <= i < hi && Clear(s, s.pass.uids[i]) ensures s.pass.uids[i] in s.rows {
      assert Chunk(s.pass)[i - lo] == s.pass.uids[i];
    }
  }

  lemma ChunkWithin(s: State)
    requires s.pass.Fetching? && FetchOk(s) && Enabled(s, ChunkDone)
    ensures QueueWithin(s, s.pass.uids[ChunkEnd(s.pass.uids, s.pass.lo)..])
  {
    var hi := ChunkEnd(s.pass.uids, s.pass.lo);
    ChunkStored(s);
    forall i | 0 <= i < |s.queue| && Clear(s, s.queue[i].uid) && s.queue[i].uid !in s.rows
      ensures s.queue[i].uid in s.pass.uids[hi..]
    {
      LaterChunk(s, s.pass.uids, s.pass.lo, hi, s.queue[i].uid);
    }
  }

  lemma LaterChunk(s: State, uids: seq<Uid>, lo: nat, hi: nat, u: Uid)
    requires lo <= hi <= |uids| && u in uids[lo..] && u !in s.rows && Clear(s, u)
    requires forall i :: 0 <= i < hi && Clear(s, uids[i]) ==> uids[i] in s.rows
    ensures u in uids[hi..]
  {
    var k: nat :| k < |uids[lo..]| && uids[lo..][k] == u;
    assert uids[lo + k] == u;
    assert uids[hi..][lo + k - hi] == u;
  }

  lemma SearchPass(s: State, uids: seq<Uid>)
    requires Inv(s) && Enabled(s, Search(uids))
    ensures PassOk(Apply(s, Search(uids)))
  {
    var t := Apply(s, Search(uids));
    forall i | 0 <= i < |uids| ensures s.pass.cursor < uids[i] < s.server.uidNext {
      assert uids[i] in uids;
    }
    assert uids[0..] == uids;
  }

  lemma StartPass(s: State, a: Action)
    requires Inv(s) && Enabled(s, a) && (a.Select? || a.ReadMax? || a.Abandon? || a.Crash?)
    ensures PassOk(Apply(s, a))
  {
  }

  lemma DeltaPass(s: State, a: Action)
    requires Inv(s) && Enabled(s, a) && (a.FetchDone? || a.DeltaRow? || a.DeltaDone?)
    ensures PassOk(Apply(s, a)) && Closed(Apply(s, a))
  {
  }

  lemma DeltaMarked(s: State, a: Action)
    requires Inv(s) && Enabled(s, a) && (a.FetchDone? || a.DeltaRow? || a.DeltaDone?)
    ensures Marked(Apply(s, a))
  {
  }

  lemma InvStep(s: State, a: Action)
    requires Inv(s) && Enabled(s, a)
    ensures Inv(Apply(s, a))
  {
    RowsTrueStep(s, a);
    QueueTrueStep(s, a);
    assert Truthful(Apply(s, a));
    if Outside(a) {
      OutsideClosed(s, a); OutsidePass(s, a); OutsideMarked(s, a);
    } else if a.Process? {
      ProcessClosed(s, a.ok); ProcessPass(s, a.ok); ProcessMarked(s, a.ok);
    } else if a.FetchRow? {
      FetchRowClosed(s, a.uid); FetchRowPass(s, a.uid); FetchRowMarked(s, a.uid);
    } else if a.ChunkDone? {
      ChunkDonePass(s); QuietStep(s, a);
    } else if a.Search? {
      SearchPass(s, a.uids); QuietStep(s, a);
    } else if a.FetchDone? || a.DeltaRow? || a.DeltaDone? {
      DeltaPass(s, a); DeltaMarked(s, a);
    } else {
      StartPass(s, a); QuietStep(s, a);
    }
  }

  lemma ReachableInv(s: State)
    requires Reachable(s)
    ensures Inv(s)
  {
    forall x, a, y | Inv(x) && Next(x, a, y) ensures Inv(y) {
      InvStep(x, a);
    }
    Runs.InvariantReachable(Initial, Next, Inv, s);
  }

  // ---------------------------------------------------------------- theorems

  /** Gap-free resumable sync: below anything stored, a live message is stored too,
      unless its own insert failed or a FETCH row overtook it. */
  lemma GapFree(s: State, r: Uid, u: Uid)
    requires Reachable(s) && r in s.rows
    requires u in s.server.mail && u <= r && u !in s.blemished
    ensures u in s.rows
  {
    ReachableInv(s);
  }

  /** A pass that completes its fetch has stored everything its SEARCH reported
      that is still on the server. */
  lemma CompletePassStores(s: State, u: Uid)
    requires Reachable(s) && s.pass.Fetching? && Enabled(s, FetchDone)
    requires u in s.pass.uids && Clear(s, u)
    ensures u in s.rows
  {
    ReachableInv(s);
    var i :| 0 <= i < |s.pass.uids| && s.pass.uids[i] == u;
  }

  /** The one window the sweeps never look at: the message changed after its row was read
      and at or before the recorded baseline. */
  predicate InBlindWindow(s: State, u: Uid)
    requires u in s.rows && u in s.server.mail
  {
    s.rows[u].asOf < s.server.mail[u].modseq <= s.baseline
  }

  /** Under the watermark a row is up to date with the last change of its message exactly
      when that change is not in the blind window. */
  lemma DriftIff(s: State, u: Uid)
    requires Reachable(s) && u in s.rows && Clear(s, u)
    requires s.server.mail[u].modseq <= s.watermark
    ensures s.server.mail[u].modseq <= s.rows[u].asOf <==> !InBlindWindow(s, u)
  {
    ReachableInv(s);
    assert Current(s, u, s.rows[u].asOf);
  }

  /** How the stored rows change.  An insert adds a delivered message as it was read and never
      touches a row that is there; a delta of the sweep gives a stored row the flags of the
      server and ends a local edit; a local edit marks its row.  Nothing else. */
  lemma RowsFollow(s: State, a: Action, t: State, u: Uid)
    requires Next(s, a, t)
    ensures u in s.rows ==> u in t.rows && (t.rows[u] == s.rows[u] || a.DeltaRow? || a.LocalEdit?)
    ensures u in s.rows && a.DeltaRow? ==>
      && u in t.rows
      && t.rows[u] == if a.uid == u then Row(s.server.mail[u].flags, s.server.highest, false) else s.rows[u]
    ensures u in s.rows && a.LocalEdit? ==>
      && u in t.rows
      && t.rows[u] == if a.uid == u then s.rows[u].(flags := a.flags, edited := true) else s.rows[u]
    ensures u in t.rows && u !in s.rows ==>
      && a.Process? && a.ok && s.queue[0].uid == u
      && t.rows[u] == Row(s.queue[0].flags, s.queue[0].asOf, false)
  {
  }

  /** What a pass has delivered outlives the pass and its session: a queued message stays
      queued until it is stored or its insert fails, and only a crash drops it. */
  lemma DeliveredKept(s: State, a: Action, t: State, i: nat)
    requires Next(s, a, t) && !a.Crash? && i < |s.queue|
    ensures s.queue[i].uid in t.rows || (a.Process? && !a.ok && i == 0) || Ahead(t.queue, |t.queue|, s.queue[i].uid)
    ensures a.Process? && !a.ok && s.queue[0].uid !in s.rows ==> s.queue[0].uid in t.blemished
  {
    if a.Process? {
      assert i > 0 ==> t.queue[i - 1] == s.queue[i];
    } else {
      assert t.queue[i].uid == s.queue[i].uid;
    }
  }

  /** Flag watermark soundness. */
  lemma WatermarkSound(s: State, u: Uid)
    requires Reachable(s) && u in s.rows && Clear(s, u)
    requires !s.rows[u].edited && s.server.mail[u].modseq <= s.watermark
    requires !InBlindWindow(s, u)
    ensures s.rows[u].flags == s.server.mail[u].flags
  {
    ReachableInv(s);
    DriftIff(s, u);
  }

  /** A row that is wrong under the watermark stays wrong: no sweep reports a message whose
      last change the watermark covers.  Only a new change ends it. */
  lemma DriftStays(s: State, a: Action, u: Uid)
    requires Reachable(s) && Enabled(s, a) && u in s.rows && u in s.server.mail
    requires s.server.mail[u].modseq <= s.watermark && s.rows[u].flags != s.server.mail[u].flags
    requires a.SetFlags? || a.Expunge? || a.LocalEdit? ==> a.uid != u
    ensures var t := Apply(s, a);
      && u in t.rows && u in t.server.mail
      && t.server.mail[u].modseq <= t.watermark && t.rows[u].flags != t.server.mail[u].flags
  {
    ReachableInv(s);
    WatermarkNeverRegresses(s, a);
  }

  lemma WatermarkNeverRegresses(s: State, a: Action)
    requires Reachable(s) && Enabled(s, a)
    ensures s.watermark <= Apply(s, a).watermark <= Apply(s, a).server.highest
  {
    ReachableInv(s);
    InvStep(s, a);
  }

  // ----------------------------------------------------- what the code does not do

  /** u is live, missing, below something stored, and nobody is about to fetch it. */
  ghost predicate Skipped(s: State, u: Uid)
  {
    && u !in s.rows && u < s.server.uidNext
    && (exists r: Uid :: r in s.rows && u < r)
    && (forall i :: 0 <= i < |s.queue| ==> s.queue[i].uid != u)
    && (s.pass.Located? ==> u < s.pass.cursor)
    && (s.pass.Fetching? ==> u !in s.pass.uids)
  }

  /** A gap is never filled: the MAX(uid) cursor passes over it for good. */
  lemma SkippedForever(s: State, a: Action, u: Uid)
    requires Enabled(s, a) && Skipped(s, u)
    ensures Skipped(Apply(s, a), u)
  {
    var t := Apply(s, a);
    var r: Uid :| r in s.rows && u < r;
    assert r in t.rows;
  }

  /** Between passes, exactly when a missing message is lost: when something above it is
      stored.  Then its insert had failed or a row had overtaken it; otherwise the next
      SEARCH finds it, a failed insert included. */
  lemma GapIff(s: State, u: Uid)
    requires Reachable(s) && s.pass.NoPass? && s.queue == []
    requires u in s.server.mail && u !in s.rows
    ensures Skipped(s, u) <==> exists r: Uid :: r in s.rows && u < r
    ensures Skipped(s, u) ==> u in s.blemished
    ensures forall c, uids :: IsMaxUid(s.rows, c) && IsSearchResult(uids, s.server.mail, c) ==>
      (u in uids <==> !Skipped(s, u))
  {
    ReachableInv(s);
    if r: Uid :| r in s.rows && u < r {
      assert !Clear(s, u);
    }
  }

  lemma Take(s: State, a: Action) returns (t: State)
    requires Reachable(s) && Enabled(s, a)
    ensures Reachable(t) && t == Apply(s, a)
  {
    t := Apply(s, a);
    Runs.ReachStep(Initial, Next, s, a, t);
  }

  lemma Start(mail: map<Uid, Copy>, uidNext: Uid, highest: nat) returns (s: State)
    requires ServerOk(Server(mail, uidNext, highest))
    ensures Reachable(s) && s == State(Server(mail, uidNext, highest), map[], 0, 0, [], {}, NoPass)
  {
    s := State(Server(mail, uidNext, highest), map[], 0, 0, [], {}, NoPass);
    Runs.ReachStart(Initial, Next, s);
  }

  /** SELECT, MAX(uid) and UID SEARCH, undisturbed. */
  lemma Searching(s: State, condstore: bool, cursor: Uid, uids: seq<Uid>) returns (t: State)
    requires Reachable(s) && s.pass.NoPass? && IsMaxUid(s.rows, cursor)
    requires IsSearchResult(uids, s.server.mail, cursor)
    ensures Reachable(t)
    ensures t == s.(pass := Fetching(if condstore then s.server.highest else 0, cursor, uids, 0, {}))
  {
    var s1 := Take(s, Select(condstore));
    var s2 := Take(s1, ReadMax(cursor));
    t := Take(s2, Search(uids));
  }

  /** A one-message fetch, stored and acknowledged. */
  lemma FetchSingle(s: State, u: Uid) returns (t: State)
    requires Reachable(s) && s.pass.Fetching? && s.pass.uids == [u] && s.pass.lo == 0 && s.pass.delivered == {}
    requires s.queue == [] && u in s.server.mail && u !in s.rows
    ensures Reachable(t) && Enabled(t, FetchDone)
    ensures t == s.(rows := s.rows[u := Row(s.server.mail[u].flags, s.server.highest, false)],
                    pass := s.pass.(lo := 1))
  {
    assert Chunk(s.pass) == [u];
    var s1 := Take(s, FetchRow(u));
    assert Overtaken(s, u) == {};
    var s2 := Take(s1, Process(true));
    assert s2.queue == [];
    t := Take(s2, ChunkDone);
  }

  const ONE_MESSAGE := map[1 := Copy([], 1)]
  const TWO_MESSAGES := map[1 := Copy([], 1), 2 := Copy([], 2)]

  lemma TwoSearched() returns (s: State)
    ensures Reachable(s)
    ensures s == State(Server(TWO_MESSAGES, 3, 2), map[], 0, 0, [], {}, Fetching(0, 0, [1, 2], 0, {}))
    ensures Chunk(s.pass) == [1, 2]
  {
    var s0 := Start(TWO_MESSAGES, 3, 2);
    s := Searching(s0, false, 0, [1, 2]);
  }

  lemma TwoQueued() returns (s: State)
    ensures Reachable(s)
    ensures s == State(Server(TWO_MESSAGES, 3, 2), map[], 0, 0,
                       [Item(1, [], 2, true), Item(2, [], 2, true)], {}, Fetching(0, 0, [1, 2], 0, {1, 2}))
    ensures Chunk(s.pass) == [1, 2]
  {
    var s0 := TwoSearched();
    assert Overtaken(s0, 1) == {};
    var s1 := Take(s0, FetchRow(1));
    assert Overtaken(s1, 2) == {};
    s := Take(s1, FetchRow(2));
    assert s.queue == [Item(1, [], 2, true), Item(2, [], 2, true)];
    assert s.blemished == {} && s.pass.delivered == {1, 2};
  }

  /** A failed insert followed by a successful one leaves a permanent gap, even
      though the pass completes. */
  lemma FailedInsertLeavesGap() returns (s: State)
    ensures Reachable(s) && s.pass.NoPass? && 1 in s.server.mail && 1 in s.blemished && Skipped(s, 1)
  {
    var s0 := TwoQueued();
    var s1 := Take(s0, Process(false));
    var s2 := Take(s1, Process(true));
    assert s2.queue == [];
    var s3 := Take(s2, ChunkDone);
    s := Take(s3, FetchDone);
    assert 2 in s.rows;
  }

  /** So does a row that overtakes a smaller UID, if the process dies in between. */
  lemma OvertakingLeavesGap() returns (s: State)
    ensures Reachable(s) && 1 in s.server.mail && 1 in s.blemished && Skipped(s, 1)
  {
    var s0 := TwoSearched();
    assert 1 in Overtaken(s0, 2);
    var s1 := Take(s0, FetchRow(2));
    var s2 := Take(s1, Process(true));
    s := Take(s2, Crash);
    assert 2 in s.rows;
  }

  lemma OneStored(condstore: bool) returns (s: State)
    ensures Reachable(s)
    ensures s == State(Server(ONE_MESSAGE, 2, 1), map[1 := Row([], 1, false)],
                       if condstore then 1 else 0, if condstore then 1 else 0, [], {}, NoPass)
  {
    var s0 := Start(ONE_MESSAGE, 2, 1);
    var s1 := Searching(s0, condstore, 0, [1]);
    var s2 := FetchSingle(s1, 1);
    s := Take(s2, FetchDone);
  }

  /** Recording the baseline skips the sweep: flags that changed before it stay
      wrong although the watermark covers them. */
  lemma BaselineKeepsDrift() returns (s: State)
    ensures Reachable(s) && 1 in s.rows && Clear(s, 1) && !s.rows[1].edited
    ensures s.server.mail[1].modseq <= s.watermark && s.rows[1].flags != s.server.mail[1].flags
    ensures InBlindWindow(s, 1)
  {
    var s0 := OneStored(false);
    var s1 := Take(s0, SetFlags(1, ["Seen"]));
    var s2 := Searching(s1, true, 1, []);
    s := Take(s2, FetchDone);
  }

  /** Recording the counter as it stands when the sweep ends, instead of the
      SELECT-time value, would claim a message whose change was never reported. */
  lemma LaterWatermarkWouldLie() returns (s: State)
    ensures Reachable(s) && Enabled(s, DeltaDone) && s.pass.h < s.server.highest
    ensures 1 in s.rows && Clear(s, 1) && !s.rows[1].edited && s.baseline <= s.rows[1].asOf
    ensures s.server.mail[1].modseq <= s.server.highest && s.rows[1].flags != s.server.mail[1].flags
  {
    var s0 := OneStored(true);
    var s1 := Take(s0, SetFlags(1, ["Seen"]));
    var s2 := Searching(s1, true, 1, []);
    var s3 := Take(s2, FetchDone);
    var s4 := Take(s3, DeltaRow(1));
    s := Take(s4, SetFlags(1, ["Flagged"]));
  }
}
