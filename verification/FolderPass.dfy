/**
 * The chunk loop of one sync pass, run against a writer that stores what it is given:
 * cursor, chunk bounds, checkpoint, and what an interruption leaves behind.
 * FolderSync has the same pass among everything that can happen around it.
 */
module FolderPass {
  import opened Common

  /** Where a pass is interrupted: before a chunk, or inside it after some rows. */
  datatype Stop = Never | Before(chunk: nat) | Inside(chunk: nat, rows: nat)

  /** COALESCE(MAX(uid), 0); UIDs are positive. */
  predicate IsCursor(uids: set<int>, cursor: int)
  {
    && (forall u :: u in uids ==> 0 < u <= cursor)
    && (if uids == {} then cursor == 0 else cursor in uids)
  }

  function Smaller(a: nat, b: nat): nat
  {
    if a < b then a else b
  }

  function Larger(a: int, b: int): int
  {
    if a < b then b else a
  }

  /** How many chunks a SEARCH result of this length makes. */
  function Chunks(total: nat): nat
  {
    (total + FETCH_BATCH_SIZE - 1) / FETCH_BATCH_SIZE
  }

  /** UIDs asked for by one chunk. */
  function Asked(live: seq<int>, chunk: nat): seq<int>
    requires chunk < Chunks(|live|)
  {
    live[chunk * FETCH_BATCH_SIZE..Smaller((chunk + 1) * FETCH_BATCH_SIZE, |live|)]
  }

  predicate Cuts(chunks: nat, stop: Stop)
  {
    !stop.Never? && stop.chunk < chunks
  }

  /** Chunks fetched and acknowledged before the pass ends. */
  function Complete(chunks: nat, stop: Stop): (n: nat)
    ensures n <= chunks
  {
    if Cuts(chunks, stop) then stop.chunk else chunks
  }

  function Flatten(rows: seq<seq<int>>): seq<int>
  {
    if rows == [] then [] else Flatten(rows[..|rows| - 1]) + rows[|rows| - 1]
  }

  /** Rows delivered before the pass ends, when chunk c streams fetched[c]. */
  function Delivered(fetched: seq<seq<int>>, stop: Stop): seq<int>
  {
    Done(fetched, Complete(|fetched|, stop))
    + (if Cuts(|fetched|, stop) && stop.Inside? then fetched[stop.chunk][..Smaller(stop.rows, |fetched[stop.chunk]|)]
      else [])
  }

  /** Rows of the first n chunks. */
  function Done(fetched: seq<seq<int>>, n: nat): seq<int>
    requires n <= |fetched|
  {
    Flatten(fetched[..n])
  }

  lemma DoneNext(fetched: seq<seq<int>>, n: nat)
    requires n < |fetched|
    ensures Done(fetched, n + 1) == Done(fetched, n) + fetched[n]
  {
    assert fetched[..n + 1][..n] == fetched[..n];
  }

  lemma {:induction false} FlattenIff(rows: seq<seq<int>>, u: int)
    ensures u in Flatten(rows) <==> exists c, r :: 0 <= c < |rows| && 0 <= r < |rows[c]| && rows[c][r] == u
  {
    if rows != [] {
      var n := |rows| - 1;
      FlattenIff(rows[..n], u);
      if c, r :| 0 <= c < |rows[..n]| && 0 <= r < |rows[..n][c]| && rows[..n][c][r] == u {
        assert rows[c][r] == u;
      }
      if r :| 0 <= r < |rows[n]| && rows[n][r] == u {
        assert rows[n][r] == u;
      }
      if c, r :| 0 <= c < n && 0 <= r < |rows[c]| && rows[c][r] == u {
        assert rows[..n][c][r] == u;
      }
    }
  }

  /** Rows of the first n chunks, by index. */
  lemma DoneIff(fetched: seq<seq<int>>, n: nat, u: int)
    requires n <= |fetched|
    ensures u in Done(fetched, n) <==> exists c, r :: 0 <= c < n && 0 <= r < |fetched[c]| && fetched[c][r] == u
  {
    FlattenIff(fetched[..n], u);
    if c, r :| 0 <= c < n && 0 <= r < |fetched[c]| && fetched[c][r] == u {
      assert fetched[..n][c][r] == u;
    }
  }

  /** An interrupted pass delivers every row of the chunks before the cut and the rows of
      the cut chunk that were streamed, and nothing else; any other pass delivers all. */
  lemma DeliveredIff(fetched: seq<seq<int>>, stop: Stop, u: int)
    ensures u in Delivered(fetched, stop) <==> exists c, r ::
      0 <= c < |fetched| && 0 <= r < |fetched[c]| && fetched[c][r] == u
      && (stop.Never? || c < stop.chunk || (stop.Inside? && c == stop.chunk && r < stop.rows))
  {
    DoneIff(fetched, Complete(|fetched|, stop), u);
    if Cuts(|fetched|, stop) && stop.Inside? {
      var k := stop.chunk;
      var rows := fetched[k][..Smaller(stop.rows, |fetched[k]|)];
      assert u in rows <==> exists r :: 0 <= r < |fetched[k]| && r < stop.rows && fetched[k][r] == u by {
        if r :| 0 <= r < |fetched[k]| && r < stop.rows && fetched[k][r] == u {
          assert rows[r] == u;
        }
      }
    }
  }

  lemma ChunkInRange(chunk: nat, total: nat)
    ensures chunk * FETCH_BATCH_SIZE < total <==> chunk < Chunks(total)
  {
  }

  /** The loop's maxUID. */
  function HighWater(cursor: int, rows: seq<int>): int
  {
    if rows == [] then cursor else Larger(HighWater(cursor, rows[..|rows| - 1]), rows[|rows| - 1])
  }

  lemma {:induction false} HighWaterIs(cursor: int, rows: seq<int>)
    ensures HighWater(cursor, rows) >= cursor
    ensures forall u :: u in rows ==> u <= HighWater(cursor, rows)
    ensures HighWater(cursor, rows) == cursor || HighWater(cursor, rows) in rows
  {
    if rows != [] {
      HighWaterIs(cursor, rows[..|rows| - 1]);
      assert rows == rows[..|rows| - 1] + [rows[|rows| - 1]];
    }
  }

  lemma {:induction false} HighWaterConcat(cursor: int, a: seq<int>, b: seq<int>)
    ensures HighWater(cursor, a + b) == HighWater(HighWater(cursor, a), b)
    decreases |b|
  {
    if b == [] {
      assert a + b == a;
    } else {
      assert (a + b)[..|a + b| - 1] == a + b[..|b| - 1];
      HighWaterConcat(cursor, a, b[..|b| - 1]);
    }
  }

  /** What the maximum over the complete chunks means, by index. */
  lemma CheckpointIs(fetched: seq<seq<int>>, n: nat, cursor: int)
    requires n <= |fetched|
    ensures var top := HighWater(cursor, Done(fetched, n));
      && top >= cursor
      && (forall c, r :: 0 <= c < n && 0 <= r < |fetched[c]| ==> fetched[c][r] <= top)
      && (top == cursor || exists c, r :: 0 <= c < n && 0 <= r < |fetched[c]| && fetched[c][r] == top)
  {
    HighWaterIs(cursor, Done(fetched, n));
    DoneIff(fetched, n, HighWater(cursor, Done(fetched, n)));
    forall c, r | 0 <= c < n && 0 <= r < |fetched[c]|
      ensures fetched[c][r] <= HighWater(cursor, Done(fetched, n))
    {
      DoneIff(fetched, n, fetched[c][r]);
    }
  }

  class Folder {
    var uids: set<int>
    var uidNext: int

    /** `live` is what UID SEARCH found above the cursor, `fetched` what the FETCH of each
        chunk streams, whatever rows in whatever order.  A cut keeps the rows of every
        complete chunk and those already streamed of the one it hits; the checkpoint
        follows complete chunks only and is the least value above the cursor and all their
        rows that does not fall behind the server's. */
    method SyncFolder(live: seq<int>, fetched: seq<seq<int>>, serverUidNext: int, ghost cursor: int, stop: Stop)
      returns (ok: bool)
      requires IsCursor(uids, cursor) && |fetched| == Chunks(|live|)
      modifies this
      ensures ok <==> stop.Never? || stop.chunk >= |fetched|
      ensures uids == old(uids) + Elements(Delivered(fetched, stop))
      ensures forall u :: u in uids <==> u in old(uids) || exists c, r ::
        0 <= c < |fetched| && 0 <= r < |fetched[c]| && fetched[c][r] == u
        && (stop.Never? || c < stop.chunk || (stop.Inside? && c == stop.chunk && r < stop.rows))
      ensures live == [] ==> uidNext == serverUidNext
      ensures live != [] && !ok && stop.chunk == 0 ==> uidNext == old(uidNext)
      ensures live != [] && (ok || stop.chunk > 0) ==>
        && uidNext > cursor && uidNext >= serverUidNext
        && (forall c, r :: 0 <= c < |fetched| && (ok || c < stop.chunk) && 0 <= r < |fetched[c]| ==>
              fetched[c][r] < uidNext)
        && (uidNext == serverUidNext || uidNext == cursor + 1 || exists c, r ::
              0 <= c < |fetched| && (ok || c < stop.chunk) && 0 <= r < |fetched[c]| && fetched[c][r] + 1 == uidNext)
    {
      var maxUid := MaxUid(cursor);
      forall u {
        DeliveredIff(fetched, stop, u);
      }
      CheckpointIs(fetched, Complete(|fetched|, stop), cursor);
      if live == [] {
        uidNext := serverUidNext;
        assert Delivered(fetched, stop) == [];
        return true;
      }
      ok := FetchAll(live, fetched, serverUidNext, maxUid, stop);
    }

    /** The chunk loop.  The cut comes before a chunk or while its rows are streamed. */
    method FetchAll(live: seq<int>, fetched: seq<seq<int>>, serverUidNext: int, cursor: int, stop: Stop)
      returns (ok: bool)
      requires live != [] && |fetched| == Chunks(|live|)
      modifies this
      ensures ok <==> !Cuts(|fetched|, stop)
      ensures uids == old(uids) + Elements(Delivered(fetched, stop))
      ensures Complete(|fetched|, stop) == 0 ==> uidNext == old(uidNext)
      ensures Complete(|fetched|, stop) > 0 ==>
        uidNext == Larger(HighWater(cursor, Done(fetched, Complete(|fetched|, stop))) + 1, serverUidNext)
    {
      var maxUid := cursor;
      ghost var before := uids;
      var i, chunk := 0, 0;
      assert uids == before + Elements(Done(fetched, 0));
      while i < |live|
        invariant i == Smaller(chunk * FETCH_BATCH_SIZE, |live|) && chunk <= |fetched|
        invariant Cuts(|fetched|, stop) ==> chunk <= stop.chunk
        invariant uids == before + Elements(Done(fetched, chunk))
        invariant maxUid == HighWater(cursor, Done(fetched, chunk))
        invariant uidNext == if chunk == 0 then old(uidNext) else Larger(maxUid + 1, serverUidNext)
        decreases |live| - i
      {
        if stop == Before(chunk) {
          ChunkInRange(chunk, |live|);
          assert Delivered(fetched, stop) == Done(fetched, chunk);
          return false;
        }
        var end := Smaller(i + FETCH_BATCH_SIZE, |live|);
        ChunkInRange(chunk, |live|);
        DoneNext(fetched, chunk);
        if stop.Inside? && stop.chunk == chunk {
          var rows := fetched[chunk][..Smaller(stop.rows, |fetched[chunk]|)];
          var ignored := FetchChunk(rows, maxUid, Done(fetched, chunk), before);
          return false;
        }
        maxUid := FetchChunk(fetched[chunk], maxUid, Done(fetched, chunk), before);
        HighWaterConcat(cursor, Done(fetched, chunk), fetched[chunk]);
        uidNext := if maxUid + 1 < serverUidNext then serverUidNext else maxUid + 1;
        i, chunk := end, chunk + 1;
      }
      ChunkInRange(chunk, |live|);
      assert Delivered(fetched, stop) == Done(fetched, chunk);
      ok := true;
    }

    method MaxUid(ghost cursor: int) returns (m: int)
      requires IsCursor(uids, cursor)
      ensures m == cursor
    {
      m := 0;
      var rest := uids;
      while rest != {}
        invariant rest <= uids
        invariant IsCursor(uids - rest, m)
        decreases |rest|
      {
        var u := Pick(rest);
        ghost var seen := uids - rest;
        rest := rest - {u};
        assert uids - rest == seen + {u};
        if u > m {
          m := u;
        }
      }
      assert uids - rest == uids;
    }

    /** The rows of one chunk reach the writer and are acknowledged. */
    method FetchChunk(rows: seq<int>, start: int, ghost done: seq<int>, ghost before: set<int>) returns (maxUid: int)
      requires uids == before + Elements(done)
      modifies this`uids
      ensures uids == before + Elements(done + rows) && maxUid == HighWater(start, rows)
    {
      maxUid := start;
      assert done + rows[..0] == done;
      for k := 0 to |rows|
        invariant uids == before + Elements(done + rows[..k]) && maxUid == HighWater(start, rows[..k])
      {
        if rows[k] > maxUid {
          maxUid := rows[k];
        }
        uids := uids + {rows[k]};
        assert rows[..k + 1][..k] == rows[..k] && done + rows[..k + 1] == done + rows[..k] + [rows[k]];
      }
      assert rows[..|rows|] == rows;
    }
  }

  /** A FETCH that answers for every UID in order delivers all of the SEARCH result when
      the pass is not cut, and otherwise exactly its beginning: 200 UIDs for each complete
      chunk and those streamed of the one that is cut. */
  lemma InOrderIsPrefix(live: seq<int>, fetched: seq<seq<int>>, stop: Stop)
    requires |fetched| == Chunks(|live|) && forall c :: 0 <= c < |fetched| ==> fetched[c] == Asked(live, c)
    ensures stop.Never? || stop.chunk >= |fetched| ==> Delivered(fetched, stop) == live
    ensures !stop.Never? && stop.chunk < |fetched| ==>
      var n := stop.chunk * 200 + (if stop.Before? then 0 else if stop.rows < 200 then stop.rows else 200);
      Delivered(fetched, stop) == if n < |live| then live[..n] else live
  {
    AskedPrefix(live, fetched, Complete(|fetched|, stop));
    if Cuts(|fetched|, stop) {
      var k := stop.chunk;
      ChunkInRange(k, |live|);
      assert Done(fetched, k) == live[..k * 200];
      if stop.Inside? {
        var end := Smaller(k * 200 + Smaller(stop.rows, 200), |live|);
        assert fetched[k][..Smaller(stop.rows, |fetched[k]|)] == live[k * 200..end];
        assert live[..k * 200] + live[k * 200..end] == live[..end];
      }
    } else {
      assert Chunks(|live|) * 200 >= |live|;
    }
  }

  lemma {:induction false} AskedPrefix(live: seq<int>, fetched: seq<seq<int>>, n: nat)
    requires |fetched| == Chunks(|live|) && forall c :: 0 <= c < |fetched| ==> fetched[c] == Asked(live, c)
    requires n <= |fetched|
    ensures Flatten(fetched[..n]) == live[..Smaller(n * FETCH_BATCH_SIZE, |live|)]
  {
    if n > 0 {
      AskedPrefix(live, fetched, n - 1);
      assert fetched[..n][..n - 1] == fetched[..n - 1];
    }
  }

  /** Whatever was delivered, the next pass finds everything still owed exactly when
      nothing delivered lies above something that was not; and what it finds was not
      delivered before. */
  lemma ResumesIff(mail: set<int>, uids: set<int>, cursor: int, live: seq<int>, got: seq<int>)
    requires IsCursor(uids, cursor) && forall u :: u in live <==> u in mail && u > cursor
    requires 0 <= cursor && forall u :: u in got ==> u in live
    ensures var next := HighWater(cursor, got);
      && IsCursor(uids + Elements(got), next)
      && (forall u :: u in mail && u > next ==> u in live && u !in got)
      && ((forall u :: u in live && u !in got ==> u > next) <==>
        forall u, g :: u in live && u !in got && g in got ==> g < u)
  {
    HighWaterIs(cursor, got);
    var next := HighWater(cursor, got);
    assert forall u :: u in Elements(got) ==> u in got;
    if got == [] {
      assert uids + Elements(got) == uids;
    } else {
      var first := got[0];
      assert first in got;
      assert first in live;
      assert cursor < first <= next;
      assert next in got;
      assert next in Elements(got);
    }
  }

  /** After a prefix, cutting a pass anywhere and running another one from the new cursor
      comes to the same as one pass: the second SEARCH finds exactly what was still owed,
      and nothing is fetched twice. */
  lemma Resumes(mail: set<int>, uids: set<int>, cursor: int, live: seq<int>, n: nat)
    requires IsCursor(uids, cursor) && Ascending(live) && n <= |live| && 0 <= cursor
    requires forall u :: u in live <==> u in mail && u > cursor
    ensures IsCursor(uids + Elements(live[..n]), HighWater(cursor, live[..n]))
    ensures forall u :: u in live[n..] <==> u in mail && u > HighWater(cursor, live[..n])
    ensures uids + Elements(live[..n]) + Elements(live[n..]) == uids + Elements(live)
    ensures Elements(live[..n]) !! Elements(live[n..])
  {
    var got, owed := live[..n], live[n..];
    SplitLive(live, n);
    ResumesIff(mail, uids, cursor, live, got);
    assert forall u :: u in live && u !in got ==> u > HighWater(cursor, got);
    forall u ensures u in owed <==> u in mail && u > HighWater(cursor, got) {
      assert u in owed ==> u in live && u !in got;
    }
    assert Elements(live) == Elements(got) + Elements(owed);
  }

  lemma SplitLive(live: seq<int>, n: nat)
    requires Ascending(live) && n <= |live|
    ensures forall u :: u in live <==> u in live[..n] || u in live[n..]
    ensures forall u, g :: u in live[n..] && g in live[..n] ==> g < u
  {
    var got, owed := live[..n], live[n..];
    assert live == got + owed;
    forall u, g | u in owed && g in got ensures g < u {
      var i: nat :| i < n && got[i] == g;
      var j: nat :| j < |owed| && owed[j] == u;
      assert live[i] < live[n + j];
    }
  }
}
