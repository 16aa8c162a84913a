/**
 * When a blob that somebody needs has its file: the ledger's worlds, looked at from the
 * side of the disk.
 */
module BlobPresence {
  import opened Common
  import opened Tables
  import opened Ledger
  import Runs

  /** Somebody links to the digest, holds a reference to it, or has written its file and
      is about to take one. */
  ghost predicate Needed(w: World, sha: string)
  {
    || (exists a :: a in w.db.attachments && Names(w.db, w.db.attachments[a].blob, sha))
    || (exists m :: m in w.db.messages && Names(w.db, w.db.messages[m].raw, sha))
    || (exists j :: j in w.held && Names(w.db, Some(w.held[j].blob), sha))
    || (exists j :: j in w.written && w.written[j] == sha)
  }

  predicate Names(db: Db, link: Option<Id>, sha: string)
  {
    link.Some? && link.value in db.blobs && db.blobs[link.value].sha == sha
  }

  /** The file is there, or a sweep took it after it was last written. */
  predicate Explained(w: World, sha: string)
  {
    sha in w.files || sha in w.unlinked
  }

  ghost predicate FilesOk(w: World)
  {
    && w.unlinked !! w.files
    && (forall b :: b in w.db.blobs && w.db.blobs[b].refcount > 0 ==> Explained(w, w.db.blobs[b].sha))
    && (forall j :: j in w.written ==> Explained(w, w.written[j]))
  }

  /** No blob row gains a reference. */
  ghost predicate NoGain(db: Db, t: Db)
  {
    forall b :: b in t.blobs && t.blobs[b].refcount > 0 ==>
      b in db.blobs && db.blobs[b].refcount > 0 && db.blobs[b].sha == t.blobs[b].sha
  }

  lemma GainOnlyByAcquire(w: World, a: Action)
    requires Enabled(w, a) && !a.Acquire?
    ensures NoGain(w.db, Apply(w, a).db)
  {
    if a.WipeFolder? || a.RemoveAccount? {
      RemovalNoGain(w, a);
    } else if a.LinkRaw? || a.LinkAttachment? {
      LinkNoGain(w, a);
    } else if a.HealRaw? || a.HealAttachment? || a.ForgetAttachment? {
      HealKeepsBlobs(w, a);
    } else if a.Release? || a.DeleteRow? {
      ReleaseNoGain(w, a);
    } else {
      BlobsUntouched(w, a);
    }
  }

  lemma RemovalNoGain(w: World, a: Action)
    requires Enabled(w, a) && (a.WipeFolder? || a.RemoveAccount?)
    ensures NoGain(w.db, Apply(w, a).db)
  {
    match a
    case WipeFolder(f) => FolderNoGain(w.db, f);
    case RemoveAccount(acc) => AccountNoGain(w.db, acc);
  }

  lemma FolderNoGain(db: Db, folder: Id)
    ensures NoGain(db, DeleteMessagesByFolder(db, folder))
  {
    DrainNoGain(db, OfFolder(folder));
  }

  lemma AccountNoGain(db: Db, account: Id)
    ensures NoGain(db, DeleteAccount(db, account).0)
  {
    DrainNoGain(db, OfAccount(account));
  }

  lemma LinkNoGain(w: World, a: Action)
    requires Enabled(w, a) && (a.LinkRaw? || a.LinkAttachment?)
    ensures NoGain(w.db, Apply(w, a).db)
  {
    match a
    case LinkRaw(j, at) => LinkRawKeepsBlobs(w, j, at);
    case LinkAttachment(j) => LinkAttachmentKeepsBlobs(w, j);
  }

  lemma ReleaseNoGain(w: World, a: Action)
    requires Enabled(w, a) && (a.Release? || a.DeleteRow?)
    ensures NoGain(w.db, Apply(w, a).db)
  {
  }

  lemma BlobsUntouched(w: World, a: Action)
    requires Enabled(w, a)
    requires a.WriteFile? || a.AcquireFails? || a.LinkFails? || a.LinkRawFails? || a.ReleaseFails? || a.ExpireRaw?
          || a.InsertMessage? || a.OtherTransaction? || a.ListZero? || a.Unlink? || a.Crash?
    ensures Apply(w, a).db.blobs == w.db.blobs
  {
  }

  lemma DrainNoGain(db: Db, scope: Scope)
    ensures NoGain(db, db.(blobs := DrainScope(db, scope)))
  {
  }

  lemma DiskKeptByClients(w: World, a: Action)
    requires Enabled(w, a)
    requires a.LinkAttachment? || a.LinkFails? || a.LinkRaw? || a.LinkRawFails? || a.Release? || a.ReleaseFails?
          || a.HealRaw? || a.HealAttachment? || a.ForgetAttachment?
    ensures Apply(w, a).files == w.files && Apply(w, a).unlinked == w.unlinked && Apply(w, a).written == w.written
  {
    if a.LinkRaw? || a.Release? || a.HealRaw? {
      DiskKeptByAnswers(w, a);
    }
  }

  /** The steps that depend on what a transaction answers. */
  lemma DiskKeptByAnswers(w: World, a: Action)
    requires Enabled(w, a) && (a.LinkRaw? || a.Release? || a.HealRaw?)
    ensures Apply(w, a).files == w.files && Apply(w, a).unlinked == w.unlinked && Apply(w, a).written == w.written
  {
  }

  lemma DiskKeptByTables(w: World, a: Action)
    requires Enabled(w, a)
    requires a.ExpireRaw? || a.WipeFolder? || a.RemoveAccount? || a.InsertMessage? || a.OtherTransaction?
          || a.ListZero? || a.DeleteRow?
    ensures Apply(w, a).files == w.files && Apply(w, a).unlinked == w.unlinked && Apply(w, a).written == w.written
  {
  }

  lemma DiskMoves(w: World, a: Action)
    requires FilesOk(w) && Enabled(w, a)
    requires a.WriteFile? || a.AcquireFails? || a.Unlink? || a.Crash?
    ensures FilesOk(Apply(w, a))
  {
  }

  lemma FilesStep(w: World, a: Action)
    requires FilesOk(w) && Enabled(w, a)
    ensures FilesOk(Apply(w, a))
  {
    if a.Acquire? {
      AcquireFiles(w, a);
    } else if a.WriteFile? || a.AcquireFails? || a.Unlink? || a.Crash? {
      DiskMoves(w, a);
    } else {
      GainOnlyByAcquire(w, a);
      if a.ExpireRaw? || a.WipeFolder? || a.RemoveAccount? || a.InsertMessage?
        || a.OtherTransaction? || a.ListZero? || a.DeleteRow?
      {
        DiskKeptByTables(w, a);
      } else {
        DiskKeptByClients(w, a);
      }
      FilesFrame(w, Apply(w, a));
    }
  }

  lemma FilesFrame(w: World, v: World)
    requires FilesOk(w) && NoGain(w.db, v.db)
    requires v.files == w.files && v.unlinked == w.unlinked && v.written == w.written
    ensures FilesOk(v)
  {
  }

  lemma AcquireFiles(w: World, a: Action)
    requires FilesOk(w) && Enabled(w, a) && a.Acquire?
    ensures FilesOk(Apply(w, a))
  {
  }

  lemma InitialFiles(w: World)
    requires Initial(w)
    ensures FilesOk(w)
  {
    forall b | b in w.db.blobs && w.db.blobs[b].refcount > 0 ensures Explained(w, w.db.blobs[b].sha) {
      assert RefCount(w.db, b) == Claims(w, b);
      assert Referrers(w.held, TokenBlob, b) == {} && Referrers(w.lost, LostBlob, b) == {};
    }
  }

  lemma ReachableFiles(w: World)
    requires Reachable(w)
    ensures FilesOk(w)
  {
    forall x, a, y | FilesOk(x) && Next(x, a, y) ensures FilesOk(y) {
      FilesStep(x, a);
    }
    forall x | Initial(x) ensures FilesOk(x) {
      InitialFiles(x);
    }
    Runs.InvariantReachable(Initial, Next, FilesOk, w);
  }

  /** A blob that is needed has its file exactly when no sweep has unlinked it since it
      was last written; in particular every live link has its file in a run without
      sweeps. */
  lemma NeededFileIff(w: World, sha: string)
    requires Reachable(w) && Needed(w, sha)
    ensures sha in w.files <==> sha !in w.unlinked
  {
    ReachableFiles(w);
    ReachableInv(w);
    if a :| a in w.db.attachments && Names(w.db, w.db.attachments[a].blob, sha) {
      PositiveCount(w, w.db.attachments[a].blob.value);
    } else if m :| m in w.db.messages && Names(w.db, w.db.messages[m].raw, sha) {
      PositiveCount(w, w.db.messages[m].raw.value);
    } else if j :| j in w.held && Names(w.db, Some(w.held[j].blob), sha) {
      PositiveCount(w, w.held[j].blob);
    }
  }

  /** Somebody links to this row or holds a reference to it. */
  ghost predicate InUse(w: World, b: Id)
  {
    || (exists a :: a in w.db.attachments && w.db.attachments[a].blob == Some(b))
    || (exists m :: m in w.db.messages && w.db.messages[m].raw == Some(b))
    || (exists j :: j in w.held && w.held[j].blob == b)
  }

  lemma PositiveCount(w: World, b: Id)
    requires Inv(w) && b in w.db.blobs
    ensures InUse(w, b) <==> w.db.blobs[b].refcount > Refs(w.lost, LostBlob, b)
  {
    assert RefCount(w.db, b) == Claims(w, b);
    var atts, msgs := Referrers(w.db.attachments, AttachmentBlob, b), Referrers(w.db.messages, RawBlob, b);
    var toks := Referrers(w.held, TokenBlob, b);
    if a :| a in w.db.attachments && w.db.attachments[a].blob == Some(b) {
      RefsPositive(w.db.attachments, AttachmentBlob, a, b);
    }
    if m :| m in w.db.messages && w.db.messages[m].raw == Some(b) {
      RefsPositive(w.db.messages, RawBlob, m, b);
    }
    if j :| j in w.held && w.held[j].blob == b {
      RefsPositive(w.held, TokenBlob, j, b);
    }
    if atts != {} {
      var a := AnyOf(atts);
      assert a in w.db.attachments && w.db.attachments[a].blob == Some(b);
    } else if msgs != {} {
      var m := AnyOf(msgs);
      assert m in w.db.messages && w.db.messages[m].raw == Some(b);
    } else if toks != {} {
      var j := AnyOf(toks);
      assert j in w.held && w.held[j].blob == b;
    }
  }

  /** The digest's row counts a link or a token, or a writer stands between its file and
      its reference. */
  ghost predicate CountedOrWriting(w: World, sha: string)
  {
    || (exists b :: b in w.db.blobs && w.db.blobs[b].sha == sha && w.db.blobs[b].refcount > Refs(w.lost, LostBlob, b))
    || (exists j :: j in w.written && w.written[j] == sha)
  }

  lemma NeededByCount(w: World, sha: string)
    requires Inv(w)
    ensures Needed(w, sha) <==> CountedOrWriting(w, sha)
  {
    if a :| a in w.db.attachments && Names(w.db, w.db.attachments[a].blob, sha) {
      PositiveCount(w, w.db.attachments[a].blob.value);
    }
    if m :| m in w.db.messages && Names(w.db, w.db.messages[m].raw, sha) {
      PositiveCount(w, w.db.messages[m].raw.value);
    }
    if j :| j in w.held && Names(w.db, Some(w.held[j].blob), sha) {
      PositiveCount(w, w.held[j].blob);
    }
    if b :| b in w.db.blobs && w.db.blobs[b].sha == sha && w.db.blobs[b].refcount > Refs(w.lost, LostBlob, b) {
      PositiveCount(w, b);
      UsedNames(w, b, sha);
    }
  }

  lemma UsedNames(w: World, b: Id, sha: string)
    requires InUse(w, b) && b in w.db.blobs && w.db.blobs[b].sha == sha
    ensures Needed(w, sha)
  {
    if a :| a in w.db.attachments && w.db.attachments[a].blob == Some(b) {
      assert Names(w.db, w.db.attachments[a].blob, sha);
    } else if m :| m in w.db.messages && w.db.messages[m].raw == Some(b) {
      assert Names(w.db, w.db.messages[m].raw, sha);
    } else {
      var j :| j in w.held && w.held[j].blob == b;
      assert Names(w.db, Some(w.held[j].blob), sha);
    }
  }

  /** The race, exactly: an unlink leaves a needed blob without its file if and only if at
      that step the digest's row counts more than lost references, that is a link or a
      token, or a writer stands between its file and its reference. */
  lemma UnlinkHitsNeededIff(w: World, g: nat)
    requires Reachable(w) && Enabled(w, Unlink(g, true))
    ensures var sha, v := w.collectors[g].todo[0].sha, Apply(w, Unlink(g, true));
      Needed(v, sha) && sha !in v.files <==> CountedOrWriting(w, sha)
  {
    var sha, v := w.collectors[g].todo[0].sha, Apply(w, Unlink(g, true));
    ReachableInv(w);
    NeededByCount(w, sha);
    SameNeeds(w, v, sha);
  }

  lemma SameNeeds(w: World, v: World, sha: string)
    requires v.db == w.db && v.held == w.held && v.written == w.written
    ensures Needed(v, sha) <==> Needed(w, sha)
  {
  }

  // ------------------------------------------------------------------ the race

  /** One pending attachment, and one unreferenced blob whose file still exists. */
  function RaceDb(att: Attachment, refcount: int): Db
  {
    Db({1}, map[1 := Folder(1, 0)], map[], map[1 := Message(1, 1, 1, None, 0, [], true, None, None)],
       map[1 := att], map[1 := Blob("aabb", 0, refcount)])
  }

  lemma RaceStart() returns (w: World)
    ensures Reachable(w)
    ensures w == World(RaceDb(Attachment(1, None, None), 0), map[], map[], {"aabb"}, map[], map[], {})
  {
    w := World(RaceDb(Attachment(1, None, None), 0), map[], map[], {"aabb"}, map[], map[], {});
    forall b ensures RefCount(w.db, b) == Claims(w, b) && Links(w.db, b) == 0 {
      assert Referrers(w.db.attachments, AttachmentBlob, b) == {};
      assert Referrers(w.db.messages, RawBlob, b) == {};
      assert Referrers(w.held, TokenBlob, b) == {};
      assert Referrers(w.lost, LostBlob, b) == {};
    }
    Runs.ReachStart(Initial, Next, w);
  }

  /** Listed as garbage, then written again: a dedup hit on the file that is still there. */
  lemma RaceListed() returns (w: World)
    ensures Reachable(w)
    ensures w == World(RaceDb(Attachment(1, None, None), 0), map[], map[], {"aabb"},
                       map[0 := Collector([Candidate(1, "aabb")], false)], map[Job(0) := "aabb"], {})
  {
    var w0 := RaceStart();
    var w1 := Take(w0, ListZero(0, [Candidate(1, "aabb")]));
    w := Take(w1, WriteFile(Job(0), "aabb"));
  }

  lemma RaceTaken() returns (w: World)
    ensures Reachable(w)
    ensures w == World(RaceDb(Attachment(1, None, None), 1), map[Job(0) := Token(1, ForAttachment(1, false))],
                       map[], {"aabb"}, map[0 := Collector([Candidate(1, "aabb")], false)], map[], {})
  {
    var w0 := RaceListed();
    w := Take(w0, Acquire(Job(0), "aabb", 0, 1, ForAttachment(1, false)));
    assert w.db == RaceDb(Attachment(1, None, None), 1);
  }

  lemma RaceHalf() returns (w: World)
    ensures Reachable(w)
    ensures w == World(RaceDb(Attachment(1, None, None), 1), map[Job(0) := Token(1, ForAttachment(1, false))],
                       map[], {}, map[0 := Collector([Candidate(1, "aabb")], true)], map[], {"aabb"})
  {
    var w0 := RaceTaken();
    w := Take(w0, Unlink(0, true));
  }

  /** The race happens: a sweep lists a blob, a download writes and links it again, and the
      unlink in between takes the file.  Every procedure has finished and no reference is
      lost; the row and its link survive.  By NeededFileIff only an unlink since the last
      write can do this; the healing read is the code's answer. */
  lemma LinkWithoutFile() returns (w: World)
    ensures Reachable(w) && w.held == map[] && w.lost == map[] && w.written == map[]
    ensures 1 in w.db.attachments && w.db.attachments[1].blob == Some(1)
    ensures 1 in w.db.blobs && w.db.blobs[1].refcount == 1
    ensures w.db.blobs[1].sha !in w.files && w.db.blobs[1].sha in w.unlinked
  {
    var w0 := RaceHalf();
    var w1 := Take(w0, DeleteRow(0));
    w := Take(w1, LinkAttachment(Job(0)));
    assert w.held == map[];
  }
}
