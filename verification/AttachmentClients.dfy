/**
 * The two procedures that put attachments into the blob store, run undisturbed: the
 * downloader's row and the backfill of files from before the store existed.
 */
module AttachmentClients {
  import opened Common
  import opened Tables
  import opened Storage
  import opened BlobClients

  /** Register the bytes, then link the row; only backfill undoes a failed link. */
  function LinkedAttachment(db: Db, att: Id, sha: string, size: nat, id: Id, linkFails: bool, compensate: bool): Db
    requires IsRowFor(db, sha, id)
  {
    var registered := InsertOrIncBlob(db, sha, size, id);
    if !linkFails then UpdateAttachmentDownloaded(registered, att, id)
    else if compensate then Released(registered, id)
    else registered
  }

  /** Exactly what is leaked: the new reference when the row is gone, or when the link
      fails uncompensated; and the reference of a link that is overwritten. */
  lemma LinkSlack(db: Db, att: Id, sha: string, size: nat, id: Id, linkFails: bool, compensate: bool, b: Id)
    requires IsRowFor(db, sha, id)
    ensures Slack(LinkedAttachment(db, att, sha, size, id, linkFails, compensate), b)
         == Slack(db, b)
          + One(b == id && (if linkFails then !compensate else att !in db.attachments))
          + One(!linkFails && att in db.attachments && db.attachments[att].blob == Some(b))
  {
    var registered := InsertOrIncBlob(db, sha, size, id);
    IncSlack(db, sha, size, id, b);
    if linkFails {
      DecSlack(registered, id, b);
    } else if att in db.attachments {
      WriteAttachment(registered, att, db.attachments[att].(blob := Some(id), localPath := None), b);
    }
  }

  /** How one legacy file turns out. */
  datatype Legacy = Missing | Unreadable | Copied(sha: string, size: nat, linkFails: bool)

  predicate Listed(db: Db, att: Id)
  {
    att in db.attachments && db.attachments[att].blob == None && db.attachments[att].localPath.Some?
  }

  /** The row as backfill leaves it. */
  predicate Filed(before: Attachment, db: Db, att: Id, o: Legacy)
  {
    && att in db.attachments
    && var row := db.attachments[att];
       match o
       case Missing => row == before.(blob := None, localPath := None)
       case Unreadable => row == before
       case Copied(sha, _, linkFails) =>
         if linkFails then row == before
         else row == before.(blob := row.blob, localPath := None) && row.blob.Some?
              && row.blob.value in db.blobs && db.blobs[row.blob.value].sha == sha
  }

  /** The digests of existing blob rows are never rewritten. */
  predicate KeepsBlobs(db: Db, t: Db)
  {
    forall b :: b in db.blobs ==> b in t.blobs && t.blobs[b].sha == db.blobs[b].sha
  }

  /** One row of a pass, as a value; `id` is the blob row of the copied bytes. */
  function BackfillStep(db: Db, att: Id, o: Legacy, id: Id): Db
    requires o.Copied? ==> IsRowFor(db, o.sha, id)
  {
    match o
    case Missing => if att in db.attachments then ClearAttachmentBlob(db, att).value.0 else db
    case Unreadable => db
    case Copied(sha, size, linkFails) => LinkedAttachment(db, att, sha, size, id, linkFails, true)
  }

  /** Whatever happens to the file, no reference is leaked. */
  lemma StepKeepsSlack(db: Db, att: Id, o: Legacy, id: Id)
    requires Listed(db, att) && (o.Copied? ==> IsRowFor(db, o.sha, id))
    ensures SameSlack(db, BackfillStep(db, att, o, id))
  {
    var t := BackfillStep(db, att, o, id);
    forall b ensures Slack(t, b) == Slack(db, b) {
      match o
      case Missing => WriteAttachment(db, att, t.attachments[att], b);
      case Unreadable =>
      case Copied(sha, size, linkFails) => LinkSlack(db, att, sha, size, id, linkFails, true, b);
    }
  }

  /** The rows of a step: its own ends as its file deserves, no other changes. */
  lemma StepRows(db: Db, att: Id, o: Legacy, id: Id)
    requires Listed(db, att) && BlobsExist(db) && (o.Copied? ==> IsRowFor(db, o.sha, id))
    ensures var t := BackfillStep(db, att, o, id);
      && t.attachments == db.attachments[att := t.attachments[att]] && t.messages == db.messages
      && Filed(db.attachments[att], t, att, o)
      && KeepsBlobs(db, t) && BlobsExist(t) && t.blobs.Keys <= db.blobs.Keys + {id}
  {
    var t := BackfillStep(db, att, o, id);
    assert db.attachments[att := db.attachments[att]] == db.attachments;
  }

  method BackfillRow(store: Store, att: Id, o: Legacy, newId: Id) returns (migrated: bool, ghost id: Id)
    requires BlobsExist(store.db) && Listed(store.db, att) && newId !in store.db.blobs
    modifies store
    ensures migrated <==> o.Copied? && !o.linkFails
    ensures o.Copied? ==> IsRowFor(old(store.db), o.sha, id)
    ensures id == newId || id in old(store.db).blobs
    ensures store.db == BackfillStep(old(store.db), att, o, id)
  {
    migrated, id := false, newId;
    match o {
      case Missing => var cleared := store.ClearAttachmentBlob(att);
      case Unreadable =>
      case Copied(sha, size, linkFails) =>
        var row, isNew := store.InsertOrIncBlob(sha, size, newId);
        id := row;
        if linkFails {
          var undone := store.DecBlobRef(row);
        } else {
          store.UpdateAttachmentDownloaded(att, row);
          migrated := true;
        }
    }
  }

  function Migrations(os: seq<Legacy>): nat
  {
    if os == [] then 0
    else Migrations(os[..|os| - 1]) + One(os[|os| - 1].Copied? && !os[|os| - 1].linkFails)
  }

  lemma {:induction false} MigrationsAre(os: seq<Legacy>)
    ensures Migrations(os) == |set i | 0 <= i < |os| && os[i].Copied? && !os[i].linkFails|
  {
    var all := set i | 0 <= i < |os| && os[i].Copied? && !os[i].linkFails;
    if os == [] {
      assert all == {};
    } else {
      var n := |os| - 1;
      MigrationsAre(os[..n]);
      var front := set i | 0 <= i < |os[..n]| && os[..n][i].Copied? && !os[..n][i].linkFails;
      assert n !in front;
      assert all == if os[n].Copied? && !os[n].linkFails then front + {n} else front;
    }
  }

  /** The query's result: distinct rows with a file and no blob. */
  ghost predicate Candidates(db: Db, pending: seq<Id>)
  {
    && (forall i :: 0 <= i < |pending| ==> Listed(db, pending[i]))
    && (forall i, j :: 0 <= i < j < |pending| ==> pending[i] != pending[j])
  }

  /** Distinct identifiers that no blob row uses, from the n-th on. */
  ghost predicate Fresh(db: Db, newIds: seq<Id>, n: nat)
  {
    && (forall i :: n <= i < |newIds| ==> newIds[i] !in db.blobs)
    && (forall i, j :: 0 <= i < j < |newIds| ==> newIds[i] != newIds[j])
  }

  /** What a pass has done after its first n rows. */
  ghost predicate BackfilledTo(db: Db, t: Db, pending: seq<Id>, os: seq<Legacy>, n: nat)
    requires n <= |pending| == |os|
  {
    && SameSlack(db, t) && BlobsExist(t) && t.messages == db.messages
    && t.attachments.Keys == db.attachments.Keys
    && (forall i :: 0 <= i < n ==>
          pending[i] in db.attachments && Filed(db.attachments[pending[i]], t, pending[i], os[i]))
    && (forall a :: a in db.attachments && a !in pending[..n] ==> t.attachments[a] == db.attachments[a])
  }

  lemma RowListed(db: Db, t: Db, pending: seq<Id>, os: seq<Legacy>, n: nat)
    requires n < |pending| == |os| && Candidates(db, pending) && BackfilledTo(db, t, pending, os, n)
    ensures Listed(t, pending[n])
  {
    assert pending[n] !in pending[..n];
  }

  lemma PassStep(db: Db, t: Db, pending: seq<Id>, os: seq<Legacy>, n: nat, id: Id)
    requires n < |pending| == |os| && Candidates(db, pending) && BackfilledTo(db, t, pending, os, n)
    requires Listed(t, pending[n]) && (os[n].Copied? ==> IsRowFor(t, os[n].sha, id))
    ensures BackfilledTo(db, BackfillStep(t, pending[n], os[n], id), pending, os, n + 1)
  {
    var att := pending[n];
    StepKeepsSlack(t, att, os[n], id);
    StepRows(t, att, os[n], id);
    assert pending[..n + 1] == pending[..n] + [att];
  }

  lemma FreshStep(t: Db, att: Id, o: Legacy, newIds: seq<Id>, n: nat, id: Id)
    requires n < |newIds| && Fresh(t, newIds, n) && (id == newIds[n] || id in t.blobs)
    requires BlobsExist(t) && Listed(t, att) && (o.Copied? ==> IsRowFor(t, o.sha, id))
    ensures Fresh(BackfillStep(t, att, o, id), newIds, n + 1)
  {
    StepRows(t, att, o, id);
  }

  /** A pass of backfill over the listed rows: whatever happens to each file, no reference
      is leaked, each row ends as its file deserves, and no other row changes. */
  method Backfill(store: Store, pending: seq<Id>, os: seq<Legacy>, newIds: seq<Id>) returns (migrated: nat)
    requires |pending| == |os| == |newIds| && BlobsExist(store.db)
    requires Candidates(store.db, pending) && Fresh(store.db, newIds, 0)
    modifies store
    ensures BackfilledTo(old(store.db), store.db, pending, os, |pending|)
    ensures store.db.messages == old(store.db).messages && store.db.attachments.Keys == old(store.db).attachments.Keys
    ensures forall a :: a in old(store.db).attachments && a !in pending ==>
      store.db.attachments[a] == old(store.db).attachments[a]
    ensures forall i :: 0 <= i < |pending| ==>
      && pending[i] in old(store.db).attachments && pending[i] in store.db.attachments
      && var before, row := old(store.db).attachments[pending[i]], store.db.attachments[pending[i]];
         match os[i]
         case Missing => row == before.(blob := None, localPath := None)
         case Unreadable => row == before
         case Copied(sha, _, linkFails) =>
           if linkFails then row == before
           else row.blob.Some? && row == before.(blob := row.blob, localPath := None)
                && row.blob.value in store.db.blobs && store.db.blobs[row.blob.value].sha == sha
    ensures migrated == |set i | 0 <= i < |os| && os[i].Copied? && !os[i].linkFails|
  {
    ghost var db0 := store.db;
    MigrationsAre(os);
    migrated := 0;
    for i := 0 to |pending|
      invariant BackfilledTo(db0, store.db, pending, os, i) && Fresh(store.db, newIds, i)
      invariant migrated == Migrations(os[..i])
    {
      ghost var before := store.db;
      RowListed(db0, before, pending, os, i);
      assert BlobsExist(before) && newIds[i] !in before.blobs;
      var done, id := BackfillRow(store, pending[i], os[i], newIds[i]);
      PassStep(db0, before, pending, os, i, id);
      FreshStep(before, pending[i], os[i], newIds, i, id);
      assert os[..i + 1][..i] == os[..i];
      if done {
        migrated := migrated + 1;
      }
    }
    assert os[..|os|] == os;
  }
}
