/** WriteContentAddressed as one undisturbed call, and the path scheme of the store. */
module BlobWriter {
  import opened Common
  import opened BlobFiles

  /** The calls that can fail, and the one error that is not final. */
  datatype Op = CreateTemp | Read | SyncTemp | Stat | MkdirAll | Rename | CrossDevice
              | CreateStaging | SyncStaging | RenameStaging

  function Concat(chunks: seq<Bytes>): Bytes
  {
    if chunks == [] then [] else Concat(chunks[..|chunks| - 1]) + chunks[|chunks| - 1]
  }

  /** The chunks in the order they were read. */
  lemma ConcatIs(chunks: seq<Bytes>, chunk: Bytes)
    ensures Concat([]) == [] && Concat(chunks + [chunk]) == Concat(chunks) + chunk
  {
    assert (chunks + [chunk])[..|chunks|] == chunks;
  }

  /** Every blob name denotes complete bytes of its digest. */
  ghost predicate Intact(digest: Digest, names: map<Name, nat>, files: map<nat, File>)
  {
    forall sha :: Blob(sha) in names ==>
      names[Blob(sha)] in files && digest(files[names[Blob(sha)]].data) == sha
  }

  class Volume {
    var names: map<Name, nat>
    var files: map<nat, File>

    /** io.Copy through the hash: the bytes hashed are the bytes written. */
    method CopyHashing(chunks: seq<Bytes>, f: nat) returns (hashed: Bytes)
      requires f in files && files[f] == File([], false)
      modifies this`files
      ensures files == old(files)[f := File(Concat(chunks), false)] && hashed == Concat(chunks)
    {
      hashed := [];
      assert files == files[f := File([], false)];
      for i := 0 to |chunks|
        invariant hashed == Concat(chunks[..i])
        invariant files == old(files)[f := File(Concat(chunks[..i]), false)]
      {
        assert chunks[..i + 1][..i] == chunks[..i];
        files := files[f := files[f].(data := files[f].data + chunks[i])];
        hashed := hashed + chunks[i];
      }
      assert chunks[..|chunks|] == chunks;
    }

    /** copyAndRename: re-stream the staged bytes beside the destination. */
    method CopyAndRename(f: nat, dest: string, fails: set<Op>, g: nat) returns (ok: bool)
      requires f in files && g !in files && Staging(g) !in names
      modifies this
      ensures !ok ==> names == old(names)
      ensures ok ==> names == old(names)[Blob(dest) := g] && g in files && files[g] == File(old(files)[f].data, true)
      ensures forall k :: k in old(files) ==> k in files && files[k] == old(files)[k]
    {
      if Op.CreateStaging in fails {
        return false;
      }
      var before := names;
      names, files := names[Staging(g) := g], files[g := File([], false)];
      files := files[g := files[g].(data := files[f].data)];
      if Op.SyncStaging !in fails {
        files := files[g := files[g].(synced := true)];
        if Op.RenameStaging !in fails {
          names := names[Blob(dest) := names[Staging(g)]] - {Staging(g)};
          assert names == before[Blob(dest) := g];
          return true;
        }
      }
      names := names - {Staging(g)};
      assert names == before;
      ok := false;
    }

    /** The body of WriteContentAddressed, before its deferred remove. */
    method Place(chunks: seq<Bytes>, digest: Digest, fails: set<Op>, f: nat, g: nat)
      returns (r: Result<(string, nat), Op>)
      requires Temp(f) in names && names[Temp(f)] == f && Staging(g) !in names && g !in files
      requires f in files && files[f] == File([], false)
      modifies this
      ensures r.Err? ==> names == old(names)
      ensures r.Ok? ==> r.value == (digest(Concat(chunks)), |Concat(chunks)|)
      ensures r.Ok? && Blob(r.value.0) in old(names) ==> names == old(names)
      ensures r.Ok? && Blob(r.value.0) !in old(names) ==>
        && Blob(r.value.0) in names && names[Blob(r.value.0)] in {f, g}
        && names - {Temp(f)} == old(names)[Blob(r.value.0) := names[Blob(r.value.0)]] - {Temp(f)}
        && names[Blob(r.value.0)] in files && files[names[Blob(r.value.0)]] == File(Concat(chunks), true)
      ensures forall k :: k in old(files) && k != f ==> k in files && files[k] == old(files)[k]
    {
      var hashed := CopyHashing(chunks, f);
      if Op.Read in fails {
        return Err(Op.Read);
      }
      var sha := digest(hashed);
      if Op.SyncTemp in fails {
        return Err(Op.SyncTemp);
      }
      files := files[f := files[f].(synced := true)];
      if Op.Stat in fails {
        return Err(Op.Stat);
      }
      if Blob(sha) in names {
        return Ok((sha, |hashed|));
      }
      if Op.MkdirAll in fails {
        return Err(Op.MkdirAll);
      }
      if Op.CrossDevice in fails {
        var ok := CopyAndRename(f, sha, fails, g);
        if !ok {
          return Err(Op.CrossDevice);
        }
      } else if Op.Rename in fails {
        return Err(Op.Rename);
      } else {
        names := names[Blob(sha) := names[Temp(f)]] - {Temp(f)};
      }
      r := Ok((sha, |hashed|));
    }

    /** A success reports the digest and size of everything read and leaves exactly that
        content at the blob's name, without touching a blob that was already there; a
        failure changes no name; either way nothing temporary stays behind. */
    method WriteContentAddressed(chunks: seq<Bytes>, digest: Digest, fails: set<Op>, f: nat, g: nat)
      returns (r: Result<(string, nat), Op>)
      requires f !in files && g !in files && f != g && Temp(f) !in names && Staging(g) !in names
      requires Intact(digest, names, files)
      modifies this
      ensures r.Err? ==> names == old(names)
      ensures r.Ok? ==> r.value == (digest(Concat(chunks)), |Concat(chunks)|) && Blob(r.value.0) in names
      ensures r.Ok? && Blob(r.value.0) in old(names) ==> names == old(names)
      ensures r.Ok? && Blob(r.value.0) !in old(names) ==>
        && names == old(names)[Blob(r.value.0) := names[Blob(r.value.0)]]
        && names[Blob(r.value.0)] in files && files[names[Blob(r.value.0)]] == File(Concat(chunks), true)
      ensures forall k :: k in old(files) ==> k in files && files[k] == old(files)[k]
      ensures Intact(digest, names, files)
    {
      if Op.CreateTemp in fails {
        return Err(Op.CreateTemp);
      }
      var before := names;
      names, files := names[Temp(f) := f], files[f := File([], false)];
      r := Place(chunks, digest, fails, f, g);
      names := names - {Temp(f)};
      assert r.Err? ==> names == before;
      assert r.Ok? && Blob(r.value.0) in before ==> names == before;
      assert r.Ok? && Blob(r.value.0) !in before ==> names == before[Blob(r.value.0) := names[Blob(r.value.0)]];
    }
  }

  /** filepath.Join on parts without separators: empty parts vanish. */
  function Join(dir: string, name: string): string
  {
    if name == "" then dir else dir + "/" + name
  }

  function BlobPath(dataDir: string, sha: string): string
  {
    if |sha| < 4 then Join(Join(Join(dataDir, "blobs"), "_invalid"), sha)
    else Join(Join(Join(Join(dataDir, "blobs"), sha[..2]), sha[2..4]), sha)
  }

  /** The path scheme: two levels of two digits each; what is too short to be a digest has
      a place of its own. */
  lemma BlobPathIs(dataDir: string, sha: string)
    ensures BlobPath(dataDir, sha)
         == if |sha| >= 4 then dataDir + "/blobs/" + sha[..2] + "/" + sha[2..4] + "/" + sha
            else if sha != "" then dataDir + "/blobs/_invalid/" + sha
            else dataDir + "/blobs/_invalid"
  {
    assert dataDir + "/" + "blobs" + "/" == dataDir + "/blobs/";
    assert dataDir + "/" + "blobs" + "/" + "_invalid" + "/" == dataDir + "/blobs/_invalid/";
    assert dataDir + "/" + "blobs" + "/" + "_invalid" == dataDir + "/blobs/_invalid";
  }

  /** filepath.Base. */
  function Base(path: string): (name: string)
    ensures '/' !in name
  {
    if path == [] then []
    else if path[|path| - 1] == '/' then []
    else Base(path[..|path| - 1]) + [path[|path| - 1]]
  }

  lemma {:induction false} BaseOfJoin(dir: string, name: string)
    requires '/' !in name
    ensures Base(dir + "/" + name) == name
  {
    var path := dir + "/" + name;
    if name == [] {
      assert path[|path| - 1] == '/';
    } else {
      assert name == name[..|name| - 1] + [name[|name| - 1]];
      assert path[..|path| - 1] == dir + "/" + name[..|name| - 1];
      BaseOfJoin(dir, name[..|name| - 1]);
    }
  }

  predicate Hex(s: string)
  {
    forall c :: c in s ==> '0' <= c <= '9' || 'a' <= c <= 'f'
  }

  /** The digest can be read back from its path. */
  lemma BlobPathBase(dataDir: string, sha: string)
    requires Hex(sha)
    ensures Base(BlobPath(dataDir, sha)) == if sha == "" then "_invalid" else sha
  {
    if sha == "" {
      BaseOfJoin(Join(dataDir, "blobs"), "_invalid");
    } else if |sha| < 4 {
      BaseOfJoin(Join(Join(dataDir, "blobs"), "_invalid"), sha);
    } else {
      BaseOfJoin(Join(Join(Join(dataDir, "blobs"), sha[..2]), sha[2..4]), sha);
    }
  }

  /** No two digests share a file, malformed ones included. */
  lemma BlobPathInjective(dataDir: string, a: string, b: string)
    requires Hex(a) && Hex(b) && BlobPath(dataDir, a) == BlobPath(dataDir, b)
    ensures a == b
  {
    BlobPathBase(dataDir, a);
    BlobPathBase(dataDir, b);
    var invalid := "_invalid";
    assert invalid[0] == '_' && invalid[0] in invalid;
  }
}
