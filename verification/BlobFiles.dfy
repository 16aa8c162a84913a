/**
 * The content-addressed blob files: writers that stage, sync and rename, the copy
 * for a foreign temporary file system, the sweep's unlink, and crashes.
 *
 * Names and files (inodes) are separate.  A crash may bring back any binding a name
 * ever had and may leave anything in a file that was not synced, so integrity rests
 * on what is renamed being complete and synced, not on the order of the disk.
 */
module BlobFiles {
  import opened Common
  import Runs

  type Digest = Bytes -> string

  datatype Name =
    | Temp(n: nat)                 // os.CreateTemp in the system directory
    | Staging(n: nat)              // os.CreateTemp beside the destination
    | Blob(sha: string)            // BlobPath

  datatype File = File(data: Bytes, synced: bool)

  /** How far a WriteContentAddressed call has come. */
  datatype Writer =
    | Filling(input: Bytes, file: nat)
    | Synced(input: Bytes, file: nat)             // closed; the destination is looked up next
    | Placing(input: Bytes, file: nat)            // the destination was absent
    | Copying(input: Bytes, file: nat, copy: nat) // rename crossed devices
    | Staged(input: Bytes, file: nat, copy: nat)  // staging file synced and closed
    | Returned(sha: string)

  datatype Disk = Disk(
    names: map<Name, nat>,
    files: map<nat, File>,
    bound: set<(Name, nat)>,       // history: every binding there ever was
    writers: map<nat, Writer>,
    unlinked: set<string>)         // history: digests unlinked since last bound or crash

  datatype Step =
    | Open(w: nat, input: Bytes, f: nat)
    | Write(w: nat, upTo: nat)
    | SyncTemp(w: nat)
    | FoundThere(w: nat)
    | NotThere(w: nat)
    | Rename(w: nat)
    | CrossDevice(w: nat, g: nat)
    | Copy(w: nat, upTo: nat)
    | SyncStaging(w: nat)
    | RenameStaging(w: nat)
    | Fail(w: nat)                 // any error return; the deferred removes run
    | Unlink(sha: string)
    | Crash(names: map<Name, nat>, files: map<nat, File>)

  function Bind(d: Disk, n: Name, f: nat): Disk
  {
    d.(names := d.names[n := f], bound := d.bound + {(n, f)},
       unlinked := if n.Blob? then d.unlinked - {n.sha} else d.unlinked)
  }

  function Drop(d: Disk, gone: set<Name>): Disk
  {
    d.(names := d.names - gone)
  }

  function At(d: Disk, w: nat, pc: Writer): Disk
  {
    d.(writers := d.writers[w := pc])
  }

  /** Names a call removes on its way out. */
  function Litter(pc: Writer): set<Name>
  {
    match pc
    case Copying(_, f, g) => {Temp(f), Staging(g)}
    case Staged(_, f, g) => {Temp(f), Staging(g)}
    case Returned(_) => {}
    case Filling(_, f) => {Temp(f)}
    case Synced(_, f) => {Temp(f)}
    case Placing(_, f) => {Temp(f)}
  }

  predicate Enabled(digest: Digest, d: Disk, s: Step)
  {
    match s
    case Open(w, _, f) => w !in d.writers && f !in d.files
    case Write(w, upTo) =>
      && w in d.writers && d.writers[w].Filling? && d.writers[w].file in d.files
      && |d.files[d.writers[w].file].data| < upTo <= |d.writers[w].input|
    case SyncTemp(w) =>
      && w in d.writers && d.writers[w].Filling? && d.writers[w].file in d.files
      && |d.files[d.writers[w].file].data| == |d.writers[w].input|
    case FoundThere(w) => w in d.writers && d.writers[w].Synced? && Blob(digest(d.writers[w].input)) in d.names
    case NotThere(w) => w in d.writers && d.writers[w].Synced? && Blob(digest(d.writers[w].input)) !in d.names
    case Rename(w) => w in d.writers && d.writers[w].Placing? && Temp(d.writers[w].file) in d.names
    case CrossDevice(w, g) =>
      w in d.writers && d.writers[w].Placing? && Temp(d.writers[w].file) in d.names && g !in d.files
    case Copy(w, upTo) =>
      && w in d.writers && d.writers[w].Copying?
      && d.writers[w].file in d.files && d.writers[w].copy in d.files
      && |d.files[d.writers[w].copy].data| < upTo <= |d.files[d.writers[w].file].data|
    case SyncStaging(w) =>
      && w in d.writers && d.writers[w].Copying?
      && d.writers[w].file in d.files && d.writers[w].copy in d.files
      && |d.files[d.writers[w].copy].data| == |d.files[d.writers[w].file].data|
    case RenameStaging(w) => w in d.writers && d.writers[w].Staged? && Staging(d.writers[w].copy) in d.names
    case Fail(w) => w in d.writers
    case Unlink(sha) => true
    case Crash(names, files) =>
      && (forall n :: n in names ==> (n, names[n]) in d.bound)
      && files.Keys == d.files.Keys
      && (forall f :: f in d.files ==> files[f].synced == d.files[f].synced)
      && (forall f :: f in d.files && d.files[f].synced ==> files[f] == d.files[f])
  }

  function Apply(digest: Digest, d: Disk, s: Step): Disk
    requires Enabled(digest, d, s)
  {
    match s
    case Open(w, input, f) =>
      At(Bind(d.(files := d.files[f := File([], false)]), Temp(f), f), w, Filling(input, f))
    case Write(w, upTo) =>
      var f := d.writers[w].file;
      d.(files := d.files[f := d.files[f].(data := d.writers[w].input[..upTo])])
    case SyncTemp(w) =>
      var f := d.writers[w].file;
      At(d.(files := d.files[f := d.files[f].(synced := true)]), w, Synced(d.writers[w].input, f))
    case FoundThere(w) =>
      At(Drop(d, Litter(d.writers[w])), w, Returned(digest(d.writers[w].input)))
    case NotThere(w) => At(d, w, Placing(d.writers[w].input, d.writers[w].file))
    case Rename(w) =>
      var sha := digest(d.writers[w].input);
      var f := d.names[Temp(d.writers[w].file)];
      At(Drop(Bind(d, Blob(sha), f), Litter(d.writers[w])), w, Returned(sha))
    case CrossDevice(w, g) =>
      At(Bind(d.(files := d.files[g := File([], false)]), Staging(g), g), w,
         Copying(d.writers[w].input, d.writers[w].file, g))
    case Copy(w, upTo) =>
      var f, g := d.writers[w].file, d.writers[w].copy;
      d.(files := d.files[g := d.files[g].(data := d.files[f].data[..upTo])])
    case SyncStaging(w) =>
      var g := d.writers[w].copy;
      At(d.(files := d.files[g := d.files[g].(synced := true)]), w,
         Staged(d.writers[w].input, d.writers[w].file, g))
    case RenameStaging(w) =>
      var sha := digest(d.writers[w].input);
      var g := d.names[Staging(d.writers[w].copy)];
      At(Drop(Bind(d, Blob(sha), g), Litter(d.writers[w])), w, Returned(sha))
    case Fail(w) => Drop(d, Litter(d.writers[w])).(writers := d.writers - {w})
    case Unlink(sha) => Drop(d, {Blob(sha)}).(unlinked := d.unlinked + {sha})
    case Crash(names, files) => Disk(names, files, d.bound, map[], {})
  }

  /** Nothing bound, nobody writing. */
  predicate Initial(d: Disk)
  {
    d == Disk(map[], map[], {}, map[], {})
  }

  predicate Next(digest: Digest, d: Disk, s: Step, t: Disk)
  {
    Enabled(digest, d, s) && t == Apply(digest, d, s)
  }

  function Steps(digest: Digest): (Disk, Step, Disk) -> bool
  {
    (d, s, t) => Next(digest, d, s, t)
  }

  ghost predicate Reachable(digest: Digest, d: Disk)
  {
    Runs.Reachable(Initial, Steps(digest), d)
  }

  /** Files a call is still writing or about to rename. */
  function Owned(pc: Writer): set<nat>
  {
    match pc
    case Copying(_, f, g) => {f, g}
    case Staged(_, f, g) => {f, g}
    case Returned(_) => {}
    case Filling(_, f) => {f}
    case Synced(_, f) => {f}
    case Placing(_, f) => {f}
  }

  /** A name only ever denotes its own file, and a blob name only a complete one. */
  predicate BindingOk(digest: Digest, d: Disk, n: Name, f: nat)
  {
    && f in d.files
    && match n
       case Temp(k) => f == k
       case Staging(k) => f == k
       case Blob(sha) => d.files[f].synced && digest(d.files[f].data) == sha
  }

  predicate Partial(d: Disk, f: nat, input: Bytes)
  {
    f in d.files && !d.files[f].synced && d.files[f].data <= input
  }

  predicate Complete(d: Disk, f: nat, input: Bytes)
  {
    f in d.files && d.files[f] == File(input, true)
  }

  predicate WriterOk(d: Disk, pc: Writer)
  {
    match pc
    case Filling(input, f) => Partial(d, f, input)
    case Synced(input, f) => Complete(d, f, input)
    case Placing(input, f) => Complete(d, f, input)
    case Copying(input, f, g) => Complete(d, f, input) && Partial(d, g, input)
    case Staged(input, f, g) => Complete(d, f, input) && Complete(d, g, input)
    case Returned(sha) => Blob(sha) in d.names || sha in d.unlinked
  }

  ghost predicate Inv(digest: Digest, d: Disk)
  {
    && (forall n :: n in d.names ==> (n, d.names[n]) in d.bound)
    && (forall n, f :: (n, f) in d.bound ==> BindingOk(digest, d, n, f))
    && (forall w :: w in d.writers ==> WriterOk(d, d.writers[w]))
    && (forall sha :: sha in d.unlinked ==> Blob(sha) !in d.names)
    && (forall v, w :: v in d.writers && w in d.writers && v != w ==> Owned(d.writers[v]) !! Owned(d.writers[w]))
  }

  /** Growing or syncing a file that is not yet complete disturbs nobody else. */
  lemma TouchFile(digest: Digest, d: Disk, w: nat, f: nat, file: File, pc: Writer)
    requires Inv(digest, d) && w in d.writers && f in Owned(d.writers[w])
    requires f in d.files && !d.files[f].synced
    requires Owned(pc) == Owned(d.writers[w])
    requires WriterOk(d.(files := d.files[f := file]), pc)
    ensures Inv(digest, At(d.(files := d.files[f := file]), w, pc))
  {
    var t := At(d.(files := d.files[f := file]), w, pc);
    forall n, k | (n, k) in t.bound ensures BindingOk(digest, t, n, k) {
      assert BindingOk(digest, d, n, k);
    }
    forall v | v in t.writers ensures WriterOk(t, t.writers[v]) {
      if v != w {
        assert WriterOk(d, d.writers[v]) && f !in Owned(d.writers[v]);
      }
    }
  }

  /** A fresh temporary file. */
  lemma NewFile(digest: Digest, d: Disk, w: nat, n: Name, f: nat, pc: Writer)
    requires Inv(digest, d) && f !in d.files && (n == Temp(f) || n == Staging(f))
    requires forall k :: k in Owned(pc) ==> k == f || (w in d.writers && k in Owned(d.writers[w]))
    requires WriterOk(d.(files := d.files[f := File([], false)]), pc) && !pc.Returned?
    ensures Inv(digest, At(Bind(d.(files := d.files[f := File([], false)]), n, f), w, pc))
  {
    var t := At(Bind(d.(files := d.files[f := File([], false)]), n, f), w, pc);
    NobodyOwns(digest, d, f);
    MoreFiles(digest, d, t);
    forall m, k | (m, k) in t.bound ensures BindingOk(digest, t, m, k) {
    }
    forall v | v in t.writers && v != w ensures WriterOk(t, t.writers[v]) {
    }
  }

  lemma NobodyOwns(digest: Digest, d: Disk, f: nat)
    requires Inv(digest, d) && f !in d.files
    ensures forall v :: v in d.writers ==> f !in Owned(d.writers[v])
  {
    forall v | v in d.writers ensures f !in Owned(d.writers[v]) {
      assert WriterOk(d, d.writers[v]);
    }
  }

  /** A disk with more files serves everything the smaller one did. */
  lemma MoreFiles(digest: Digest, d: Disk, t: Disk)
    requires Inv(digest, d) && t.unlinked == d.unlinked
    requires forall f :: f in d.files ==> f in t.files && t.files[f] == d.files[f]
    requires forall n :: n in d.names ==> n in t.names
    ensures forall n, f :: (n, f) in d.bound ==> BindingOk(digest, t, n, f)
    ensures forall v :: v in d.writers ==> WriterOk(t, d.writers[v])
  {
    forall n, f | (n, f) in d.bound ensures BindingOk(digest, t, n, f) {
      assert BindingOk(digest, d, n, f);
    }
    forall v | v in d.writers ensures WriterOk(t, d.writers[v]) {
      assert WriterOk(d, d.writers[v]);
    }
  }

  /** Binding a complete file to the blob name of its digest and dropping the litter. */
  lemma Place(digest: Digest, d: Disk, w: nat, f: nat)
    requires Inv(digest, d) && w in d.writers && !d.writers[w].Returned?
    requires Complete(d, f, d.writers[w].input)
    ensures var sha := digest(d.writers[w].input);
      Inv(digest, At(Drop(Bind(d, Blob(sha), f), Litter(d.writers[w])), w, Returned(sha)))
  {
    var sha := digest(d.writers[w].input);
    var t := At(Drop(Bind(d, Blob(sha), f), Litter(d.writers[w])), w, Returned(sha));
    assert Blob(sha) !in Litter(d.writers[w]);
    forall n, k | (n, k) in t.bound ensures BindingOk(digest, t, n, k) {
      if (n, k) != (Blob(sha), f) {
        assert BindingOk(digest, d, n, k);
      }
    }
    Others(digest, d, t, w);
  }

  /** Calls other than w are unaffected when files stay, blob names only come, and w
      gives files up. */
  lemma Others(digest: Digest, d: Disk, t: Disk, w: nat)
    requires Inv(digest, d) && t.files == d.files
    requires forall sha :: Blob(sha) in d.names || sha in d.unlinked ==> Blob(sha) in t.names || sha in t.unlinked
    ensures forall v :: v in d.writers && v != w ==> WriterOk(t, d.writers[v])
  {
    forall v | v in d.writers && v != w ensures WriterOk(t, d.writers[v]) {
      assert WriterOk(d, d.writers[v]);
    }
  }

  lemma InvWriting(digest: Digest, d: Disk, s: Step)
    requires Inv(digest, d) && Enabled(digest, d, s)
    requires s.Open? || s.Write? || s.SyncTemp? || s.CrossDevice? || s.Copy? || s.SyncStaging?
    ensures Inv(digest, Apply(digest, d, s))
  {
    match s
    case Open(w, input, f) => NewFile(digest, d, w, Temp(f), f, Filling(input, f));
    case CrossDevice(w, g) =>
      assert WriterOk(d, d.writers[w]);
      NewFile(digest, d, w, Staging(g), g, Copying(d.writers[w].input, d.writers[w].file, g));
    case Write(w, upTo) =>
      var pc := d.writers[w];
      assert WriterOk(d, pc);
      assert d.writers[w := pc] == d.writers;
      TouchFile(digest, d, w, pc.file, d.files[pc.file].(data := pc.input[..upTo]), pc);
    case SyncTemp(w) =>
      var pc := d.writers[w];
      assert WriterOk(d, pc);
      TouchFile(digest, d, w, pc.file, d.files[pc.file].(synced := true), Synced(pc.input, pc.file));
    case Copy(w, upTo) =>
      var pc := d.writers[w];
      assert WriterOk(d, pc);
      assert d.writers[w := pc] == d.writers;
      TouchFile(digest, d, w, pc.copy, d.files[pc.copy].(data := d.files[pc.file].data[..upTo]), pc);
    case SyncStaging(w) =>
      var pc := d.writers[w];
      assert WriterOk(d, pc);
      TouchFile(digest, d, w, pc.copy, d.files[pc.copy].(synced := true), Staged(pc.input, pc.file, pc.copy));
  }

  lemma InvPlacing(digest: Digest, d: Disk, s: Step)
    requires Inv(digest, d) && Enabled(digest, d, s) && (s.Rename? || s.RenameStaging?)
    ensures Inv(digest, Apply(digest, d, s))
  {
    var pc := d.writers[s.w];
    var n := if s.Rename? then Temp(pc.file) else Staging(pc.copy);
    assert WriterOk(d, pc) && BindingOk(digest, d, n, d.names[n]);
    Place(digest, d, s.w, d.names[n]);
  }

  lemma InvNaming(digest: Digest, d: Disk, s: Step)
    requires Inv(digest, d) && Enabled(digest, d, s)
    requires s.FoundThere? || s.NotThere? || s.Fail?
    ensures Inv(digest, Apply(digest, d, s))
  {
    var t := Apply(digest, d, s);
    Unbound(digest, d, t);
    assert WriterOk(d, d.writers[s.w]);
    Others(digest, d, t, s.w);
  }

  lemma InvUnlink(digest: Digest, d: Disk, sha: string)
    requires Inv(digest, d)
    ensures Inv(digest, Apply(digest, d, Unlink(sha)))
  {
    var t := Apply(digest, d, Unlink(sha));
    Unbound(digest, d, t);
    forall w | w in t.writers ensures WriterOk(t, t.writers[w]) {
      assert WriterOk(d, d.writers[w]);
    }
  }

  /** Bindings stay right when no name is added and no file changes. */
  lemma Unbound(digest: Digest, d: Disk, t: Disk)
    requires Inv(digest, d) && t.files == d.files && t.bound == d.bound
    ensures forall n, f :: (n, f) in t.bound ==> BindingOk(digest, t, n, f)
  {
    forall n, f | (n, f) in t.bound ensures BindingOk(digest, t, n, f) {
      assert BindingOk(digest, d, n, f);
    }
  }

  lemma InvCrash(digest: Digest, d: Disk, s: Step)
    requires Inv(digest, d) && Enabled(digest, d, s) && s.Crash?
    ensures Inv(digest, Apply(digest, d, s))
  {
    var t := Apply(digest, d, s);
    forall n, f | (n, f) in t.bound ensures BindingOk(digest, t, n, f) {
      assert BindingOk(digest, d, n, f);
    }
  }

  lemma InvStep(digest: Digest, d: Disk, s: Step, t: Disk)
    requires Inv(digest, d) && Next(digest, d, s, t)
    ensures Inv(digest, t)
  {
    if s.Crash? {
      InvCrash(digest, d, s);
    } else if s.Rename? || s.RenameStaging? {
      InvPlacing(digest, d, s);
    } else if s.Unlink? {
      InvUnlink(digest, d, s.sha);
    } else if s.FoundThere? || s.NotThere? || s.Fail? {
      InvNaming(digest, d, s);
    } else {
      InvWriting(digest, d, s);
    }
  }

  lemma ReachableInv(digest: Digest, d: Disk)
    requires Reachable(digest, d)
    ensures Inv(digest, d)
  {
    forall x, s, y | Inv(digest, x) && Steps(digest)(x, s, y) ensures Inv(digest, y) {
      InvStep(digest, x, s, y);
    }
    Runs.InvariantReachable(Initial, Steps(digest), x => Inv(digest, x), d);
  }

  /** Whatever is found at a blob's path hashes to the blob's digest and is on stable
      storage: over every interleaving of writers, copies, sweeps and crashes. */
  lemma BlobIntegrity(digest: Digest, d: Disk, sha: string)
    requires Reachable(digest, d) && Blob(sha) in d.names
    ensures d.names[Blob(sha)] in d.files
    ensures digest(d.files[d.names[Blob(sha)]].data) == sha
    ensures d.files[d.names[Blob(sha)]].synced
  {
    ReachableInv(digest, d);
    assert BindingOk(digest, d, Blob(sha), d.names[Blob(sha)]);
  }

  /** A call that returned a digest has its blob in place exactly as long as no sweep has
      unlinked it since the name was last bound, before a crash at least. */
  lemma ReturnedIsStored(digest: Digest, d: Disk, w: nat)
    requires Reachable(digest, d) && w in d.writers && d.writers[w].Returned?
    ensures Blob(d.writers[w].sha) in d.names <==> d.writers[w].sha !in d.unlinked
  {
    ReachableInv(digest, d);
    assert WriterOk(d, d.writers[w]);
  }

  /** The digest returned is that of the input, and the blob is in place at that moment,
      whatever was unlinked earlier. */
  lemma ReturnPlaces(digest: Digest, d: Disk, s: Step, t: Disk, w: nat)
    requires Reachable(digest, d) && Next(digest, d, s, t)
    requires w in d.writers && !d.writers[w].Returned? && w in t.writers && t.writers[w].Returned?
    ensures t.writers[w].sha == digest(d.writers[w].input)
    ensures Blob(t.writers[w].sha) in t.names && t.writers[w].sha !in t.unlinked
  {
    ReachableInv(digest, d);
  }

  ghost predicate CollisionFree(digest: Digest)
  {
    forall x, y :: digest(x) == digest(y) ==> x == y
  }

  /** A reader that opens a blob twice sees the same bytes: losing the rename race or
      coming back from a crash never shows through. */
  lemma BytesNeverChange(digest: Digest, d: Disk, s: Step, t: Disk, sha: string)
    requires CollisionFree(digest) && Reachable(digest, d) && Next(digest, d, s, t)
    requires Blob(sha) in d.names && Blob(sha) in t.names
    ensures d.names[Blob(sha)] in d.files && t.names[Blob(sha)] in t.files
    ensures d.files[d.names[Blob(sha)]].data == t.files[t.names[Blob(sha)]].data
  {
    assert Steps(digest)(d, s, t);
    Runs.ReachStep(Initial, Steps(digest), d, s, t);
    BlobIntegrity(digest, d, sha);
    BlobIntegrity(digest, t, sha);
  }

  /** A call leaves nothing temporary behind, whichever way it ends. */
  lemma ReturnCleans(digest: Digest, d: Disk, s: Step, w: nat)
    requires Enabled(digest, d, s) && (s == FoundThere(w) || s == Rename(w) || s == RenameStaging(w) || s == Fail(w))
    requires !d.writers[w].Returned?
    ensures var names := Apply(digest, d, s).names;
      && Temp(d.writers[w].file) !in names
      && (d.writers[w].Copying? || d.writers[w].Staged? ==> Staging(d.writers[w].copy) !in names)
  {
  }
}
