/** What a publication prepares before its record is visible (src/auth.rs):
    three private files made durable, then the candidate and the backup copy
    moved to names derived from a random nonce. */
module Staging {
  import opened Namespace
  import opened BackupNames
  import opened BoundPath
  import opened Retention
  import opened Records

  const UNIQUE_NAME_ATTEMPTS := 16

  /** What one attempt draws: random hexadecimal digits and the clock, which
      may be set before the epoch. */
  datatype Attempt = Attempt(nonce: string, stamp: Option<string>)

  /** The live name, the record and the backups of `s` are those of `n0`. */
  ghost predicate EssentialsSame(stem: string, n0: Names, s: Names) {
    && At(s, Named(stem)) == At(n0, Named(stem))
    && At(s, Named(RecordName(stem))) == At(n0, Named(RecordName(stem)))
    && forall p :: KeyOf(stem, p).Some? ==> (p in s <==> p in n0)
  }

  ghost predicate Quiet(stem: string, w: World) {
    !w.env.foreign && forall s :: s in w.survivors ==> EssentialsSame(stem, w.names, s)
  }

  /** A name that a preparation begun in `n0` may use. */
  ghost predicate Scratch(stem: string, n0: Names, p: Path) {
    p != Named(stem) && p != Named(RecordName(stem)) && p !in n0 && KeyOf(stem, p).None?
  }

  /** How far a preparation begun in `w0` may have gone: only scratch names were used. */
  ghost predicate Preparing(stem: string, w0: World, w: World) {
    && Valid(w) && Onward(w0, w) && w0.env.contested == Named(stem)
    && Accounted(w0, w, Named(stem))
    && (forall p :: p != Named(stem) && !Scratch(stem, w0.names, p) ==> At(w.names, p) == At(w0.names, p))
    && (!w0.env.foreign ==> w.owed == w0.owed && At(w.names, Named(stem)) == At(w0.names, Named(stem)))
    && (Quiet(stem, w0) ==> forall s :: s in w.survivors ==> EssentialsSame(stem, w0.names, s))
  }

  lemma PreparingBegins(stem: string, w0: World)
    requires Valid(w0) && w0.env.contested == Named(stem)
    ensures Preparing(stem, w0, w0)
  {
  }

  /** A reading, a flush, or an act of others. */
  lemma PreparingBetween(stem: string, w0: World, w: World, v: World)
    requires Preparing(stem, w0, w) && Valid(v) && Between(w, v)
    ensures Preparing(stem, w0, v)
  {
  }

  lemma FreshIsScratch(stem: string, w0: World, w: World)
    requires Preparing(stem, w0, w) && Valid(w0)
    ensures Scratch(stem, w0.names, Staged(w.draws))
  {
  }

  /** Creating a staged file. */
  lemma PreparingCreates(stem: string, w0: World, w: World, v: World, p: Path, f: File)
    requires Valid(w0) && Preparing(stem, w0, w) && Scratch(stem, w0.names, p) && Valid(v) && Onward(w, v)
    requires Elsewhere(w.names, v.names, {p, w.env.contested}) && Accounted(w, v, w.env.contested)
    requires !w.env.foreign ==>
               && v.owed == w.owed && v.survivors == Surviving(w.survivors, Link(p, f))
               && At(v.names, w.env.contested) == At(w.names, w.env.contested)
    ensures Preparing(stem, w0, v)
  {
  }

  /** A creation that failed, whatever it left under its random name. */
  lemma PreparingLeaves(stem: string, w0: World, w: World, v: World, p: Path)
    requires Valid(w0) && Preparing(stem, w0, w) && Scratch(stem, w0.names, p) && p.Staged? && Valid(v) && Onward(w, v)
    requires Elsewhere(w.names, v.names, {p, w.env.contested}) && Accounted(w, v, w.env.contested)
    requires !w.env.foreign ==>
               && v.owed == w.owed && At(v.names, w.env.contested) == At(w.names, w.env.contested)
               && DifferAt(w.survivors, v.survivors, p)
    ensures Preparing(stem, w0, v)
  {
    forall x | x != Named(stem) && !Scratch(stem, w0.names, x)
      ensures At(v.names, x) == At(w0.names, x)
    {
      assert At(v.names, x) == At(w.names, x);
    }
    if Quiet(stem, w0) {
      forall s | s in v.survivors
        ensures EssentialsSame(stem, w0.names, s)
      {
        assert ComesFrom(w.survivors, s, p);
        var s0 :| s0 in w.survivors && Elsewhere(s0, s, {p});
        assert forall x: Path :: x.Named? ==> At(s, x) == At(s0, x);
        forall x | KeyOf(stem, x).Some?
          ensures x in s <==> x in w0.names
        {
          assert At(s, x) == At(s0, x);
        }
      }
    }
  }

  /** Moving a staged file to a free scratch name. */
  lemma PreparingMoves(stem: string, w0: World, w: World, v: World, a: Path, b: Path, moved: Option<File>)
    requires Preparing(stem, w0, w) && Valid(v) && RenameEffect(w, v, a, b, moved)
    requires Scratch(stem, w0.names, a) && Scratch(stem, w0.names, b)
    ensures Preparing(stem, w0, v)
  {
    if moved.None? {
      PreparingBetween(stem, w0, w, v);
    } else {
      forall x | x != Named(stem) && !Scratch(stem, w0.names, x)
        ensures At(v.names, x) == At(w0.names, x)
      {
        assert At(v.names, x) == At(w.names, x);
      }
      if !w0.env.foreign {
        assert At(v.names, Named(stem)) == At(w.names, Named(stem));
      }
      if Quiet(stem, w0) {
        MovesUntouched(stem, w0.names, w, v, a, b);
      }
    }
  }

  lemma MovesUntouched(stem: string, n0: Names, w: World, v: World, a: Path, b: Path)
    requires forall s :: s in w.survivors ==> EssentialsSame(stem, n0, s)
    requires w.names in w.survivors && v.names == Apply(w.names, Rename(a, b))
    requires v.survivors == {v.names} || v.survivors == Surviving(w.survivors, Rename(a, b))
    requires Scratch(stem, n0, a) && Scratch(stem, n0, b)
    ensures forall s :: s in v.survivors ==> EssentialsSame(stem, n0, s)
  {
  }

  lemma PreparingSynced(stem: string, w0: World, w: World, v: World)
    requires Preparing(stem, w0, w) && Valid(v) && Onward(w, v)
    requires Elsewhere(w.names, v.names, {w.env.contested}) && Accounted(w, v, w.env.contested)
    requires !w.env.foreign ==> v.names == w.names && v.owed == w.owed
    requires !w.env.foreign ==> v.survivors == {v.names} || v.survivors == w.survivors
    ensures Preparing(stem, w0, v)
  {
  }

  lemma PreparingDrops(stem: string, w0: World, w: World, v: World, path: Path, token: FileToken, dropped: bool)
    requires Preparing(stem, w0, w) && Valid(w0) && Scratch(stem, w0.names, path)
    requires DropEffect(w, v, path, token, dropped)
    ensures Preparing(stem, w0, v)
  {
    forall x | x != Named(stem) && !Scratch(stem, w0.names, x)
      ensures At(v.names, x) == At(w0.names, x)
    {
      if x in w0.names {
        assert Drawn(x, w0.draws);
      }
      assert At(w.names, x) == At(w0.names, x);
      assert Drawn(x, w.draws) ==> At(v.names, x) == At(w.names, x);
    }
    if Quiet(stem, w0) {
      forall s | s in v.survivors
        ensures EssentialsSame(stem, w0.names, s)
      {
        var s0 :| s0 in w.survivors && MayLack(s0, s, path, w.draws);
        forall p | KeyOf(stem, p).Some?
          ensures p in s <==> p in w0.names
        {
          assert At(s, p) == At(s0, p);
        }
        assert At(s, Named(stem)) == At(s0, Named(stem));
        assert At(s, Named(RecordName(stem))) == At(s0, Named(RecordName(stem)));
      }
    }
  }

  // ----- owned private files -----------------------------------------------

  /** ExactPrivateFile: a private file whose deletion stays bound to the exact
      file this process made. */
  class ExactPrivateFile {
    var path: Path
    const token: FileToken
    var cleanupOnDrop: bool

    constructor (path: Path, token: FileToken)
      ensures this.path == path && this.token == token && cleanupOnDrop
    {
      this.path := path;
      this.token := token;
      cleanupOnDrop := true;
    }

    method Disarm()
      modifies this`cleanupOnDrop
      ensures !cleanupOnDrop
    {
      cleanupOnDrop := false;
    }
  }

  ghost predicate Holding(stem: string, w0: World, w: World, f: ExactPrivateFile)
    reads f
  {
    && At(w.names, f.path) == Some(f.token) && Drawn(f.path, w.draws)
    && Scratch(stem, w0.names, f.path) && f.path != Named(stem)
  }

  /** Names in use before keep their file, `except` and the live name apart. */
  ghost predicate OthersKept(stem: string, w: World, v: World, except: set<Path>) {
    && Onward(w, v)
    && forall p :: p !in except && p != Named(stem) && Drawn(p, w.draws) ==> At(v.names, p) == At(w.names, p)
  }

  /** Its name holds the exact file, or nothing. */
  ghost predicate ExactOrGone(w: World, f: ExactPrivateFile)
    reads f
  {
    f.path in w.names ==> w.names[f.path] == f.token
  }

  /** Nothing fails, and this process goes on. */
  ghost predicate Working(w: World) {
    !w.env.faults && !w.stopped
  }

  /** Every name but these and the live one holds what it held. */
  ghost predicate SameBut(stem: string, w: World, v: World, except: set<Path>) {
    Elsewhere(w.names, v.names, except + {Named(stem)})
  }

  /** Drop for ExactPrivateFile */
  method Drop(disk: Disk, stem: string, ghost w0: World, f: ExactPrivateFile)
    requires Valid(w0) && Preparing(stem, w0, disk.w)
    requires Scratch(stem, w0.names, f.path) && Drawn(f.path, disk.w.draws)
    modifies disk
    ensures Preparing(stem, w0, disk.w)
    ensures OthersKept(stem, old(disk.w), disk.w, {f.path})
    ensures f.path in disk.w.names ==> At(disk.w.names, f.path) == At(old(disk.w).names, f.path)
    ensures !f.cleanupOnDrop ==> disk.w == old(disk.w)
    ensures f.cleanupOnDrop && Working(old(disk.w)) && At(old(disk.w).names, f.path) == Some(f.token) ==>
              f.path !in disk.w.names && SameBut(stem, old(disk.w), disk.w, {f.path})
  {
    if f.cleanupOnDrop {
      ghost var w1 := disk.w;
      var removed := RemoveBoundPath(disk, f.path, f.token);
      PreparingDrops(stem, w0, w1, disk.w, f.path, f.token, removed.Success?);
    }
  }

  /** prepare_exact_private_file. A failure midway may leave a file with anything
      in it under a random name never used before. */
  method PrepareExactPrivateFile(disk: Disk, stem: string, ghost w0: World, contents: Contents)
    returns (r: Result<ExactPrivateFile>)
    requires Valid(w0) && Preparing(stem, w0, disk.w)
    modifies disk
    ensures Preparing(stem, w0, disk.w)
    ensures OthersKept(stem, old(disk.w), disk.w, {})
    ensures r.Success? ==>
              && fresh(r.value) && r.value.cleanupOnDrop && Holding(stem, w0, disk.w, r.value)
              && r.value.path == Staged(old(disk.w).draws) && r.value.path !in old(disk.w).names
              && SameBut(stem, old(disk.w), disk.w, {r.value.path})
              && r.value.token.contents == contents && r.value.token.identity >= old(disk.w).nextIdentity
    ensures !disk.w.env.faults && !old(disk.w).stopped ==> r.Success?
  {
    ghost var w1 := disk.w;
    FreshIsScratch(stem, w0, w1);
    var created := disk.CreateStaged(contents);
    assert !Drawn(Path.Staged(w1.draws), w1.draws);
    if created.Failure? {
      PreparingLeaves(stem, w0, w1, disk.w, Path.Staged(w1.draws));
      return Failure(created.error);
    }
    var (path, token) := created.value;
    PreparingCreates(stem, w0, w1, disk.w, path, token);
    assert forall p :: Drawn(p, w1.draws) ==> p != path;
    var f := new ExactPrivateFile(path, token);
    r := Success(f);
  }

  /** PreparedExactPrivateFile::make_durable; a file that fails is dropped. */
  method MakeDurable(disk: Disk, stem: string, ghost w0: World, f: ExactPrivateFile) returns (r: Result<()>)
    requires Valid(w0) && Preparing(stem, w0, disk.w) && Holding(stem, w0, disk.w, f)
    modifies disk
    ensures Preparing(stem, w0, disk.w)
    ensures OthersKept(stem, old(disk.w), disk.w, {f.path}) && ExactOrGone(disk.w, f)
    ensures r.Success? ==> Holding(stem, w0, disk.w, f) && f.token.identity in disk.w.flushed
    ensures r.Success? ==> SameBut(stem, old(disk.w), disk.w, {})
    ensures !disk.w.env.faults && !old(disk.w).stopped ==> r.Success?
  {
    ghost var w1 := disk.w;
    r := CheckDurable(disk, stem, w0, f);
    if r.Failure? {
      Drop(disk, stem, w0, f);
    }
  }

  method CheckDurable(disk: Disk, stem: string, ghost w0: World, f: ExactPrivateFile) returns (r: Result<()>)
    requires Valid(w0) && Preparing(stem, w0, disk.w) && Holding(stem, w0, disk.w, f)
    modifies disk
    ensures Preparing(stem, w0, disk.w) && OthersKept(stem, old(disk.w), disk.w, {})
    ensures Holding(stem, w0, disk.w, f) && SameBut(stem, old(disk.w), disk.w, {})
    ensures r.Success? ==> f.token.identity in disk.w.flushed
    ensures !disk.w.env.faults && !old(disk.w).stopped ==> r.Success?
  {
    ghost var w1 := disk.w;
    var flushed := disk.FlushFile(f.token.identity);
    PreparingBetween(stem, w0, w1, disk.w);
    assert At(disk.w.names, f.path) == At(w1.names, f.path);
    if flushed.Failure? {
      return flushed;
    }
    ghost var w2 := disk.w;
    var handleToken := disk.TokenForHandle(f.token.identity);
    PreparingBetween(stem, w0, w2, disk.w);
    assert At(disk.w.names, f.path) == At(w2.names, f.path);
    if handleToken.Failure? || handleToken.value != f.token {
      return Failure(Refused);
    }
    ghost var w3 := disk.w;
    var pathToken := disk.TokenIfPresent(f.path);
    PreparingBetween(stem, w0, w3, disk.w);
    assert At(disk.w.names, f.path) == At(w3.names, f.path);
    if pathToken.Failure? || pathToken.value != Some(f.token) {
      return Failure(Refused);
    }
    return Success(());
  }

  /** make_auth_publication_prerequisites_durable; what is not returned is dropped. */
  method MakeAllDurable(disk: Disk, stem: string, ghost w0: World, c: ExactPrivateFile, b: ExactPrivateFile, r: ExactPrivateFile)
    returns (outcome: Result<()>)
    requires Valid(w0) && Preparing(stem, w0, disk.w)
    requires Holding(stem, w0, disk.w, c) && Holding(stem, w0, disk.w, b) && Holding(stem, w0, disk.w, r)
    requires c.path != b.path && b.path != r.path && c.path != r.path
    modifies disk
    ensures Preparing(stem, w0, disk.w)
    ensures OthersKept(stem, old(disk.w), disk.w, {c.path, b.path, r.path})
    ensures ExactOrGone(disk.w, c) && ExactOrGone(disk.w, b) && ExactOrGone(disk.w, r)
    ensures outcome.Success? ==> SameBut(stem, old(disk.w), disk.w, {})
    ensures outcome.Success? ==>
              && OthersKept(stem, old(disk.w), disk.w, {})
              && Holding(stem, w0, disk.w, c) && Holding(stem, w0, disk.w, b) && Holding(stem, w0, disk.w, r)
              && c.token.identity in disk.w.flushed && b.token.identity in disk.w.flushed && r.token.identity in disk.w.flushed
    ensures !disk.w.env.faults && !old(disk.w).stopped ==> outcome.Success?
  {
    ghost var w1 := disk.w;
    var durable := FlushThree(disk, stem, w0, c, b, r);
    if durable == [true, true, true] {
      return Success(());
    }
    ghost var w2 := disk.w;
    var files := [c, b, r];
    assert c in files && b in files && r in files;
    DropKept(disk, stem, w0, files, durable);
    FlushedThenDropped(stem, w1, w2, disk.w, c, b, r);
    return Failure(Refused);
  }

  lemma FlushedThenDropped(stem: string, w1: World, w2: World, w3: World,
                           c: ExactPrivateFile, b: ExactPrivateFile, r: ExactPrivateFile)
    requires OthersKept(stem, w1, w2, {c.path, b.path, r.path}) && OthersKept(stem, w2, w3, PathsOf([c, b, r]))
    ensures OthersKept(stem, w1, w3, {c.path, b.path, r.path})
  {
    assert PathsOf([c, b, r]) <= {c.path, b.path, r.path};
    forall p | p !in {c.path, b.path, r.path} && p != Named(stem) && Drawn(p, w1.draws)
      ensures At(w3.names, p) == At(w1.names, p)
    {
      assert At(w2.names, p) == At(w1.names, p);
    }
  }

  /** The three flushes; each file whose flush fails drops itself. */
  method FlushThree(disk: Disk, stem: string, ghost w0: World, c: ExactPrivateFile, b: ExactPrivateFile, r: ExactPrivateFile)
    returns (durable: seq<bool>)
    requires Valid(w0) && Preparing(stem, w0, disk.w)
    requires Holding(stem, w0, disk.w, c) && Holding(stem, w0, disk.w, b) && Holding(stem, w0, disk.w, r)
    requires c.path != b.path && b.path != r.path && c.path != r.path
    modifies disk
    ensures OthersKept(stem, old(disk.w), disk.w, {c.path, b.path, r.path})
    ensures ExactOrGone(disk.w, c) && ExactOrGone(disk.w, b) && ExactOrGone(disk.w, r)
    ensures |durable| == 3 && Preparing(stem, w0, disk.w) && Onward(old(disk.w), disk.w)
    ensures durable == [true, true, true] ==> SameBut(stem, old(disk.w), disk.w, {})
    ensures durable == [true, true, true] ==>
              && OthersKept(stem, old(disk.w), disk.w, {})
              && Holding(stem, w0, disk.w, c) && Holding(stem, w0, disk.w, b) && Holding(stem, w0, disk.w, r)
              && c.token.identity in disk.w.flushed && b.token.identity in disk.w.flushed && r.token.identity in disk.w.flushed
    ensures !disk.w.env.faults && !old(disk.w).stopped ==> durable == [true, true, true]
  {
    ghost var w1 := disk.w;
    var candidate := MakeDurable(disk, stem, w0, c);
    ghost var w2 := disk.w;
    assert At(w2.names, b.path) == At(w1.names, b.path) && At(w2.names, r.path) == At(w1.names, r.path);
    var backup := MakeDurable(disk, stem, w0, b);
    ghost var w3 := disk.w;
    assert At(w3.names, r.path) == At(w2.names, r.path);
    var record := MakeDurable(disk, stem, w0, r);
    ExactThroughout(stem, w1, w2, w3, disk.w, c, b, r);
    if candidate.Success? && backup.Success? && record.Success? {
      HeldThroughout(stem, w0, w1, w2, w3, disk.w, c, b, r);
    }
    durable := [candidate.Success?, backup.Success?, record.Success?];
    assert durable == [true, true, true] ==> candidate.Success? && backup.Success? && record.Success?;
  }

  lemma ExactThroughout(stem: string, w1: World, w2: World, w3: World, w4: World,
                        c: ExactPrivateFile, b: ExactPrivateFile, r: ExactPrivateFile)
    requires OthersKept(stem, w1, w2, {c.path}) && OthersKept(stem, w2, w3, {b.path}) && OthersKept(stem, w3, w4, {r.path})
    requires ExactOrGone(w2, c) && ExactOrGone(w3, b) && ExactOrGone(w4, r)
    requires c.path != b.path && b.path != r.path && c.path != r.path
    requires forall f :: f in {c, b, r} ==> f.path != Named(stem) && Drawn(f.path, w1.draws)
    ensures OthersKept(stem, w1, w4, {c.path, b.path, r.path})
    ensures ExactOrGone(w4, c) && ExactOrGone(w4, b)
  {
    assert At(w3.names, c.path) == At(w2.names, c.path) && At(w4.names, c.path) == At(w3.names, c.path);
    assert At(w4.names, b.path) == At(w3.names, b.path);
    forall p | p !in {c.path, b.path, r.path} && p != Named(stem) && Drawn(p, w1.draws)
      ensures At(w4.names, p) == At(w1.names, p)
    {
      assert At(w2.names, p) == At(w1.names, p) && At(w3.names, p) == At(w2.names, p);
    }
  }

  lemma HeldThroughout(stem: string, w0: World, w1: World, w2: World, w3: World, w4: World,
                       c: ExactPrivateFile, b: ExactPrivateFile, r: ExactPrivateFile)
    requires OthersKept(stem, w1, w2, {c.path}) && OthersKept(stem, w2, w3, {b.path}) && OthersKept(stem, w3, w4, {r.path})
    requires Holding(stem, w0, w1, c) && Holding(stem, w0, w1, b) && Holding(stem, w0, w1, r)
    requires Holding(stem, w0, w2, c) && Holding(stem, w0, w3, b) && Holding(stem, w0, w4, r)
    ensures OthersKept(stem, w1, w4, {})
    ensures Holding(stem, w0, w4, c) && Holding(stem, w0, w4, b)
  {
  }

  lemma KeptTwice(stem: string, w: World, v: World, u: World)
    requires OthersKept(stem, w, v, {}) && OthersKept(stem, v, u, {})
    ensures OthersKept(stem, w, u, {})
  {
  }

  ghost function PathsOf(files: seq<ExactPrivateFile>): set<Path>
    reads files
  {
    set f | f in files :: f.path
  }

  /** Each file is in its place, and to be deleted when dropped. */
  ghost predicate InPlace(files: seq<ExactPrivateFile>, n: Names)
    reads files
  {
    && (forall k :: 0 <= k < |files| ==> files[k].cleanupOnDrop && At(n, files[k].path) == Some(files[k].token))
    && forall j, k :: 0 <= j < k < |files| ==> files[j].path != files[k].path
  }

  /** The files from `i` on are gone, the others in place, all else as before. */
  ghost predicate DroppedDownTo(stem: string, w1: World, w: World, files: seq<ExactPrivateFile>, i: nat)
    requires i <= |files|
    reads files
  {
    && SameBut(stem, w1, w, PathsOf(files))
    && (forall k :: 0 <= k < i ==> At(w.names, files[k].path) == Some(files[k].token))
    && forall k :: i <= k < |files| ==> files[k].path !in w.names
  }

  lemma DroppedExactly(stem: string, w1: World, w: World, v: World, files: seq<ExactPrivateFile>, i: nat)
    requires i < |files| && InPlace(files, w1.names) && DroppedDownTo(stem, w1, w, files, i + 1)
    requires files[i].path !in v.names && SameBut(stem, w, v, {files[i].path})
    requires forall f :: f in files ==> f.path != Named(stem)
    ensures DroppedDownTo(stem, w1, v, files, i)
  {
    assert files[i].path in PathsOf(files);
    forall k | 0 <= k < |files| && k != i
      ensures At(v.names, files[k].path) == At(w.names, files[k].path)
    {
      assert files[k] in files && files[k].path != files[i].path;
    }
    forall p | p !in PathsOf(files) + {Named(stem)}
      ensures At(v.names, p) == At(w1.names, p)
    {
      assert p != files[i].path && At(v.names, p) == At(w.names, p);
    }
  }

  /** Drop the files still owned, the last one first. */
  method DropKept(disk: Disk, stem: string, ghost w0: World, files: seq<ExactPrivateFile>, owned: seq<bool>)
    requires Valid(w0) && Preparing(stem, w0, disk.w) && |owned| == |files|
    requires forall f :: f in files ==> Scratch(stem, w0.names, f.path) && Drawn(f.path, disk.w.draws)
    modifies disk
    ensures Preparing(stem, w0, disk.w)
    ensures OthersKept(stem, old(disk.w), disk.w, PathsOf(files))
    ensures forall f :: f in files && ExactOrGone(old(disk.w), f) ==> ExactOrGone(disk.w, f)
    ensures !disk.w.env.faults ==> disk.w.stopped == old(disk.w).stopped
    ensures Working(old(disk.w)) && InPlace(files, old(disk.w).names) && false !in owned ==>
              && SameBut(stem, old(disk.w), disk.w, PathsOf(files))
              && forall f :: f in files ==> f.path !in disk.w.names
  {
    ghost var w1 := disk.w;
    ghost var exact := Working(w1) && InPlace(files, w1.names) && false !in owned;
    var i := |files|;
    while i > 0
      invariant 0 <= i <= |files| && DroppingKept(stem, w0, w1, disk.w, files)
      invariant exact ==> DroppedDownTo(stem, w1, disk.w, files, i)
    {
      i := i - 1;
      if owned[i] {
        DropNext(disk, stem, w0, w1, files, i);
        if exact {
          assert owned[i];
        }
      }
    }
  }

  /** One file of a row that is dropped. */
  method DropNext(disk: Disk, stem: string, ghost w0: World, ghost w1: World, files: seq<ExactPrivateFile>, i: nat)
    requires Valid(w0) && i < |files| && DroppingKept(stem, w0, w1, disk.w, files)
    modifies disk
    ensures DroppingKept(stem, w0, w1, disk.w, files)
    ensures (Working(w1) && InPlace(files, w1.names) && DroppedDownTo(stem, w1, old(disk.w), files, i + 1))
            ==> DroppedDownTo(stem, w1, disk.w, files, i)
  {
    ghost var w2 := disk.w;
    Drop(disk, stem, w0, files[i]);
    DroppedOne(stem, w1, w2, disk.w, files, files[i]);
    if Working(w1) && InPlace(files, w1.names) && DroppedDownTo(stem, w1, w2, files, i + 1) {
      DroppedExactly(stem, w1, w2, disk.w, files, i);
    }
  }

  /** How far dropping `files` since `w1` has gone. */
  ghost predicate DroppingKept(stem: string, w0: World, w1: World, w: World, files: seq<ExactPrivateFile>)
    reads files
  {
    && Preparing(stem, w0, w) && OthersKept(stem, w1, w, PathsOf(files))
    && (forall f :: f in files && ExactOrGone(w1, f) ==> ExactOrGone(w, f))
    && (!w.env.faults ==> w.stopped == w1.stopped)
    && forall f :: f in files ==> Scratch(stem, w0.names, f.path) && Drawn(f.path, w.draws)
  }

  lemma DroppedOne(stem: string, w1: World, w: World, v: World, files: seq<ExactPrivateFile>, f: ExactPrivateFile)
    requires f in files && OthersKept(stem, w1, w, PathsOf(files)) && OthersKept(stem, w, v, {f.path})
    requires f.path in v.names ==> At(v.names, f.path) == At(w.names, f.path)
    requires forall g :: g in files ==> g.path != Named(stem) && Drawn(g.path, w.draws)
    ensures OthersKept(stem, w1, v, PathsOf(files))
    ensures forall g :: g in files && ExactOrGone(w, g) ==> ExactOrGone(v, g)
  {
    forall g | g in files && ExactOrGone(w, g)
      ensures ExactOrGone(v, g)
    {
      assert g.path != f.path ==> At(v.names, g.path) == At(w.names, g.path);
    }
    forall p | p !in PathsOf(files) && p != Named(stem) && Drawn(p, w1.draws)
      ensures At(v.names, p) == At(w1.names, p)
    {
      assert p != f.path && At(v.names, p) == At(w.names, p);
    }
  }

  /** confirm_namespace_boundary while preparing */
  method ConfirmPrepared(disk: Disk, stem: string, ghost w0: World, boundary: Result<()>) returns (r: Result<()>)
    requires Valid(w0) && Preparing(stem, w0, disk.w)
    modifies disk
    ensures Preparing(stem, w0, disk.w) && OthersKept(stem, old(disk.w), disk.w, {})
    ensures r.Success? && disk.w.env.platform.Unix? ==> disk.w.survivors == {disk.w.names}
    ensures r.Success? && disk.w.env.platform.Windows? ==> boundary.Success?
    ensures !disk.w.env.faults && !old(disk.w).stopped && boundary.Success? ==> r.Success?
  {
    if disk.w.env.platform.Windows? {
      return boundary;
    }
    ghost var w1 := disk.w;
    r := disk.SyncParent();
    PreparingSynced(stem, w0, w1, disk.w);
  }

  /** The tokens at two private names while preparing. */
  method ReadTwoNames(disk: Disk, stem: string, ghost w0: World, a: Path, b: Path)
    returns (r: Result<(Option<FileToken>, Option<FileToken>)>)
    requires Valid(w0) && Preparing(stem, w0, disk.w) && a != Named(stem) && b != Named(stem)
    modifies disk
    ensures Preparing(stem, w0, disk.w) && OthersKept(stem, old(disk.w), disk.w, {})
    ensures At(disk.w.names, a) == At(old(disk.w).names, a) && At(disk.w.names, b) == At(old(disk.w).names, b)
    ensures r.Success? ==> r.value == (At(disk.w.names, a), At(disk.w.names, b))
    ensures !disk.w.env.faults && !old(disk.w).stopped ==> r.Success?
  {
    ghost var w1 := disk.w;
    var atA :- disk.TokenIfPresent(a);
    ghost var w2 := disk.w;
    PreparingBetween(stem, w0, w1, w2);
    BetweenKeeps(stem, w1, w2, a);
    BetweenKeeps(stem, w1, w2, b);
    var atB := disk.TokenIfPresent(b);
    PreparingBetween(stem, w0, w2, disk.w);
    BetweenAgain(w1, w2, disk.w);
    BetweenKeeps(stem, w2, disk.w, a);
    BetweenKeeps(stem, w2, disk.w, b);
    if atB.Failure? {
      return Failure(atB.error);
    }
    return Success((atA, atB.value));
  }

  /** move_owned_noreplace. On an error the file may be at either name. */
  method MoveOwnedNoreplace(disk: Disk, stem: string, ghost w0: World, f: ExactPrivateFile, destination: Path)
    returns (r: Result<()>)
    requires Valid(w0) && Preparing(stem, w0, disk.w) && Holding(stem, w0, disk.w, f)
    requires Scratch(stem, w0.names, destination) && destination.Named? && destination != f.path
    modifies disk, f
    ensures Preparing(stem, w0, disk.w) && f.path in {old(f.path), destination}
    ensures OthersKept(stem, old(disk.w), disk.w, {old(f.path), destination})
    ensures r.Success? ==>
              && Holding(stem, w0, disk.w, f) && f.path == destination && old(f.path) !in disk.w.names
              && f.cleanupOnDrop == old(f.cleanupOnDrop)
              && (disk.w.env.platform.Unix? ==> disk.w.survivors == {disk.w.names})
    ensures Working(old(disk.w)) && destination !in old(disk.w).names ==> r.Success?
    ensures f.cleanupOnDrop ==> old(f.cleanupOnDrop)
    ensures r.Failure? && f.cleanupOnDrop != old(f.cleanupOnDrop) ==> At(disk.w.names, f.path) != Some(f.token)
  {
    var source := f.path;
    var boundary, after := RenameAndLook(disk, stem, w0, f, destination);
    if after.Failure? {
      return Failure(after.error);
    }
    var (sourceAfter, destinationAfter) := after.value;
    if destinationAfter == Some(f.token) && sourceAfter.None? {
      f.path := destination;
      ghost var w4 := disk.w;
      var confirmed := ConfirmPrepared(disk, stem, w0, boundary);
      assert At(disk.w.names, source) == At(w4.names, source) && At(disk.w.names, destination) == At(w4.names, destination);
      if confirmed.Failure? {
        return Failure(if boundary.Failure? then boundary.error else confirmed.error);
      }
      return Success(());
    }
    f.cleanupOnDrop := f.cleanupOnDrop && sourceAfter == Some(f.token);
    return Failure(if boundary.Failure? then boundary.error else Refused);
  }

  /** The rename of move_owned_noreplace and the two readings after it. */
  method RenameAndLook(disk: Disk, stem: string, ghost w0: World, f: ExactPrivateFile, destination: Path)
    returns (boundary: Result<()>, after: Result<(Option<FileToken>, Option<FileToken>)>)
    requires Valid(w0) && Preparing(stem, w0, disk.w) && Holding(stem, w0, disk.w, f)
    requires Scratch(stem, w0.names, destination) && destination.Named? && destination != f.path
    modifies disk
    ensures Preparing(stem, w0, disk.w) && OthersKept(stem, old(disk.w), disk.w, {f.path, destination})
    ensures after.Success? ==> after.value == (At(disk.w.names, f.path), At(disk.w.names, destination))
    ensures Working(old(disk.w)) && destination !in old(disk.w).names ==>
              boundary.Success? && after == Success((None, Some(f.token))) && !disk.w.stopped
  {
    ghost var w1 := disk.w;
    ghost var moved;
    boundary, moved := disk.RenameNoReplace(f.path, destination);
    PreparingMoves(stem, w0, w1, disk.w, f.path, destination, moved);
    ghost var w2 := disk.w;
    after := ReadTwoNames(disk, stem, w0, f.path, destination);
  }

  // ----- one attempt -------------------------------------------------------

  function CandidatePath(stem: string, nonce: string): Path {
    Named(RoleName(stem, "candidate", nonce))
  }

  function DisplacedPath(stem: string, nonce: string): Path {
    Named(RoleName(stem, "displaced", nonce))
  }

  function BackupStagePath(stem: string, nonce: string): Path {
    Named(RoleName(stem, "backup", nonce))
  }

  predicate ValidAttempt(a: Attempt) {
    ValidNonce(a.nonce) && a.stamp.Some? && ValidateBackupStamp(a.stamp.value).Some?
  }

  /** None of the names the attempt prints is taken. */
  predicate Unclaimed(platform: Platform, stem: string, a: Attempt, n: Names) {
    && ValidAttempt(a)
    && CandidatePath(stem, a.nonce) !in n && BackupStagePath(stem, a.nonce) !in n
    && Named(BackupName(stem, a.stamp.value, a.nonce)) !in n
    && (platform.Windows? ==> DisplacedPath(stem, a.nonce) !in n)
  }

  lemma RolesAreScratch(stem: string, w0: World, w: World, nonce: string)
    requires Preparing(stem, w0, w)
    ensures CandidatePath(stem, nonce) !in w.names ==> Scratch(stem, w0.names, CandidatePath(stem, nonce))
    ensures BackupStagePath(stem, nonce) !in w.names ==> Scratch(stem, w0.names, BackupStagePath(stem, nonce))
    ensures CandidatePath(stem, nonce) != BackupStagePath(stem, nonce)
    ensures DisplacedPath(stem, nonce) != CandidatePath(stem, nonce) && DisplacedPath(stem, nonce) != BackupStagePath(stem, nonce)
  {
    var candidate, backup, displaced := "candidate" + "-" + nonce, "backup" + "-" + nonce, "displaced" + "-" + nonce;
    PrivateNamesUnmanaged(stem, candidate);
    PrivateNamesUnmanaged(stem, backup);
    RolesDiffer(stem, candidate, "publication");
    RolesDiffer(stem, backup, "publication");
    RolesDiffer(stem, candidate, backup);
    RolesDiffer(stem, displaced, candidate);
    RolesDiffer(stem, displaced, backup);
    assert candidate[0] == 'c' && backup[0] == 'b' && displaced[0] == 'd';
    assert At(w.names, CandidatePath(stem, nonce)) == At(w0.names, CandidatePath(stem, nonce))
           || Scratch(stem, w0.names, CandidatePath(stem, nonce));
    assert At(w.names, BackupStagePath(stem, nonce)) == At(w0.names, BackupStagePath(stem, nonce))
           || Scratch(stem, w0.names, BackupStagePath(stem, nonce));
  }

  /** Whether a name is free, read while preparing. */
  method IsFree(disk: Disk, stem: string, ghost w0: World, p: Path) returns (r: Result<bool>)
    requires Valid(w0) && Preparing(stem, w0, disk.w) && p != Named(stem)
    modifies disk
    ensures Preparing(stem, w0, disk.w) && Between(old(disk.w), disk.w)
    ensures r.Success? ==> (r.value <==> p !in old(disk.w).names)
    ensures !disk.w.env.faults && !old(disk.w).stopped ==> r.Success?
  {
    ghost var w1 := disk.w;
    var token := disk.TokenIfPresent(p);
    PreparingBetween(stem, w0, w1, disk.w);
    assert At(disk.w.names, p) == At(w1.names, p);
    if token.Failure? {
      return Failure(token.error);
    }
    return Success(token.value.None?);
  }

  lemma BetweenKeeps(stem: string, w: World, v: World, p: Path)
    requires Between(w, v) && w.env.contested == Named(stem) && p != Named(stem)
    ensures At(v.names, p) == At(w.names, p)
  {
  }

  /** The collision check that opens an attempt. */
  method NamesUnclaimed(disk: Disk, stem: string, ghost w0: World, a: Attempt) returns (r: Result<bool>)
    requires Valid(w0) && Preparing(stem, w0, disk.w)
    modifies disk
    ensures Preparing(stem, w0, disk.w) && Between(old(disk.w), disk.w)
    ensures r.Success? ==> ValidAttempt(a) && (r.value <==> Unclaimed(disk.w.env.platform, stem, a, old(disk.w).names))
    ensures !disk.w.env.faults && !old(disk.w).stopped && ValidAttempt(a) ==> r.Success?
  {
    if !ValidAttempt(a) {
      return Failure(Refused);
    }
    ghost var w1 := disk.w;
    var candidate, stage := CandidatePath(stem, a.nonce), BackupStagePath(stem, a.nonce);
    var backup, displaced := Named(BackupName(stem, a.stamp.value, a.nonce)), DisplacedPath(stem, a.nonce);
    PrintedApart(stem, a);
    var rolesFree :- BothFree(disk, stem, w0, candidate, stage);
    if !rolesFree {
      return Success(false);
    }
    ghost var w2 := disk.w;
    BetweenKeeps(stem, w1, w2, backup);
    BetweenKeeps(stem, w1, w2, displaced);
    var backupFree;
    if disk.w.env.platform.Unix? {
      backupFree := IsFree(disk, stem, w0, backup);
    } else {
      backupFree := BothFree(disk, stem, w0, backup, displaced);
    }
    BetweenAgain(w1, w2, disk.w);
    return backupFree;
  }

  /** The names an attempt prints are pairwise apart and none is the live name. */
  lemma PrintedApart(stem: string, a: Attempt)
    requires ValidAttempt(a)
    ensures
      var c, b, d := CandidatePath(stem, a.nonce), BackupStagePath(stem, a.nonce), DisplacedPath(stem, a.nonce);
      var k := Named(BackupName(stem, a.stamp.value, a.nonce));
      && c != b && d !in {c, b} && k !in {c, b, d} && Named(stem) !in {c, b, d, k}
  {
    var candidate, backup, displaced := "candidate" + "-" + a.nonce, "backup" + "-" + a.nonce, "displaced" + "-" + a.nonce;
    RolesDiffer(stem, candidate, backup);
    RolesDiffer(stem, displaced, candidate);
    RolesDiffer(stem, displaced, backup);
    BackupIsManaged(stem, a.stamp.value, a.nonce);
    PrivateNamesUnmanaged(stem, candidate);
    PrivateNamesUnmanaged(stem, backup);
    PrivateNamesUnmanaged(stem, displaced);
    assert candidate[0] == 'c' && backup[0] == 'b' && displaced[0] == 'd';
  }

  /** Whether two names are free; the second is read only if the first is. */
  method BothFree(disk: Disk, stem: string, ghost w0: World, p: Path, q: Path) returns (r: Result<bool>)
    requires Valid(w0) && Preparing(stem, w0, disk.w) && p != Named(stem) && q != Named(stem)
    modifies disk
    ensures Preparing(stem, w0, disk.w) && Between(old(disk.w), disk.w)
    ensures r.Success? ==> (r.value <==> p !in old(disk.w).names && q !in old(disk.w).names)
    ensures !disk.w.env.faults && !old(disk.w).stopped ==> r.Success?
  {
    ghost var w1 := disk.w;
    r := IsFree(disk, stem, w0, p);
    if r == Success(true) {
      ghost var w2 := disk.w;
      BetweenKeeps(stem, w1, w2, q);
      r := IsFree(disk, stem, w0, q);
      BetweenAgain(w1, w2, disk.w);
    }
  }

  datatype Prepared = Prepared(
    record: PublicationRecord,
    candidate: ExactPrivateFile,
    backupStage: ExactPrivateFile,
    recordStage: ExactPrivateFile)

  /** The three files of a preparation, with the record that describes them. */
  ghost predicate Files(stem: string, w0: World, w: World, a: Attempt, expected: FileToken, contents: Contents, p: Prepared)
    reads p.candidate, p.backupStage, p.recordStage
  {
    && Holding(stem, w0, w, p.candidate) && Holding(stem, w0, w, p.backupStage) && Holding(stem, w0, w, p.recordStage)
    && p.candidate != p.backupStage && p.candidate != p.recordStage && p.backupStage != p.recordStage
    && p.candidate.path != p.backupStage.path && p.candidate.path != p.recordStage.path
    && p.backupStage.path != p.recordStage.path && p.recordStage.path.Staged?
    && p.candidate.cleanupOnDrop && p.backupStage.cleanupOnDrop && p.recordStage.cleanupOnDrop
    && ValidAttempt(a)
    && p.record == PublicationRecord(RECORD_VERSION, a.nonce, a.stamp.value, expected, p.candidate.token, p.backupStage.token)
    && p.candidate.token.contents == contents && p.backupStage.token.contents == expected.contents
    && p.recordStage.token.contents == Encoded(p.record)
    && p.candidate.token.identity > expected.identity && p.backupStage.token.identity > expected.identity
  }

  ghost predicate Flushed(w: World, p: Prepared) {
    && p.candidate.token.identity in w.flushed && p.backupStage.token.identity in w.flushed
    && p.recordStage.token.identity in w.flushed
  }

  /** Only the three files came, each under a name that was free. */
  ghost predicate AllNew(stem: string, w: World, v: World, paths: set<Path>) {
    SameBut(stem, w, v, paths) && forall x :: x in paths ==> x !in w.names
  }

  ghost function ThreePaths(p: Prepared): set<Path>
    reads p.candidate, p.backupStage, p.recordStage
  {
    {p.candidate.path, p.backupStage.path, p.recordStage.path}
  }

  /** These names are free, and all else is as before. */
  ghost predicate Cleared(stem: string, w: World, v: World, paths: set<Path>) {
    SameBut(stem, w, v, paths) && forall x :: x in paths ==> x !in v.names
  }

  /** The staging half of an attempt: candidate, backup copy and record. */
  method StageFiles(disk: Disk, stem: string, ghost w0: World, a: Attempt, expected: FileToken, contents: Contents)
    returns (r: Result<Prepared>)
    requires Valid(w0) && Preparing(stem, w0, disk.w) && ValidAttempt(a) && expected.identity < disk.w.nextIdentity
    modifies disk
    ensures Preparing(stem, w0, disk.w)
    ensures r.Success? ==>
              && fresh({r.value.candidate, r.value.backupStage, r.value.recordStage})
              && OthersKept(stem, old(disk.w), disk.w, {})
              && Files(stem, w0, disk.w, a, expected, contents, r.value)
              && r.value.candidate.path.Staged? && r.value.backupStage.path.Staged?
              && AllNew(stem, old(disk.w), disk.w, ThreePaths(r.value))
    ensures !disk.w.env.faults && !old(disk.w).stopped ==> r.Success?
  {
    ghost var w1 := disk.w;
    var pair :- StagePair(disk, stem, w0, contents, expected.contents);
    var (candidate, backup) := pair;
    ghost var w2 := disk.w;
    var record := PublicationRecord(RECORD_VERSION, a.nonce, a.stamp.value, expected, candidate.token, backup.token);
    var staged := PrepareExactPrivateFile(disk, stem, w0, Encoded(record));
    assert At(disk.w.names, candidate.path) == At(w2.names, candidate.path);
    assert At(disk.w.names, backup.path) == At(w2.names, backup.path);
    if staged.Failure? {
      DropKept(disk, stem, w0, [candidate, backup], [true, true]);
      return Failure(staged.error);
    }
    KeptTwice(stem, w1, w2, disk.w);
    ThreeAreNew(stem, w1, w2, disk.w, candidate.path, backup.path, staged.value.path);
    return Success(Prepared(record, candidate, backup, staged.value));
  }

  /** Two staged files; if the second fails the first is dropped. */
  method StagePair(disk: Disk, stem: string, ghost w0: World, first: Contents, second: Contents)
    returns (r: Result<(ExactPrivateFile, ExactPrivateFile)>)
    requires Valid(w0) && Preparing(stem, w0, disk.w)
    modifies disk
    ensures Preparing(stem, w0, disk.w)
    ensures r.Success? ==>
              && fresh({r.value.0, r.value.1}) && OthersKept(stem, old(disk.w), disk.w, {})
              && StagedAs(stem, w0, old(disk.w), disk.w, r.value.0, first)
              && StagedAs(stem, w0, old(disk.w), disk.w, r.value.1, second)
              && r.value.0 != r.value.1 && r.value.0.path != r.value.1.path
              && SameBut(stem, old(disk.w), disk.w, {r.value.0.path, r.value.1.path})
    ensures !disk.w.env.faults && !old(disk.w).stopped ==> r.Success?
  {
    ghost var w1 := disk.w;
    var a :- PrepareExactPrivateFile(disk, stem, w0, first);
    ghost var w2 := disk.w;
    var b := PrepareExactPrivateFile(disk, stem, w0, second);
    assert At(disk.w.names, a.path) == At(w2.names, a.path);
    if b.Failure? {
      DropKept(disk, stem, w0, [a], [true]);
      return Failure(b.error);
    }
    KeptTwice(stem, w1, w2, disk.w);
    return Success((a, b.value));
  }

  /** `f` was staged with `contents` since `w`. */
  ghost predicate StagedAs(stem: string, w0: World, w: World, v: World, f: ExactPrivateFile, contents: Contents)
    reads f
  {
    && Holding(stem, w0, v, f) && f.cleanupOnDrop && f.path.Staged? && w.draws <= f.path.draw < v.draws
    && f.token.contents == contents && w.nextIdentity <= f.token.identity
  }

  /** The look at the live name before anything takes its transaction name. */
  method LiveStillExpected(disk: Disk, stem: string, ghost w0: World, expected: FileToken) returns (r: Result<()>)
    requires Valid(w0) && Preparing(stem, w0, disk.w)
    modifies disk
    ensures Preparing(stem, w0, disk.w) && OthersKept(stem, old(disk.w), disk.w, {})
    ensures SameBut(stem, old(disk.w), disk.w, {})
    ensures (!disk.w.env.faults && !disk.w.env.foreign && !old(disk.w).stopped
             && At(old(disk.w).names, Named(stem)) == Some(expected)) ==> r.Success?
    ensures r.Success? && !disk.w.env.foreign ==> At(disk.w.names, Named(stem)) == Some(expected)
  {
    ghost var w1 := disk.w;
    var live := disk.TokenIfPresent(Named(stem));
    PreparingBetween(stem, w0, w1, disk.w);
    if live.Failure? || live.value != Some(expected) {
      return Failure(Refused);
    }
    return Success(());
  }

  /** Everything a publication needs before its record is made visible. */
  ghost predicate Readied(stem: string, w0: World, w: World, a: Attempt, expected: FileToken, contents: Contents, p: Prepared)
    reads p.candidate, p.backupStage, p.recordStage
  {
    && Files(stem, w0, w, a, expected, contents, p) && Flushed(w, p)
    && p.candidate.path == CandidatePath(stem, a.nonce) && p.backupStage.path == BackupStagePath(stem, a.nonce)
    && Named(BackupName(stem, a.stamp.value, a.nonce)) !in w.names
    && (w.env.platform.Windows? ==> DisplacedPath(stem, a.nonce) !in w.names)
    && (w.env.platform.Unix? ==> w.survivors == {w.names})
    && (!w.env.foreign ==> At(w.names, Named(stem)) == Some(expected))
  }

  /** One of the two moves; the other files stay where they are. */
  method TakeName(disk: Disk, stem: string, ghost w0: World, ghost a: Attempt, ghost expected: FileToken,
                  ghost contents: Contents, p: Prepared, f: ExactPrivateFile, destination: Path)
    returns (r: Result<()>)
    requires Valid(w0) && Preparing(stem, w0, disk.w) && Files(stem, w0, disk.w, a, expected, contents, p)
    requires f == p.candidate || f == p.backupStage
    requires destination !in disk.w.names && destination.Named? && Scratch(stem, w0.names, destination)
    modifies disk, f
    ensures Preparing(stem, w0, disk.w) && OthersKept(stem, old(disk.w), disk.w, {old(f.path), destination})
    ensures f.path in {old(f.path), destination}
    ensures r.Success? ==> Files(stem, w0, disk.w, a, expected, contents, p) && f.path == destination
    ensures r.Success? && disk.w.env.platform.Unix? ==> disk.w.survivors == {disk.w.names}
    ensures Working(old(disk.w)) ==> r.Success?
  {
    ghost var w1 := disk.w;
    ghost var source := f.path;
    ghost var other := if f == p.candidate then p.backupStage else p.candidate;
    assert other.path != destination && p.recordStage.path != destination;
    r := MoveOwnedNoreplace(disk, stem, w0, f, destination);
    assert At(disk.w.names, other.path) == At(w1.names, other.path);
    assert At(disk.w.names, p.recordStage.path) == At(w1.names, p.recordStage.path);
  }

  /** The two moves. */
  method TakeBothNames(disk: Disk, stem: string, ghost w0: World, a: Attempt, ghost expected: FileToken,
                       ghost contents: Contents, p: Prepared)
    returns (r: Result<()>)
    requires Valid(w0) && Preparing(stem, w0, disk.w) && Files(stem, w0, disk.w, a, expected, contents, p)
    requires Unclaimed(disk.w.env.platform, stem, a, disk.w.names)
    modifies disk, p.candidate, p.backupStage
    ensures Preparing(stem, w0, disk.w) && Onward(old(disk.w), disk.w)
    ensures p.candidate.path in {old(p.candidate.path), CandidatePath(stem, a.nonce)}
    ensures p.backupStage.path in {old(p.backupStage.path), BackupStagePath(stem, a.nonce)}
    ensures r.Success? ==> Files(stem, w0, disk.w, a, expected, contents, p)
    ensures r.Success? ==>
              p.candidate.path == CandidatePath(stem, a.nonce) && p.backupStage.path == BackupStagePath(stem, a.nonce)
    ensures r.Success? && disk.w.env.platform.Unix? ==> disk.w.survivors == {disk.w.names}
    ensures Named(BackupName(stem, a.stamp.value, a.nonce)) !in disk.w.names
    ensures disk.w.env.platform.Windows? ==> DisplacedPath(stem, a.nonce) !in disk.w.names
    ensures Working(old(disk.w)) ==> r.Success?
  {
    ghost var w1 := disk.w;
    ghost var k, d := Named(BackupName(stem, a.stamp.value, a.nonce)), DisplacedPath(stem, a.nonce);
    NamesApart(stem, w0, w1, a);
    r := TakeName(disk, stem, w0, a, expected, contents, p, p.candidate, CandidatePath(stem, a.nonce));
    ghost var w2 := disk.w;
    NotTaken(stem, a, w1, w2, old(p.candidate.path), CandidatePath(stem, a.nonce));
    if r.Success? {
      r := TakeName(disk, stem, w0, a, expected, contents, p, p.backupStage, BackupStagePath(stem, a.nonce));
      NotTaken(stem, a, w2, disk.w, old(p.backupStage.path), BackupStagePath(stem, a.nonce));
    }
  }

  /** Taking one name leaves the others free. */
  lemma NotTaken(stem: string, a: Attempt, w: World, v: World, source: Path, destination: Path)
    requires OthersKept(stem, w, v, {source, destination}) && ValidAttempt(a)
    requires destination == CandidatePath(stem, a.nonce) || destination == BackupStagePath(stem, a.nonce)
    requires destination != CandidatePath(stem, a.nonce) || source != BackupStagePath(stem, a.nonce)
    requires source in w.names
    ensures Named(BackupName(stem, a.stamp.value, a.nonce)) !in w.names ==>
              Named(BackupName(stem, a.stamp.value, a.nonce)) !in v.names
    ensures DisplacedPath(stem, a.nonce) !in w.names ==> DisplacedPath(stem, a.nonce) !in v.names
    ensures (destination == CandidatePath(stem, a.nonce) && BackupStagePath(stem, a.nonce) !in w.names)
            ==> BackupStagePath(stem, a.nonce) !in v.names
  {
    PrintedApart(stem, a);
    var k, d, b := Named(BackupName(stem, a.stamp.value, a.nonce)), DisplacedPath(stem, a.nonce), BackupStagePath(stem, a.nonce);
    assert k != destination && d != destination;
    assert k !in w.names ==> At(v.names, k) == At(w.names, k);
    assert d !in w.names ==> At(v.names, d) == At(w.names, d);
    assert destination != b && b !in w.names ==> At(v.names, b) == At(w.names, b);
  }

  lemma NamesApart(stem: string, w0: World, w: World, a: Attempt)
    requires Preparing(stem, w0, w) && Unclaimed(w.env.platform, stem, a, w.names)
    ensures Scratch(stem, w0.names, CandidatePath(stem, a.nonce)) && Scratch(stem, w0.names, BackupStagePath(stem, a.nonce))
    ensures CandidatePath(stem, a.nonce) != BackupStagePath(stem, a.nonce)
    ensures DisplacedPath(stem, a.nonce) !in {CandidatePath(stem, a.nonce), BackupStagePath(stem, a.nonce), Named(stem)}
    ensures Named(BackupName(stem, a.stamp.value, a.nonce))
            !in {CandidatePath(stem, a.nonce), BackupStagePath(stem, a.nonce), Named(stem)}
  {
    RolesAreScratch(stem, w0, w, a.nonce);
    BackupIsManaged(stem, a.stamp.value, a.nonce);
    PrivateNamesUnmanaged(stem, "displaced" + "-" + a.nonce);
  }

  /** The end of an attempt; a failure drops all three files. */
  method TakeNames(disk: Disk, stem: string, ghost w0: World, a: Attempt, expected: FileToken, contents: Contents, p: Prepared)
    returns (r: Result<()>)
    requires Valid(w0) && Preparing(stem, w0, disk.w) && Files(stem, w0, disk.w, a, expected, contents, p) && Flushed(disk.w, p)
    requires p.candidate.path.Staged? && p.backupStage.path.Staged?
    requires Unclaimed(disk.w.env.platform, stem, a, disk.w.names)
    modifies disk, p.candidate, p.backupStage
    ensures Preparing(stem, w0, disk.w)
    ensures r.Success? ==> Readied(stem, w0, disk.w, a, expected, contents, p)
    ensures Working(old(disk.w)) && r.Failure? ==> Cleared(stem, old(disk.w), disk.w, old(ThreePaths(p)))
    ensures (!disk.w.env.faults && !disk.w.env.foreign && !old(disk.w).stopped
             && At(old(disk.w).names, Named(stem)) == Some(expected)) ==> r.Success?
  {
    NamesApart(stem, w0, disk.w, a);
    ghost var w1 := disk.w;
    ghost var paths := ThreePaths(p);
    r := LookAndTake(disk, stem, w0, a, expected, contents, p);
    if r.Failure? {
      assert Working(w1) ==> ThreePaths(p) == paths;
      Abandon(disk, stem, w0, w1, a, expected, contents, p);
    }
  }

  /** The end of a failed attempt that began in `w1`. */
  method Abandon(disk: Disk, stem: string, ghost w0: World, ghost w1: World, ghost a: Attempt, ghost expected: FileToken,
                 ghost contents: Contents, p: Prepared)
    requires Valid(w0) && Preparing(stem, w0, disk.w)
    requires Scratch(stem, w0.names, p.candidate.path) && Drawn(p.candidate.path, disk.w.draws)
    requires Scratch(stem, w0.names, p.backupStage.path) && Drawn(p.backupStage.path, disk.w.draws)
    requires Scratch(stem, w0.names, p.recordStage.path) && Drawn(p.recordStage.path, disk.w.draws)
    requires Working(w1) ==>
               && Working(disk.w) && Files(stem, w0, disk.w, a, expected, contents, p) && SameBut(stem, w1, disk.w, {})
    modifies disk
    ensures Preparing(stem, w0, disk.w)
    ensures Working(w1) ==> Cleared(stem, w1, disk.w, ThreePaths(p))
  {
    ghost var w2 := disk.w;
    if Working(w1) {
      FilesInPlace(stem, w0, w2, a, expected, contents, p);
    }
    DropThree(disk, stem, w0, p);
    ClearedSince(stem, w1, w2, disk.w, ThreePaths(p));
  }

  lemma FilesInPlace(stem: string, w0: World, w: World, a: Attempt, expected: FileToken, contents: Contents, p: Prepared)
    requires Files(stem, w0, w, a, expected, contents, p)
    ensures InPlace([p.candidate, p.backupStage, p.recordStage], w.names)
  {
  }

  lemma ThreeAreNew(stem: string, w1: World, w2: World, w3: World, a: Path, b: Path, c: Path)
    requires SameBut(stem, w1, w2, {a, b}) && SameBut(stem, w2, w3, {c}) && c !in {a, b, Named(stem)}
    requires a !in w1.names && b !in w1.names && c !in w2.names
    ensures AllNew(stem, w1, w3, {a, b, c})
  {
    assert At(w2.names, c) == At(w1.names, c);
    forall p | p !in {a, b, c, Named(stem)}
      ensures At(w3.names, p) == At(w1.names, p)
    {
      assert At(w2.names, p) == At(w1.names, p);
    }
  }

  lemma ClearedSince(stem: string, w1: World, w2: World, w3: World, paths: set<Path>)
    ensures SameBut(stem, w1, w2, {}) && Cleared(stem, w2, w3, paths) ==> Cleared(stem, w1, w3, paths)
  {
  }

  /** The drop of all three files of an attempt. */
  method DropThree(disk: Disk, stem: string, ghost w0: World, p: Prepared)
    requires Valid(w0) && Preparing(stem, w0, disk.w)
    requires Scratch(stem, w0.names, p.candidate.path) && Drawn(p.candidate.path, disk.w.draws)
    requires Scratch(stem, w0.names, p.backupStage.path) && Drawn(p.backupStage.path, disk.w.draws)
    requires Scratch(stem, w0.names, p.recordStage.path) && Drawn(p.recordStage.path, disk.w.draws)
    modifies disk
    ensures Preparing(stem, w0, disk.w)
    ensures Working(old(disk.w)) && InPlace([p.candidate, p.backupStage, p.recordStage], old(disk.w).names) ==>
              Cleared(stem, old(disk.w), disk.w, ThreePaths(p))
  {
    var files := [p.candidate, p.backupStage, p.recordStage];
    assert PathsOf(files) <= {p.candidate.path, p.backupStage.path, p.recordStage.path};
    assert p.candidate in files && p.backupStage in files && p.recordStage in files;
    DropKept(disk, stem, w0, files, [true, true, true]);
  }

  /** The look at the live name and the two moves. */
  method LookAndTake(disk: Disk, stem: string, ghost w0: World, a: Attempt, expected: FileToken, ghost contents: Contents, p: Prepared)
    returns (r: Result<()>)
    requires Valid(w0) && Preparing(stem, w0, disk.w) && Files(stem, w0, disk.w, a, expected, contents, p) && Flushed(disk.w, p)
    requires Unclaimed(disk.w.env.platform, stem, a, disk.w.names)
    modifies disk, p.candidate, p.backupStage
    ensures Preparing(stem, w0, disk.w) && Onward(old(disk.w), disk.w)
    ensures p.candidate.path in {old(p.candidate.path), CandidatePath(stem, a.nonce)}
    ensures p.backupStage.path in {old(p.backupStage.path), BackupStagePath(stem, a.nonce)}
    ensures r.Success? ==> Readied(stem, w0, disk.w, a, expected, contents, p)
    ensures Working(old(disk.w)) && r.Failure? ==>
              && Files(stem, w0, disk.w, a, expected, contents, p) && SameBut(stem, old(disk.w), disk.w, {})
              && p.candidate.path == old(p.candidate.path) && p.backupStage.path == old(p.backupStage.path)
    ensures (!disk.w.env.faults && !disk.w.env.foreign && !old(disk.w).stopped
             && At(old(disk.w).names, Named(stem)) == Some(expected)) ==> r.Success?
  {
    ghost var w1 := disk.w;
    r := LiveStillExpected(disk, stem, w0, expected);
    ghost var w2 := disk.w;
    UnclaimedKept(stem, a, w1, w2);
    assert At(w2.names, p.candidate.path) == At(w1.names, p.candidate.path);
    assert At(w2.names, p.backupStage.path) == At(w1.names, p.backupStage.path);
    assert At(w2.names, p.recordStage.path) == At(w1.names, p.recordStage.path);
    if r.Success? {
      r := TakeBothNames(disk, stem, w0, a, expected, contents, p);
    }
  }

  /** One turn of the loop of prepare_existing_auth_publication: nothing when
      its names are taken. */
  method TryAttempt(disk: Disk, stem: string, ghost w0: World, a: Attempt, expected: FileToken, contents: Contents)
    returns (r: Result<Option<Prepared>>)
    requires Valid(w0) && Preparing(stem, w0, disk.w) && expected.identity < disk.w.nextIdentity
    modifies disk
    ensures Preparing(stem, w0, disk.w)
    ensures r.Success? && r.value.Some? ==>
              && fresh({r.value.value.candidate, r.value.value.backupStage, r.value.value.recordStage})
              && Readied(stem, w0, disk.w, a, expected, contents, r.value.value)
    ensures Working(old(disk.w)) ==> !disk.w.stopped
    ensures Working(old(disk.w)) && (r.Success? ==> r.value.None?) ==> SameBut(stem, old(disk.w), disk.w, {})
    ensures (!disk.w.env.faults && !disk.w.env.foreign && !old(disk.w).stopped && ValidAttempt(a)
             && At(old(disk.w).names, Named(stem)) == Some(expected))
            ==> && !disk.w.stopped && r.Success?
                && (r.value.Some? <==> Unclaimed(disk.w.env.platform, stem, a, old(disk.w).names))
                && (r.value.None? ==> disk.w.names == old(disk.w).names)
  {
    ghost var w1 := disk.w;
    var free :- NamesUnclaimed(disk, stem, w0, a);
    if !free {
      return Success(None);
    }
    UnclaimedStill(stem, a, w1, disk.w);
    ghost var w2 := disk.w;
    r := StageAndTake(disk, stem, w0, a, expected, contents);
    AttemptSince(stem, w1, w2, disk.w);
  }

  lemma AttemptSince(stem: string, w1: World, w2: World, w3: World)
    requires Between(w1, w2) && w1.env.contested == Named(stem)
    ensures SameBut(stem, w2, w3, {}) ==> SameBut(stem, w1, w3, {})
  {
  }

  /** A turn of that loop once its names were found free. */
  method StageAndTake(disk: Disk, stem: string, ghost w0: World, a: Attempt, expected: FileToken, contents: Contents)
    returns (r: Result<Option<Prepared>>)
    requires Valid(w0) && Preparing(stem, w0, disk.w) && expected.identity < disk.w.nextIdentity
    requires Unclaimed(disk.w.env.platform, stem, a, disk.w.names)
    modifies disk
    ensures Preparing(stem, w0, disk.w)
    ensures r.Success? && r.value.Some? ==>
              && fresh({r.value.value.candidate, r.value.value.backupStage, r.value.value.recordStage})
              && Readied(stem, w0, disk.w, a, expected, contents, r.value.value)
    ensures Working(old(disk.w)) ==> !disk.w.stopped
    ensures Working(old(disk.w)) && (r.Success? ==> r.value.None?) ==> SameBut(stem, old(disk.w), disk.w, {})
    ensures (Working(old(disk.w)) && !disk.w.env.foreign && At(old(disk.w).names, Named(stem)) == Some(expected))
            ==> r.Success? && r.value.Some?
  {
    ghost var w2 := disk.w;
    var files :- StageDurably(disk, stem, w0, a, expected, contents);
    ghost var w3 := disk.w;
    ghost var three := ThreePaths(files);
    var taken := TakeNames(disk, stem, w0, a, expected, contents, files);
    StagedThenCleared(stem, w2, w3, disk.w, three);
    if taken == Failure(AlreadyExists) {
      return Success(None);
    }
    if taken.Failure? {
      return Failure(taken.error);
    }
    return Success(Some(files));
  }

  /** What came and went left every name as it was. */
  lemma StagedThenCleared(stem: string, w: World, w1: World, v: World, paths: set<Path>)
    ensures (SameBut(stem, w, w1, paths) && Cleared(stem, w1, v, paths) && forall p :: p in paths ==> p !in w.names)
            ==> SameBut(stem, w, v, {})
  {
    if SameBut(stem, w, w1, paths) && Cleared(stem, w1, v, paths) && forall p :: p in paths ==> p !in w.names {
      forall p | p != Named(stem)
        ensures At(v.names, p) == At(w.names, p)
      {
        assert p !in paths ==> At(w1.names, p) == At(w.names, p) && At(v.names, p) == At(w1.names, p);
      }
    }
  }

  /** The three files of an attempt, staged and flushed. */
  method StageDurably(disk: Disk, stem: string, ghost w0: World, a: Attempt, expected: FileToken, contents: Contents)
    returns (r: Result<Prepared>)
    requires Valid(w0) && Preparing(stem, w0, disk.w) && expected.identity < disk.w.nextIdentity
    requires Unclaimed(disk.w.env.platform, stem, a, disk.w.names)
    modifies disk
    ensures Preparing(stem, w0, disk.w) && (r.Success? ==> Unclaimed(disk.w.env.platform, stem, a, disk.w.names))
    ensures r.Success? ==>
              && fresh({r.value.candidate, r.value.backupStage, r.value.recordStage})
              && Files(stem, w0, disk.w, a, expected, contents, r.value) && Flushed(disk.w, r.value)
              && r.value.candidate.path.Staged? && r.value.backupStage.path.Staged?
              && AllNew(stem, old(disk.w), disk.w, ThreePaths(r.value))
    ensures !disk.w.env.faults && !old(disk.w).stopped ==> r.Success?
  {
    ghost var w1 := disk.w;
    r := StageFiles(disk, stem, w0, a, expected, contents);
    if r.Success? {
      ghost var w2 := disk.w;
      UnclaimedKept(stem, a, w1, w2);
      var durable := MakeAllDurable(disk, stem, w0, r.value.candidate, r.value.backupStage, r.value.recordStage);
      if durable.Failure? {
        return Failure(durable.error);
      }
      UnclaimedKept(stem, a, w2, disk.w);
    }
  }

  lemma UnclaimedKept(stem: string, a: Attempt, w: World, v: World)
    requires OthersKept(stem, w, v, {}) && Unclaimed(w.env.platform, stem, a, w.names)
    ensures Unclaimed(v.env.platform, stem, a, v.names)
  {
    BackupIsManaged(stem, a.stamp.value, a.nonce);
    PrivateNamesUnmanaged(stem, "candidate" + "-" + a.nonce);
    PrivateNamesUnmanaged(stem, "backup" + "-" + a.nonce);
    PrivateNamesUnmanaged(stem, "displaced" + "-" + a.nonce);
    assert At(v.names, CandidatePath(stem, a.nonce)) == At(w.names, CandidatePath(stem, a.nonce));
    assert At(v.names, BackupStagePath(stem, a.nonce)) == At(w.names, BackupStagePath(stem, a.nonce));
    assert At(v.names, DisplacedPath(stem, a.nonce)) == At(w.names, DisplacedPath(stem, a.nonce));
    assert At(v.names, Named(BackupName(stem, a.stamp.value, a.nonce)))
        == At(w.names, Named(BackupName(stem, a.stamp.value, a.nonce)));
  }

  lemma UnclaimedStill(stem: string, a: Attempt, w: World, v: World)
    requires Between(w, v) && w.env.contested == Named(stem) && Unclaimed(w.env.platform, stem, a, w.names)
    ensures Unclaimed(v.env.platform, stem, a, v.names)
  {
    UnclaimedKept(stem, a, w, v);
  }

  lemma SameButAgain(stem: string, w: World, v: World, u: World)
    ensures SameBut(stem, w, v, {}) && SameBut(stem, v, u, {}) ==> SameBut(stem, w, u, {})
  {
  }

  /** prepare_existing_auth_publication. Undisturbed, it succeeds exactly when
      one of its sixteen draws prints names that are all free. */
  method PrepareExistingAuthPublication(disk: Disk, stem: string, attempts: seq<Attempt>, expected: FileToken, contents: Contents)
    returns (r: Result<(Attempt, Prepared)>)
    requires Valid(disk.w) && disk.w.env.contested == Named(stem) && expected.identity < disk.w.nextIdentity
    requires |attempts| == UNIQUE_NAME_ATTEMPTS
    modifies disk
    ensures Preparing(stem, old(disk.w), disk.w)
    ensures r.Success? ==>
              && fresh({r.value.1.candidate, r.value.1.backupStage, r.value.1.recordStage})
              && Readied(stem, old(disk.w), disk.w, r.value.0, expected, contents, r.value.1)
    ensures Working(old(disk.w)) && r.Failure? ==> SameBut(stem, old(disk.w), disk.w, {})
    ensures (!disk.w.env.faults && !disk.w.env.foreign && !old(disk.w).stopped
             && At(old(disk.w).names, Named(stem)) == Some(expected)
             && forall a :: a in attempts ==> ValidAttempt(a))
            ==> && !disk.w.stopped
                && (r.Success? <==> exists a :: a in attempts && Unclaimed(disk.w.env.platform, stem, a, old(disk.w).names))
                && (r.Failure? ==> disk.w.names == old(disk.w).names)
  {
    ghost var w0 := disk.w;
    PreparingBegins(stem, w0);
    ghost var calm := !w0.env.faults && !w0.env.foreign && !w0.stopped && At(w0.names, Named(stem)) == Some(expected)
                      && forall a :: a in attempts ==> ValidAttempt(a);
    for i := 0 to UNIQUE_NAME_ATTEMPTS
      invariant Preparing(stem, w0, disk.w)
      invariant Working(w0) ==> !disk.w.stopped && SameBut(stem, w0, disk.w, {})
      invariant calm ==> !disk.w.stopped && disk.w.names == w0.names
      invariant calm ==> forall j :: 0 <= j < i ==> !Unclaimed(w0.env.platform, stem, attempts[j], w0.names)
    {
      assert attempts[i] in attempts;
      ghost var w1 := disk.w;
      var tried := TryAttempt(disk, stem, w0, attempts[i], expected, contents);
      SameButAgain(stem, w0, w1, disk.w);
      if tried.Failure? {
        return Failure(tried.error);
      }
      if tried.value.Some? {
        return Success((attempts[i], tried.value.value));
      }
    }
    return Failure(Refused);
  }
}
