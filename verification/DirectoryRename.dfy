/** Renaming a profile directory (src/fs_ops.rs on Unix): the rename must move
    the directory that was opened before it, and any other is moved back without
    replacement or left at the destination. The two names may lie in different
    parent directories, which are synced one after the other, and writers may
    act on either name. */
module DirectoryRename {
  import opened Namespace

  datatype DirectoryRenameOutcome = DurablyRenamed | VisibleDurabilityUnconfirmed

  /** Every owed directory is at one of the two names. */
  ghost predicate OwedAtEither(w: World, source: Path, destination: Path) {
    forall f :: f in w.owed ==> At(w.names, source) == Some(f) || At(w.names, destination) == Some(f)
  }

  /** What is true while the rename runs. */
  ghost predicate Renaming(w0: World, w: World, source: Path, destination: Path) {
    && Valid(w) && Onward(w0, w)
    && (OwedAtEither(w0, source, destination) ==> OwedAtEither(w, source, destination))
    && forall p :: p !in {source, destination} ==> At(w.names, p) == At(w0.names, p)
  }

  /** Writers act on one of the two names. */
  predicate Shared(w: World, source: Path, destination: Path) {
    w.env.contested in {source, destination} && source != destination
  }

  lemma RenamingBetween(w0: World, w: World, v: World, source: Path, destination: Path)
    requires Renaming(w0, w, source, destination) && Shared(w0, source, destination)
    requires Valid(v) && Onward(w, v) && Elsewhere(w.names, v.names, {w.env.contested}) && Accounted(w, v, w.env.contested)
    ensures Renaming(w0, v, source, destination)
  {
  }

  lemma RenamingMoves(w0: World, w: World, v: World, source: Path, destination: Path, there: bool, moved: Option<File>)
    requires Renaming(w0, w, source, destination) && Shared(w0, source, destination) && Valid(v)
    requires if there then RenameEffect(w, v, source, destination, moved) else RenameEffect(w, v, destination, source, moved)
    ensures Renaming(w0, v, source, destination)
  {
  }

  ghost predicate Calm(w: World) {
    !w.env.foreign && !w.env.faults && !w.stopped
  }

  /** The parents of the two names, which together hold every name. */
  datatype Parents = Parents(ofSource: Path -> bool, ofDestination: Path -> bool, same: bool)

  ghost predicate ParentsOf(parents: Parents, source: Path, destination: Path) {
    && parents.ofSource(source) && parents.ofDestination(destination)
    && (forall p :: parents.ofSource(p) || parents.ofDestination(p))
    && (parents.same ==> forall p :: parents.ofSource(p) <==> parents.ofDestination(p))
  }

  /** Whatever a power loss leaves is the present directory, except that the
      contested name may hold any of its occupants since the first sync. */
  ghost predicate Settled(w: World) {
    && (forall s :: s in w.survivors ==> Elsewhere(w.names, s, {w.env.contested}))
    && (!w.env.foreign ==> w.survivors == {w.names})
  }

  lemma AgreeingEverywhere(n: Names, s: Names)
    requires forall p: Path :: At(s, p) == At(n, p)
    ensures s == n
  {
    forall p: Path
      ensures (p in s <==> p in n) && (p in s ==> s[p] == n[p])
    {
      assert At(s, p) == At(n, p);
    }
  }

  lemma AgreesAt(inDirectory: Path -> bool, n: Names, s: Names, p: Path)
    requires AgreeIn(inDirectory, n, s) && inDirectory(p)
    ensures At(s, p) == At(n, p)
  {
  }

  /** The very directory seen at the source before was then moved to the
      destination and seen there. */
  ghost predicate BoundDirectoryMoved(w: World, v: World, source: Path, destination: Path) {
    exists i: nat, k: nat, j: nat ::
      && |w.history| <= i < k < j < |v.history|
      && SawAs(v.history[i], source, v.history[k]) && SawAs(v.history[j], destination, v.history[k])
      && v.history[k].Renamed? && v.history[k].source == source && v.history[k].destination == destination
  }

  /** `saw` found under `name` the directory that `rename` moved. */
  predicate SawAs(saw: Event, name: Path, rename: Event) {
    && saw.Saw? && saw.path == name && saw.seen.Some? && rename.Renamed?
    && saw.seen.value.identity == rename.file.identity
  }

  /** rename_directory_noreplace_durable_impl. `Success` means that the very
      directory opened at the source was moved to the destination. */
  method RenameDirectoryNoreplaceDurable(disk: Disk, source: Path, destination: Path, parents: Parents)
    returns (r: Result<DirectoryRenameOutcome>)
    requires Valid(disk.w) && Shared(disk.w, source, destination) && ParentsOf(parents, source, destination)
    requires Drawn(source, disk.w.draws) && Drawn(destination, disk.w.draws)
    modifies disk
    ensures Renaming(old(disk.w), disk.w, source, destination)
    ensures r.Success? ==> BoundDirectoryMoved(old(disk.w), disk.w, source, destination)
    ensures r.Success? && destination != disk.w.env.contested ==>
              destination in disk.w.names && destination !in old(disk.w).names
    ensures r == Success(DurablyRenamed) ==> Settled(disk.w) && (parents.same ==> disk.w.survivors == {disk.w.names})
    ensures Calm(old(disk.w)) ==>
              && (r == Success(DurablyRenamed) <==> source in old(disk.w).names && destination !in old(disk.w).names)
              && disk.w.names == (if r.Success? then Apply(old(disk.w).names, Rename(source, destination)) else old(disk.w).names)
  {
    ghost var w0 := disk.w;
    var bound :- disk.TokenIfPresent(source);
    RenamingBetween(w0, w0, disk.w, source, destination);
    if bound.None? {
      return Failure(OsError);
    }
    assert destination != w0.env.contested ==> At(disk.w.names, destination) == At(w0.names, destination);
    r := RenameBound(disk, w0, source, destination, parents, bound.value);
  }

  /** The rename of the directory bound before, and what follows it. */
  method RenameBound(disk: Disk, ghost w0: World, source: Path, destination: Path, parents: Parents, bound: File)
    returns (r: Result<DirectoryRenameOutcome>)
    requires Renaming(w0, disk.w, source, destination) && Shared(w0, source, destination)
    requires ParentsOf(parents, source, destination)
    requires Drawn(source, disk.w.draws) && Drawn(destination, disk.w.draws)
    requires disk.w.history == w0.history + [Saw(source, Some(bound))] && At(disk.w.names, source) == Some(bound)
    modifies disk
    ensures Renaming(w0, disk.w, source, destination)
    ensures r.Success? ==> BoundDirectoryMoved(w0, disk.w, source, destination)
    ensures r.Success? && destination != disk.w.env.contested ==>
              destination in disk.w.names && destination !in old(disk.w).names
    ensures r == Success(DurablyRenamed) ==> Settled(disk.w) && (parents.same ==> disk.w.survivors == {disk.w.names})
    ensures Calm(old(disk.w)) ==>
              && (r == Success(DurablyRenamed) <==> destination !in old(disk.w).names)
              && disk.w.names == (if r.Success? then Apply(old(disk.w).names, Rename(source, destination)) else old(disk.w).names)
  {
    ghost var w1 := disk.w;
    ghost var moved;
    var renamed;
    renamed, moved := disk.RenameEntry(source, destination);
    RenamingMoves(w0, w1, disk.w, source, destination, true, moved);
    if renamed.Failure? {
      return Failure(renamed.error);
    }
    ghost var w2 := disk.w;
    r := AfterDirectoryRename(disk, w0, source, destination, parents, bound.identity);
    if r.Success? {
      MovedTheBound(w0, w1, w2, disk.w, source, destination, bound, moved.value);
    }
  }

  lemma MovedTheBound(w0: World, w1: World, w2: World, v: World, source: Path, destination: Path, d: File, f: File)
    requires Shared(w0, source, destination) && w1.env == w0.env
    requires w1.history == w0.history + [Saw(source, Some(d))] && At(w1.names, source) == Some(d)
    requires RenameEffect(w1, w2, source, destination, Some(f)) && w2.history <= v.history
    requires PublishedSeen(w2, v, destination, d.identity)
    ensures BoundDirectoryMoved(w0, v, source, destination)
  {
    var j :| |w2.history| <= j < |v.history| && SeenThere(w2, v.history[j], destination, d.identity);
    var i, k := |w0.history|, |w1.history|;
    assert v.history[i] == w2.history[i] == w1.history[i] == Saw(source, Some(d));
    assert v.history[k] == w2.history[k] == Renamed(source, destination, f);
    assert f.identity == d.identity by {
      assert source != w0.env.contested ==> Some(f) == At(w1.names, source);
      assert SeenThere(w2, v.history[j], destination, d.identity);
    }
    assert SawAs(v.history[i], source, v.history[k]) && SawAs(v.history[j], destination, v.history[k]);
  }

  /** Directory `identity` was seen at the destination since `w`; where only we
      act on that name, it was there all the time. */
  ghost predicate PublishedSeen(w: World, v: World, destination: Path, identity: nat) {
    exists j: nat :: |w.history| <= j < |v.history| && SeenThere(w, v.history[j], destination, identity)
  }

  predicate SeenThere(w: World, saw: Event, destination: Path, identity: nat) {
    && saw.Saw? && saw.path == destination && saw.seen.Some? && saw.seen.value.identity == identity
    && (destination != w.env.contested ==> At(w.names, destination) == saw.seen)
  }

  /** What follows the rename: a directory other than the bound one goes back
      when its old name is free, and otherwise stays at the destination. */
  method AfterDirectoryRename(disk: Disk, ghost w0: World, source: Path, destination: Path, parents: Parents, identity: nat)
    returns (r: Result<DirectoryRenameOutcome>)
    requires Renaming(w0, disk.w, source, destination) && Shared(w0, source, destination)
    requires ParentsOf(parents, source, destination)
    requires Drawn(source, disk.w.draws) && Drawn(destination, disk.w.draws)
    modifies disk
    ensures Renaming(w0, disk.w, source, destination) && Onward(old(disk.w), disk.w)
    ensures r.Success? ==> PublishedSeen(old(disk.w), disk.w, destination, identity)
    ensures r.Success? && destination != w0.env.contested ==>
              destination in disk.w.names && disk.w.names[destination].identity == identity
    ensures r == Success(DurablyRenamed) ==> Settled(disk.w) && (parents.same ==> disk.w.survivors == {disk.w.names})
    ensures Calm(old(disk.w)) && destination in old(disk.w).names ==>
              var n := old(disk.w).names;
              if n[destination].identity == identity then r == Success(DurablyRenamed) && disk.w.names == n
              else r.Failure? && disk.w.names == (if source in n then n else Apply(n, Rename(destination, source)))
                   && (source !in n ==> Settled(disk.w))
  {
    ghost var w1 := disk.w;
    var published := disk.TokenIfPresent(destination);
    RenamingBetween(w0, w1, disk.w, source, destination);
    if published.Success? && published.value.Some? && published.value.value.identity == identity {
      ghost var w2 := disk.w;
      assert w2.history[|w1.history|] == Saw(destination, published.value);
      assert destination != w0.env.contested ==> At(w2.names, destination) == At(w1.names, destination);
      assert SeenThere(w1, w2.history[|w1.history|], destination, identity);
      var synced := SyncParents(disk, w0, source, destination, parents);
      assert disk.w.history[|w1.history|] == w2.history[|w1.history|];
      assert destination != w0.env.contested ==> At(disk.w.names, destination) == At(w2.names, destination);
      return Success(if synced then DurablyRenamed else VisibleDurabilityUnconfirmed);
    }
    RollBack(disk, w0, source, destination, parents, published);
    return Failure(Refused);
  }

  /** Sync the parent of the source, and then the parent of the destination if
      it is another one, whether or not the first sync succeeded. */
  method SyncParents(disk: Disk, ghost w0: World, ghost source: Path, ghost destination: Path, parents: Parents)
    returns (synced: bool)
    requires Renaming(w0, disk.w, source, destination) && Shared(w0, source, destination)
    requires ParentsOf(parents, source, destination)
    modifies disk
    ensures Renaming(w0, disk.w, source, destination) && Onward(old(disk.w), disk.w)
    ensures Elsewhere(old(disk.w).names, disk.w.names, {disk.w.env.contested})
    ensures !disk.w.env.foreign ==> disk.w.names == old(disk.w).names
    ensures synced ==> Settled(disk.w) && (parents.same ==> disk.w.survivors == {disk.w.names})
    ensures Calm(old(disk.w)) ==> synced
  {
    ghost var w1 := disk.w;
    var atSource := disk.SyncOne(parents.ofSource);
    RenamingBetween(w0, w1, disk.w, source, destination);
    ghost var w2 := disk.w;
    if parents.same {
      if atSource.Success? {
        SyncedAlone(w2, parents);
      }
      return atSource.Success?;
    }
    var atDestination := disk.SyncOne(parents.ofDestination);
    RenamingBetween(w0, w2, disk.w, source, destination);
    synced := atSource.Success? && atDestination.Success?;
    if synced {
      SyncedBoth(w2, disk.w, parents);
    }
  }

  lemma SyncedAlone(w: World, parents: Parents)
    requires Valid(w) && (forall p :: parents.ofSource(p) || parents.ofDestination(p))
    requires forall p :: parents.ofSource(p) <==> parents.ofDestination(p)
    requires forall s :: s in w.survivors ==> AgreeIn(parents.ofSource, w.names, s)
    ensures w.survivors == {w.names}
  {
    forall s | s in w.survivors
      ensures s == w.names
    {
      forall p: Path
        ensures At(s, p) == At(w.names, p)
      {
        AgreesAt(parents.ofSource, w.names, s, p);
      }
      AgreeingEverywhere(w.names, s);
    }
  }

  lemma SyncedBoth(w: World, v: World, parents: Parents)
    requires Valid(v) && v.env == w.env && forall p :: parents.ofSource(p) || parents.ofDestination(p)
    requires forall s :: s in w.survivors ==> AgreeIn(parents.ofSource, w.names, s)
    requires forall s :: s in v.survivors ==> AgreeIn(parents.ofDestination, v.names, s)
    requires forall s :: s in v.survivors && s !in w.survivors ==> s == v.names
    requires Elsewhere(w.names, v.names, {w.env.contested}) && (!w.env.foreign ==> v.names == w.names)
    ensures Settled(v)
  {
    forall s, p | s in v.survivors && (p != v.env.contested || !v.env.foreign)
      ensures At(s, p) == At(v.names, p)
    {
      if s in w.survivors && !parents.ofDestination(p) {
        AgreesAt(parents.ofSource, w.names, s, p);
        assert At(v.names, p) == At(w.names, p);
      } else if s in w.survivors {
        AgreesAt(parents.ofDestination, v.names, s, p);
      }
    }
    if !v.env.foreign {
      forall s | s in v.survivors
        ensures s == v.names
      {
        AgreeingEverywhere(v.names, s);
      }
    }
  }

  /** Move the directory back without replacement; the caller fails in any case. */
  method RollBack(disk: Disk, ghost w0: World, source: Path, destination: Path, parents: Parents, published: Result<Option<File>>)
    requires Renaming(w0, disk.w, source, destination) && Shared(w0, source, destination)
    requires ParentsOf(parents, source, destination)
    requires Drawn(source, disk.w.draws) && Drawn(destination, disk.w.draws)
    modifies disk
    ensures Renaming(w0, disk.w, source, destination) && Onward(old(disk.w), disk.w)
    ensures Calm(old(disk.w)) && destination in old(disk.w).names ==>
              disk.w.names == (if source in old(disk.w).names then old(disk.w).names
                               else Apply(old(disk.w).names, Rename(destination, source)))
    ensures (Calm(old(disk.w)) && destination in old(disk.w).names && source !in old(disk.w).names
             && published == Success(At(old(disk.w).names, destination))) ==> Settled(disk.w)
  {
    ghost var w1 := disk.w;
    ghost var moved;
    var rollback;
    rollback, moved := disk.RenameEntry(destination, source);
    RenamingMoves(w0, w1, disk.w, source, destination, false, moved);
    ghost var w2 := disk.w;
    var restored := disk.TokenIfPresent(source);
    RenamingBetween(w0, w2, disk.w, source, destination);
    if rollback.Success? && (published.Failure? || restored == published) {
      var synced := SyncParents(disk, w0, source, destination, parents);
    }
  }
}
