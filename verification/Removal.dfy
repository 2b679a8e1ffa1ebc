/** Exact removal (src/fs_ops.rs, remove_exact): the file is moved to a private
    quarantine name before it is unlinked, so that only the expected file is
    ever deleted and an intruder is put back without replacing anyone. */
module Removal {
  import opened Namespace

  datatype RemoveExactOutcome = Removed | RemovedNamespaceDurabilityUnconfirmed

  /** What a removal of `expected` from `source` through quarantine `q` may do. */
  ghost predicate RemovalEvent(contested: Path, source: Path, q: Path, expected: FileToken, e: Event) {
    match e
    case Saw(_, _) => true
    case Renamed(a, b, f) =>
      || (a == source && b == q && (source != contested ==> f == expected))
      || (a == q && b == source)
    case Unlinked(p, f) => p == q && f == expected
    case _ => false
  }

  /** `s` is `s0`, or `s0` with the file of `source` moved to `q` or gone. */
  ghost predicate Dropped(s0: Names, s: Names, source: Path, q: Path) {
    && Elsewhere(s0, s, {source, q})
    && (source in s ==> At(s, source) == At(s0, source))
    && (q in s ==> source !in s && At(s, q) == At(s0, source))
  }

  ghost predicate DroppedFrom(base: set<Names>, s: Names, source: Path, q: Path) {
    exists s0 :: s0 in base && Dropped(s0, s, source, q)
  }

  /** How far a removal begun in `w0` may have taken the world. */
  ghost predicate Removing(w0: World, w: World, source: Path, q: Path, expected: FileToken) {
    && Valid(w) && Onward(w0, w) && w.draws == w0.draws + 1
    && q == Quarantine(w0.draws) && source != q && Drawn(source, w0.draws)
    && Elsewhere(w0.names, w.names, {source, q, w0.env.contested})
    && (forall i :: |w0.history| <= i < |w.history| ==>
          RemovalEvent(w0.env.contested, source, q, expected, w.history[i]))
    && (if source == w0.env.contested then NothingLost(w0, w, source, q, expected)
        else Undisturbed(w0, w, source, q, expected))
    && (!w0.env.foreign ==>
          && w.owed == w0.owed
          && Dropped(w0.names, w.names, source, q)
          && forall s :: s in w.survivors ==> DroppedFrom(w0.survivors, s, source, q))
  }

  /** At a contested name: no file a foreign writer is owed is lost, even if one
      was quarantined by mistake and another has taken the name since. */
  ghost predicate NothingLost(w0: World, w: World, source: Path, q: Path, expected: FileToken) {
    forall f :: f in w.owed ==>
      || f == expected || At(w.names, source) == Some(f) || At(w.names, q) == Some(f)
      || (f in w0.owed && At(w0.names, source) != Some(f))
  }

  /** At a name of ours: its occupant stays, or was the expected file and is in quarantine or gone. */
  ghost predicate Undisturbed(w0: World, w: World, source: Path, q: Path, expected: FileToken) {
    && Accounted(w0, w, w0.env.contested)
    && (source in w.names ==> At(w.names, source) == At(w0.names, source))
    && (q in w.names ==> source !in w.names && At(w.names, q) == At(w0.names, source))
    && (source in w0.names && source !in w.names ==> w0.names[source] == expected)
  }

  lemma RemovingBegins(w0: World, source: Path, expected: FileToken)
    requires Valid(w0) && Drawn(source, w0.draws)
    ensures Removing(w0, w0.(draws := w0.draws + 1), source, Quarantine(w0.draws), expected)
    ensures Quarantine(w0.draws) !in w0.names
  {
    assert !Drawn(Quarantine(w0.draws), w0.draws);
  }

  lemma RemovingBetween(w0: World, w: World, v: World, source: Path, q: Path, expected: FileToken)
    requires Removing(w0, w, source, q, expected)
    requires Valid(v) && Between(w, v) && OnlySaw(w, v)
    ensures Removing(w0, v, source, q, expected)
  {
    assert At(v.names, q) == At(w.names, q);
    assert source != w0.env.contested ==> At(v.names, source) == At(w.names, source);
    forall p | p !in {source, q, w0.env.contested}
      ensures At(v.names, p) == At(w0.names, p)
    {
      assert At(v.names, p) == At(w.names, p) == At(w0.names, p);
    }
  }

  lemma RemovingRenames(w0: World, w: World, v: World, source: Path, q: Path, expected: FileToken, moved: Option<File>)
    requires Removing(w0, w, source, q, expected) && Valid(v)
    requires RenameEffect(w, v, source, q, moved)
    requires source != w0.env.contested ==> At(w.names, source) == Some(expected)
    ensures Removing(w0, v, source, q, expected)
  {
    if moved.None? {
      RemovingBetween(w0, w, v, source, q, expected);
    } else {
      ElsewhereTwice(w0, w, v, source, q);
      SurvivorsDropped(w0, w, v, source, q, Rename(source, q));
    }
  }

  lemma RemovingRestores(w0: World, w: World, v: World, source: Path, q: Path, expected: FileToken, moved: Option<File>)
    requires Removing(w0, w, source, q, expected) && Valid(v)
    requires RenameEffect(w, v, q, source, moved)
    ensures Removing(w0, v, source, q, expected)
  {
    if moved.None? {
      RemovingBetween(w0, w, v, source, q, expected);
    } else {
      ElsewhereTwice(w0, w, v, source, q);
      SurvivorsDropped(w0, w, v, source, q, Rename(q, source));
    }
  }

  lemma RemovingUnlinks(w0: World, w: World, v: World, source: Path, q: Path, expected: FileToken, unlinked: bool)
    requires Removing(w0, w, source, q, expected) && Valid(v)
    requires UnlinkEffect(w, v, q, unlinked) && At(w.names, q) == Some(expected)
    ensures Removing(w0, v, source, q, expected)
  {
  }

  lemma RemovingSynced(w0: World, w: World, v: World, source: Path, q: Path, expected: FileToken)
    requires Removing(w0, w, source, q, expected)
    requires Valid(v) && Onward(w, v) && v.draws == w.draws && v.history == w.history
    requires Elsewhere(w.names, v.names, {w.env.contested}) && Accounted(w, v, w.env.contested)
    requires !w.env.foreign ==> v.names == w.names && v.owed == w.owed
    requires !w.env.foreign ==> v.survivors == {v.names} || v.survivors == w.survivors
    ensures Removing(w0, v, source, q, expected)
  {
    assert At(v.names, q) == At(w.names, q);
    assert source != w0.env.contested ==> At(v.names, source) == At(w.names, source);
    forall p | p !in {source, q, w0.env.contested}
      ensures At(v.names, p) == At(w0.names, p)
    {
      assert At(v.names, p) == At(w.names, p) == At(w0.names, p);
    }
    if !w0.env.foreign {
      assert DroppedFrom(w0.survivors, v.names, source, q);
    }
  }

  lemma ElsewhereTwice(w0: World, w: World, v: World, source: Path, q: Path)
    requires Elsewhere(w0.names, w.names, {source, q, w0.env.contested})
    requires Elsewhere(w.names, v.names, {source, q, w0.env.contested})
    ensures Elsewhere(w0.names, v.names, {source, q, w0.env.contested})
  {
  }

  lemma SurvivorsDropped(w0: World, w: World, v: World, source: Path, q: Path, op: Op)
    requires source != q && op in {Rename(source, q), Rename(q, source), Remove(q)}
    requires v.survivors == Surviving(w.survivors, op) || v.survivors == {v.names} || w0.env.foreign
    requires !w0.env.foreign ==> v.names == Apply(w.names, op) && w.names in w.survivors
    requires !w0.env.foreign ==> Dropped(w0.names, w.names, source, q)
    ensures !w0.env.foreign ==> Dropped(w0.names, v.names, source, q)
    requires !w0.env.foreign ==> forall s :: s in w.survivors ==> DroppedFrom(w0.survivors, s, source, q)
    ensures !w0.env.foreign ==> forall s :: s in v.survivors ==> DroppedFrom(w0.survivors, s, source, q)
  {
  }

  /** None of these steps moves a file. */
  ghost predicate NothingMoved(w: World, v: World) {
    w.history <= v.history && forall i :: |w.history| <= i < |v.history| ==> !v.history[i].Renamed?
  }

  /** Two looks that found the name free and `f` in quarantine both times. */
  function TwoLooks(source: Path, q: Path, f: File): seq<Event> {
    [Saw(source, None), Saw(q, Some(f)), Saw(source, None), Saw(q, Some(f))]
  }

  /** A quarantined file is put back only right after two such looks. */
  ghost predicate PutBackSeenTwice(w0: World, w: World, source: Path, q: Path) {
    forall i :: |w0.history| <= i < |w.history| && w.history[i].Renamed? && w.history[i].source == q ==>
      |w0.history| + 4 <= i && w.history[i - 4..i] == TwoLooks(source, q, w.history[i].file)
  }

  /** The name was seen taken since the history was `n` long. */
  ghost predicate SeenTaken(w: World, n: nat, source: Path) {
    exists j :: n <= j < |w.history| && w.history[j].Saw? && w.history[j].path == source && w.history[j].seen.Some?
  }

  lemma PutBackUnchanged(w0: World, w: World, v: World, source: Path, q: Path)
    requires w0.history <= w.history && PutBackSeenTwice(w0, w, source, q) && NothingMoved(w, v)
    ensures PutBackSeenTwice(w0, v, source, q)
  {
    forall i | |w0.history| <= i < |v.history| && v.history[i].Renamed? && v.history[i].source == q
      ensures |w0.history| + 4 <= i && v.history[i - 4..i] == TwoLooks(source, q, v.history[i].file)
    {
      assert v.history[i] == w.history[i] && v.history[i - 4..i] == w.history[i - 4..i];
    }
  }

  lemma PutBackAfterLooks(w0: World, w: World, v: World, source: Path, q: Path, f: File)
    requires w0.history <= w.history && PutBackSeenTwice(w0, w, source, q)
    requires v.history == w.history + TwoLooks(source, q, f) || v.history == w.history + TwoLooks(source, q, f) + [Renamed(q, source, f)]
    ensures PutBackSeenTwice(w0, v, source, q)
  {
    forall i | |w0.history| <= i < |v.history| && v.history[i].Renamed? && v.history[i].source == q
      ensures |w0.history| + 4 <= i && v.history[i - 4..i] == TwoLooks(source, q, v.history[i].file)
    {
      if i < |w.history| {
        assert v.history[i] == w.history[i] && v.history[i - 4..i] == w.history[i - 4..i];
      } else {
        assert i == |w.history| + 4 && v.history[i - 4..i] == TwoLooks(source, q, f);
      }
    }
  }

  /** token_for_path with the comparison of ensure_path_token */
  method EnsurePathToken(disk: Disk, path: Path, expected: FileToken) returns (r: Result<()>)
    requires Valid(disk.w)
    modifies disk
    ensures Valid(disk.w) && Between(old(disk.w), disk.w) && OnlySaw(old(disk.w), disk.w)
    ensures r.Success? ==> At(disk.w.names, path) == Some(expected) && !disk.w.stopped
    ensures !disk.w.env.faults && !old(disk.w).stopped && At(disk.w.names, path) == Some(expected) ==> r.Success?
  {
    var observed :- disk.TokenIfPresent(path);
    if observed != Some(expected) {
      return Failure(Refused);
    }
    return Success(());
  }

  /** remove_quarantined_exact */
  method RemoveQuarantinedExact(disk: Disk, ghost w0: World, source: Path, q: Path, expected: FileToken)
    returns (r: Result<RemoveExactOutcome>)
    requires Removing(w0, disk.w, source, q, expected)
    modifies disk
    ensures Removing(w0, disk.w, source, q, expected)
    ensures NothingMoved(old(disk.w), disk.w)
    ensures r.Success? ==> Deleted(w0, disk.w, q, expected)
    ensures r.Success? && source != w0.env.contested ==> At(disk.w.names, source) == At(old(disk.w).names, source)
    ensures r.Failure? && disk.w.env.platform.Unix? ==> At(disk.w.names, q) == At(old(disk.w).names, q)
    ensures r == Success(Removed) && disk.w.env.platform.Unix? ==> disk.w.survivors == {disk.w.names}
    ensures !disk.w.env.faults && !old(disk.w).stopped && At(old(disk.w).names, q) == Some(expected)
            ==> r == Success(Removed)
  {
    ghost var before := disk.w;
    assert q != before.env.contested;
    var ensured := EnsurePathToken(disk, q, expected);
    RemovingBetween(w0, before, disk.w, source, q, expected);
    assert At(disk.w.names, q) == At(before.names, q);
    if ensured.Failure? {
      return Failure(ensured.error);
    }
    ghost var seen := disk.w;
    var unlinked := disk.Unlink(q);
    RemovingUnlinks(w0, seen, disk.w, source, q, expected, unlinked.Success?);
    if unlinked.Failure? {
      assert At(disk.w.names, q) == At(seen.names, q);
      return Failure(unlinked.error);
    }
    assert disk.w.history[|disk.w.history| - 1] == Unlinked(q, expected);
    ghost var gone := disk.w;
    r := ConfirmUnlinked(disk, w0, source, q, expected);
    NothingMovedSince(before, gone, disk.w);
  }

  lemma NothingMovedSince(w: World, v: World, u: World)
    requires NothingMoved(w, v) && NothingMoved(v, u)
    ensures NothingMoved(w, u)
  {
  }

  /** remove_quarantined_exact after the unlink: Unix syncs, Windows looks again. */
  method ConfirmUnlinked(disk: Disk, ghost w0: World, ghost source: Path, q: Path, ghost expected: FileToken)
    returns (r: Result<RemoveExactOutcome>)
    requires Removing(w0, disk.w, source, q, expected) && Deleted(w0, disk.w, q, expected)
    modifies disk
    ensures Removing(w0, disk.w, source, q, expected) && Deleted(w0, disk.w, q, expected)
    ensures source != w0.env.contested ==> At(disk.w.names, source) == At(old(disk.w).names, source)
    ensures NothingMoved(old(disk.w), disk.w)
    ensures r.Failure? ==> disk.w.env.platform.Windows?
    ensures r == Success(Removed) && disk.w.env.platform.Unix? ==> disk.w.survivors == {disk.w.names}
    ensures !disk.w.env.faults && !old(disk.w).stopped ==> r == Success(Removed)
  {
    ghost var gone := disk.w;
    ghost var i :| |w0.history| <= i < |gone.history| && gone.history[i] == Unlinked(q, expected);
    if disk.w.env.platform.Unix? {
      var synced := disk.SyncParent();
      RemovingSynced(w0, gone, disk.w, source, q, expected);
      assert At(disk.w.names, q) == At(gone.names, q);
      return Success(if synced.Success? then Removed else RemovedNamespaceDurabilityUnconfirmed);
    }
    var after := disk.TokenIfPresent(q);
    RemovingBetween(w0, gone, disk.w, source, q, expected);
    assert At(disk.w.names, q) == At(gone.names, q) && disk.w.history[i] == gone.history[i];
    if after.Failure? {
      return Failure(after.error);
    }
    if after.value.Some? {
      return Failure(Refused);
    }
    return Success(Removed);
  }

  /** The tokens at `source` and then at `q`. */
  method ReadBoth(disk: Disk, ghost w0: World, source: Path, q: Path, expected: FileToken)
    returns (r: Result<(Option<FileToken>, Option<FileToken>)>)
    requires Removing(w0, disk.w, source, q, expected)
    modifies disk
    ensures Removing(w0, disk.w, source, q, expected) && At(disk.w.names, q) == At(old(disk.w).names, q)
    ensures source != w0.env.contested ==> At(disk.w.names, source) == At(old(disk.w).names, source)
    ensures NothingMoved(old(disk.w), disk.w)
    ensures r.Success? ==>
              && r.value.1 == At(disk.w.names, q)
              && disk.w.history == old(disk.w).history + [Saw(source, r.value.0), Saw(q, r.value.1)]
    ensures !disk.w.env.faults && !old(disk.w).stopped ==> r.Success?
    ensures !disk.w.env.faults ==> disk.w.stopped == old(disk.w).stopped
  {
    var atSource :- ReadOne(disk, w0, source, q, expected, source);
    var atQuarantine :- ReadOne(disk, w0, source, q, expected, q);
    return Success((atSource, atQuarantine));
  }

  /** One reading during a removal. */
  method ReadOne(disk: Disk, ghost w0: World, ghost source: Path, ghost q: Path, ghost expected: FileToken, p: Path)
    returns (r: Result<Option<FileToken>>)
    requires Removing(w0, disk.w, source, q, expected)
    modifies disk
    ensures Removing(w0, disk.w, source, q, expected) && At(disk.w.names, q) == At(old(disk.w).names, q)
    ensures source != w0.env.contested ==> At(disk.w.names, source) == At(old(disk.w).names, source)
    ensures r.Success? ==> r.value == At(disk.w.names, p)
    ensures disk.w.history == old(disk.w).history + if r.Success? then [Saw(p, r.value)] else []
    ensures !disk.w.env.faults && !old(disk.w).stopped ==> r.Success?
    ensures !disk.w.env.faults ==> disk.w.stopped == old(disk.w).stopped
  {
    ghost var before := disk.w;
    r := disk.TokenIfPresent(p);
    RemovingBetween(w0, before, disk.w, source, q, expected);
    assert q != before.env.contested;
    assert At(disk.w.names, q) == At(before.names, q);
    if source != w0.env.contested {
      assert At(disk.w.names, source) == At(before.names, source);
    }
  }

  /** Put the quarantined file back without replacing an occupant; the caller reports failure in any case. */
  method RestoreQuarantined(disk: Disk, ghost w0: World, source: Path, q: Path, expected: FileToken)
    requires Removing(w0, disk.w, source, q, expected)
    modifies disk
    ensures Removing(w0, disk.w, source, q, expected)
    ensures disk.w.history == old(disk.w).history
              || (q in old(disk.w).names
                  && disk.w.history == old(disk.w).history + [Renamed(q, source, old(disk.w).names[q])])
    ensures !disk.w.env.faults && !old(disk.w).stopped ==> q !in disk.w.names || source in disk.w.names
    ensures q in old(disk.w).names && source != w0.env.contested ==>
              At(disk.w.names, q) == At(old(disk.w).names, q) || At(disk.w.names, source) == At(old(disk.w).names, q)
  {
    ghost var before := disk.w;
    ghost var moved;
    var restoration;
    restoration, moved := disk.RenameNoReplace(q, source);
    assert moved.None? ==> At(disk.w.names, q) == At(before.names, q);
    RemovingRestores(w0, before, disk.w, source, q, expected, moved);
  }

  ghost predicate Deleted(w0: World, w: World, q: Path, expected: FileToken) {
    q !in w.names && exists i :: |w0.history| <= i < |w.history| && w.history[i] == Unlinked(q, expected)
  }

  /** After a failure a name of ours keeps its file, or the quarantine does. */
  ghost predicate StillHeld(w0: World, w: World, source: Path, q: Path) {
    At(w.names, source) == At(w0.names, source) || At(w.names, q) == At(w0.names, source)
  }

  /** The name was seen taken again after its file went into quarantine. */
  ghost predicate TakenAfterMove(w0: World, w: World, source: Path, q: Path) {
    exists i :: |w0.history| <= i < |w.history| && w.history[i].Renamed? && w.history[i].source == source
                && w.history[i].destination == q && SeenTaken(w, i, source)
  }

  /** remove_exact. Whatever writers do at `source`, only `expected` is unlinked,
      and an intruder ends at `source` or stays in quarantine. */
  method RemoveExact(disk: Disk, source: Path, expected: FileToken)
    returns (r: Result<RemoveExactOutcome>, ghost q: Path)
    requires Valid(disk.w) && Drawn(source, disk.w.draws)
    modifies disk
    ensures Removing(old(disk.w), disk.w, source, q, expected)
    ensures r.Success? ==> Deleted(old(disk.w), disk.w, q, expected)
    ensures r.Success? && source != disk.w.env.contested ==>
              source !in disk.w.names && At(old(disk.w).names, source) == Some(expected)
    ensures r.Failure? && source != disk.w.env.contested && disk.w.env.platform.Unix? ==>
              StillHeld(old(disk.w), disk.w, source, q)
    ensures PutBackSeenTwice(old(disk.w), disk.w, source, q)
    ensures r.Failure? && !disk.w.env.faults && !old(disk.w).stopped && q in disk.w.names ==>
              source in disk.w.names || TakenAfterMove(old(disk.w), disk.w, source, q)
    ensures r == Success(Removed) && disk.w.env.platform.Unix? ==> disk.w.survivors == {disk.w.names}
    ensures (!disk.w.env.faults && !old(disk.w).stopped && At(old(disk.w).names, source) == Some(expected)
             && (!disk.w.env.foreign || source != disk.w.env.contested))
            ==> r == Success(Removed)
  {
    ghost var w0 := disk.w;
    var quarantine, ensured := DrawAndEnsure(disk, source, expected);
    q := quarantine;
    if ensured.Failure? {
      return Failure(ensured.error), q;
    }
    ghost var w1 := disk.w;
    var boundary := MoveToQuarantine(disk, w0, source, quarantine, expected);
    ghost var w2 := disk.w;
    r := AfterQuarantine(disk, w0, source, quarantine, expected, boundary);
    TakenSinceMove(w0, w1, w2, disk.w, source, q);
  }

  lemma TakenSinceMove(w0: World, w1: World, w2: World, v: World, source: Path, q: Path)
    requires w0.history <= w1.history && w2.history <= v.history
    requires w2.history == w1.history + if q in w2.names then [Renamed(source, q, w2.names[q])] else []
    ensures q in w2.names && SeenTaken(v, |w2.history|, source) ==> TakenAfterMove(w0, v, source, q)
  {
    if q in w2.names {
      assert v.history[|w1.history|] == w2.history[|w1.history|] == Renamed(source, q, w2.names[q]);
    }
  }

  /** A fresh quarantine name, and the check that the expected file is still there. */
  method DrawAndEnsure(disk: Disk, source: Path, expected: FileToken) returns (q: Path, r: Result<()>)
    requires Valid(disk.w) && Drawn(source, disk.w.draws)
    modifies disk
    ensures Removing(old(disk.w), disk.w, source, q, expected) && q !in disk.w.names
    ensures source != disk.w.env.contested ==> At(disk.w.names, source) == At(old(disk.w).names, source)
    ensures r.Success? && source != disk.w.env.contested ==> At(disk.w.names, source) == Some(expected)
    ensures OnlySaw(old(disk.w), disk.w)
    ensures !disk.w.env.foreign ==> disk.w.names == old(disk.w).names
    ensures !disk.w.env.faults ==> disk.w.stopped == old(disk.w).stopped
    ensures !disk.w.env.faults && !old(disk.w).stopped && At(disk.w.names, source) == Some(expected) ==> r.Success?
  {
    ghost var w0 := disk.w;
    RemovingBegins(w0, source, expected);
    q := disk.DrawQuarantine();
    ghost var w1 := disk.w;
    r := EnsurePathToken(disk, source, expected);
    RemovingBetween(w0, w1, disk.w, source, q, expected);
    assert At(disk.w.names, q) == At(w1.names, q);
    assert source != w0.env.contested ==> At(disk.w.names, source) == At(w0.names, source);
  }

  /** The rename that takes the file off its name. */
  method MoveToQuarantine(disk: Disk, ghost w0: World, source: Path, q: Path, ghost expected: FileToken)
    returns (boundary: Result<()>)
    requires Removing(w0, disk.w, source, q, expected) && q !in disk.w.names
    requires source != w0.env.contested ==> At(disk.w.names, source) == At(w0.names, source) == Some(expected)
    modifies disk
    ensures Removing(w0, disk.w, source, q, expected)
    ensures source != w0.env.contested ==> StillHeld(w0, disk.w, source, q)
    ensures disk.w.history
            == old(disk.w).history + if q in disk.w.names then [Renamed(source, q, disk.w.names[q])] else []
    ensures !disk.w.env.faults ==> disk.w.stopped == old(disk.w).stopped
    ensures (!disk.w.env.faults && !old(disk.w).stopped && source in old(disk.w).names
             && (!disk.w.env.foreign || source != disk.w.env.contested)) ==>
              At(disk.w.names, q) == At(old(disk.w).names, source) && !disk.w.stopped
  {
    ghost var w1 := disk.w;
    ghost var moved;
    boundary, moved := disk.RenameNoReplace(source, q);
    RemovingRenames(w0, w1, disk.w, source, q, expected, moved);
    assert moved.None? && source != w0.env.contested ==> At(disk.w.names, source) == At(w1.names, source);
    assert moved.None? ==> At(disk.w.names, q) == At(w1.names, q);
  }

  /** The classification of remove_exact once the quarantine rename was issued. */
  method AfterQuarantine(disk: Disk, ghost w0: World, source: Path, q: Path, expected: FileToken, boundary: Result<()>)
    returns (r: Result<RemoveExactOutcome>)
    requires Removing(w0, disk.w, source, q, expected)
    requires source != w0.env.contested ==> StillHeld(w0, disk.w, source, q)
    requires PutBackSeenTwice(w0, disk.w, source, q)
    modifies disk
    ensures Removing(w0, disk.w, source, q, expected)
    ensures r.Success? ==> Deleted(w0, disk.w, q, expected)
    ensures r.Success? && source != disk.w.env.contested ==>
              source !in disk.w.names && At(w0.names, source) == Some(expected)
    ensures r.Failure? && source != disk.w.env.contested && disk.w.env.platform.Unix? ==>
              StillHeld(w0, disk.w, source, q)
    ensures PutBackSeenTwice(w0, disk.w, source, q) && old(disk.w).history <= disk.w.history
    ensures q in disk.w.names ==> q in old(disk.w).names
    ensures r.Failure? && !disk.w.env.faults && !old(disk.w).stopped && q in disk.w.names ==>
              source in disk.w.names || SeenTaken(disk.w, |old(disk.w).history|, source)
    ensures r == Success(Removed) && disk.w.env.platform.Unix? ==> disk.w.survivors == {disk.w.names}
    ensures !disk.w.env.faults && !old(disk.w).stopped && At(old(disk.w).names, q) == Some(expected)
            ==> r == Success(Removed)
  {
    ghost var w1 := disk.w;
    var seen :- ReadBoth(disk, w0, source, q, expected);
    var (sourceAfter, quarantineAfter) := seen;
    if quarantineAfter == Some(expected) {
      r := CleanUpQuarantine(disk, w0, source, q, expected);
      return;
    }
    if sourceAfter == Some(expected) && quarantineAfter.None? {
      return if boundary.Failure? then Failure(boundary.error) else Failure(Refused);
    }
    PutBackUnchanged(w0, w1, disk.w, source, q);
    assert disk.w.history[|w1.history|] == Saw(source, sourceAfter);
    if sourceAfter.None? && quarantineAfter.Some? {
      PutBackIfUnchanged(disk, w0, w1, source, q, expected, seen);
    }
    return Failure(Refused);
  }

  /** Look once more, and put the quarantined file back if nothing changed. The
      caller reports failure in any case. */
  method PutBackIfUnchanged(disk: Disk, ghost w0: World, ghost w1: World, source: Path, q: Path, expected: FileToken,
                            seen: (Option<FileToken>, Option<FileToken>))
    requires Removing(w0, disk.w, source, q, expected) && w0.history <= w1.history && PutBackSeenTwice(w0, w1, source, q)
    requires seen.0.None? && seen.1.Some? && seen.1 == At(disk.w.names, q)
    requires disk.w.history == w1.history + [Saw(source, None), Saw(q, seen.1)]
    requires source != w0.env.contested ==> StillHeld(w0, disk.w, source, q)
    modifies disk
    ensures Removing(w0, disk.w, source, q, expected) && old(disk.w).history <= disk.w.history
    ensures source != w0.env.contested ==> StillHeld(w0, disk.w, source, q)
    ensures PutBackSeenTwice(w0, disk.w, source, q)
    ensures !disk.w.env.faults && !old(disk.w).stopped && q in disk.w.names ==>
              source in disk.w.names || SeenTaken(disk.w, |w1.history|, source)
  {
    ghost var w2 := disk.w;
    var again := ReadBoth(disk, w0, source, q, expected);
    PutBackUnchanged(w0, w1, disk.w, source, q);
    if again.Success? {
      assert disk.w.history[|w2.history|] == Saw(source, again.value.0);
    }
    if again == Success(seen) {
      RestoreQuarantined(disk, w0, source, q, expected);
      PutBackAfterLooks(w0, w1, disk.w, source, q, seen.1.value);
    }
  }

  /** The expected file is in quarantine: delete it, or else put it back. */
  method CleanUpQuarantine(disk: Disk, ghost w0: World, source: Path, q: Path, expected: FileToken)
    returns (r: Result<RemoveExactOutcome>)
    requires Removing(w0, disk.w, source, q, expected) && At(disk.w.names, q) == Some(expected)
    requires PutBackSeenTwice(w0, disk.w, source, q)
    modifies disk
    ensures Removing(w0, disk.w, source, q, expected)
    ensures r.Success? ==> Deleted(w0, disk.w, q, expected)
    ensures r.Success? && source != disk.w.env.contested ==>
              source !in disk.w.names && At(w0.names, source) == Some(expected)
    ensures r.Failure? && source != disk.w.env.contested && disk.w.env.platform.Unix? ==>
              StillHeld(w0, disk.w, source, q)
    ensures PutBackSeenTwice(w0, disk.w, source, q) && old(disk.w).history <= disk.w.history
    ensures r == Success(Removed) && disk.w.env.platform.Unix? ==> disk.w.survivors == {disk.w.names}
    ensures !disk.w.env.faults && !old(disk.w).stopped ==> r == Success(Removed)
  {
    ghost var w1 := disk.w;
    r := RemoveQuarantinedExact(disk, w0, source, q, expected);
    PutBackUnchanged(w0, w1, disk.w, source, q);
    if r.Failure? {
      var cleanupError := r.error;
      ghost var w2 := disk.w;
      var afterCleanup :- ReadBoth(disk, w0, source, q, expected);
      PutBackUnchanged(w0, w1, disk.w, source, q);
      if afterCleanup == (None, Some(expected)) {
        PutBackIfUnchanged(disk, w0, w2, source, q, expected, afterCleanup);
      }
      r := Failure(cleanupError);
    }
  }
}
