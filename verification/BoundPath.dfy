/** Token-bound removal of a private name (src/auth.rs, remove_bound_path):
    success means the exact file is gone, and on Unix durably so. */
module BoundPath {
  import opened Namespace
  import opened Removal

  /** A removal of `expected` from `path` through some quarantine name. */
  ghost predicate DropEvent(path: Path, expected: FileToken, e: Event) {
    match e
    case Saw(_, _) => true
    case Renamed(a, b, f) => (a == path && b.Quarantine? && f == expected) || (a.Quarantine? && b == path)
    case Unlinked(p, f) => p.Quarantine? && f == expected
    case _ => false
  }

  /** `s` is `s0` on every name drawn before `draws`, except that `path` may be gone. */
  ghost predicate MayLack(s0: Names, s: Names, path: Path, draws: nat) {
    && (forall p :: p != path && Drawn(p, draws) ==> At(s, p) == At(s0, p))
    && (path in s ==> At(s, path) == At(s0, path))
  }

  /** What remove_bound_path may do to a name foreign writers do not act on. */
  ghost predicate DropEffect(w0: World, w: World, path: Path, expected: FileToken, dropped: bool) {
    && Valid(w) && Onward(w0, w)
    && (forall p :: p != path && p != w0.env.contested && Drawn(p, w0.draws) ==> At(w.names, p) == At(w0.names, p))
    && (path in w.names ==> At(w.names, path) == At(w0.names, path))
    && (path in w0.names && path !in w.names ==> w0.names[path] == expected)
    && Accounted(w0, w, w0.env.contested)
    && (forall i :: |w0.history| <= i < |w.history| ==> DropEvent(path, expected, w.history[i]))
    && (!w0.env.foreign ==>
          && w.owed == w0.owed
          && MayLack(w0.names, w.names, path, w0.draws)
          && forall s :: s in w.survivors ==> exists s0 :: s0 in w0.survivors && MayLack(s0, s, path, w0.draws))
    && (dropped ==>
          && path !in w.names && At(w0.names, path) == Some(expected)
          && Elsewhere(w0.names, w.names, {path, w0.env.contested}))
    && (dropped && w0.env.platform.Unix? && !w0.env.foreign ==> w.survivors == {w.names})
  }

  lemma RemovedThenSettled(w0: World, w: World, v: World, path: Path, q: Path, expected: FileToken, dropped: bool)
    requires Valid(w0) && path != w0.env.contested
    requires Removing(w0, w, path, q, expected)
    requires Valid(v) && Onward(w, v) && Elsewhere(w.names, v.names, {w.env.contested})
    requires Accounted(w, v, w.env.contested) && OnlySaw(w, v)
    requires !w.env.foreign ==> v.names == w.names && v.owed == w.owed
    requires !w.env.foreign ==> v.survivors == {v.names} || v.survivors == w.survivors
    requires dropped ==> path !in v.names && At(w0.names, path) == Some(expected) && q !in w.names
    requires dropped && w.env.platform.Unix? && !w.env.foreign ==> v.survivors == {v.names}
    ensures DropEffect(w0, v, path, expected, dropped)
  {
    assert At(v.names, path) == At(w.names, path) && At(v.names, q) == At(w.names, q);
    forall p | p != path && p != w0.env.contested && (Drawn(p, w0.draws) || dropped)
      ensures At(v.names, p) == At(w0.names, p)
    {
      assert At(v.names, p) == At(w.names, p);
      assert p != q ==> At(w.names, p) == At(w0.names, p);
      assert p == q ==> !Drawn(q, w0.draws);
    }
    forall i | |w0.history| <= i < |v.history|
      ensures DropEvent(path, expected, v.history[i])
    {
      if i < |w.history| {
        assert v.history[i] == w.history[i];
      }
    }
    if !w0.env.foreign {
      SurvivorsMayLack(w0, w, v, path, q, expected);
    }
  }

  lemma SurvivorsMayLack(w0: World, w: World, v: World, path: Path, q: Path, expected: FileToken)
    requires Removing(w0, w, path, q, expected) && Valid(w0) && !w0.env.foreign
    requires v.names == w.names && (v.survivors == {v.names} || v.survivors == w.survivors)
    ensures MayLack(w0.names, v.names, path, w0.draws)
    ensures forall s :: s in v.survivors ==> exists s0 :: s0 in w0.survivors && MayLack(s0, s, path, w0.draws)
  {
    assert !Drawn(q, w0.draws);
    forall s | s in v.survivors
      ensures exists s0 :: s0 in w0.survivors && MayLack(s0, s, path, w0.draws)
    {
      var s0 :| s0 in w0.survivors && Dropped(s0, s, path, q);
      assert MayLack(s0, s, path, w0.draws);
    }
  }

  /** remove_bound_path */
  method RemoveBoundPath(disk: Disk, path: Path, expected: FileToken) returns (r: Result<()>)
    requires Valid(disk.w) && path != disk.w.env.contested && Drawn(path, disk.w.draws)
    modifies disk
    ensures DropEffect(old(disk.w), disk.w, path, expected, r.Success?)
    ensures (!disk.w.env.faults && !old(disk.w).stopped && At(old(disk.w).names, path) == Some(expected))
            ==> r.Success?
  {
    ghost var w0 := disk.w;
    ghost var q;
    var boundary;
    boundary, q := RemoveExact(disk, path, expected);
    ghost var w1 := disk.w;
    RemovedThenSettled(w0, w1, w1, path, q, expected, false);
    var observed := disk.TokenIfPresent(path);
    RemovedThenSettled(w0, w1, disk.w, path, q, expected, false);
    if observed.Failure? {
      return Failure(observed.error);
    }
    assert At(disk.w.names, path) == At(w1.names, path) && At(disk.w.names, q) == At(w1.names, q);
    if observed.value.Some? {
      return if observed.value == Some(expected) && boundary.Failure? then Failure(boundary.error) else Failure(Refused);
    }
    if boundary.Failure? {
      return Failure(boundary.error);
    }
    if boundary.value.Removed? {
      RemovedThenSettled(w0, w1, disk.w, path, q, expected, true);
      return Success(());
    }
    if disk.w.env.platform.Windows? {
      return Failure(Refused);
    }
    ghost var w2 := disk.w;
    var confirmed := disk.SyncParent();
    assert At(disk.w.names, path) == At(w1.names, path);
    RemovedThenSettled(w0, w2, disk.w, path, q, expected, confirmed.Success?);
    return confirmed;
  }
}
