/** The settlement itself (src/auth.rs): finalize, clean up, restore, and the
    dispatch that crash recovery shares with publication. */
module Settlement {
  import opened Namespace
  import opened BoundPath
  import opened Retention
  import opened Transactions
  import opened Phases

  /** Undisturbed so far, with the new credential live and its record present. */
  ghost predicate OnNewSide(t: Transaction, m: Names, w: World) {
    !w.env.foreign && Sound(t, m, w) && NewSide(t, m, w.names) && HasRecord(t, w.names)
  }

  ghost predicate OnOldSide(t: Transaction, m: Names, w: World) {
    !w.env.foreign && Sound(t, m, w) && OldSide(t, m, w.names)
  }

  ghost predicate Synced(w: World) {
    w.env.platform.Unix? ==> w.survivors == {w.names}
  }

  ghost predicate Calm(w: World) {
    !w.env.foreign && !w.env.faults && !w.stopped
  }

  /** A step that changed nothing of ours keeps the side. */
  lemma SideSteady(t: Transaction, m: Names, w: World, v: World)
    requires !w.env.foreign && v.env == w.env && v.names == w.names
    requires v.survivors == w.survivors || v.survivors == {v.names}
    ensures Sound(t, m, w) ==> Sound(t, m, v)
    ensures OnNewSide(t, m, w) ==> OnNewSide(t, m, v)
    ensures OnOldSide(t, m, w) ==> OnOldSide(t, m, v)
  {
  }

  lemma DropsDisplaced(t: Transaction, m: Names, w: World, v: World, dropped: bool)
    requires WellFormed(w.env, t) && OnNewSide(t, m, w) && Synced(w)
    requires At(w.names, t.displaced) == Some(t.expected)
    requires DropEffect(w, v, t.displaced, t.expected, dropped)
    ensures OnNewSide(t, m, v)
  {
    NewSideDropsDisplaced(w.env, t, m, w.names, v.names, w.draws);
    if w.env.platform.Unix? {
      forall s | s in v.survivors
        ensures NewSide(t, m, s)
      {
        NewSideDropsDisplaced(w.env, t, m, w.names, s, w.draws);
      }
    }
  }

  /** The transaction's own names hold what they held. */
  ghost predicate RolesSame(t: Transaction, n: Names, n': Names) {
    && At(n', t.candidate) == At(n, t.candidate) && At(n', t.displaced) == At(n, t.displaced)
    && At(n', t.backupStage) == At(n, t.backupStage) && At(n', t.backup) == At(n, t.backup)
    && At(n', t.record) == At(n, t.record)
  }

  ghost predicate RolesSameBut(t: Transaction, n: Names, n': Names, path: Path) {
    && (path != t.candidate ==> At(n', t.candidate) == At(n, t.candidate))
    && (path != t.displaced ==> At(n', t.displaced) == At(n, t.displaced))
    && (path != t.backupStage ==> At(n', t.backupStage) == At(n, t.backupStage))
    && (path != t.record ==> At(n', t.record) == At(n, t.record))
    && At(n', t.backup) == At(n, t.backup)
  }

  /** No other transaction name changed, and `path` may only have been vacated. */
  ghost predicate OnlyVacates(t: Transaction, n: Names, n': Names, path: Path) {
    RolesSameBut(t, n, n', path) && (path in n' ==> At(n', path) == At(n, path))
  }

  /** The backup name after retention: still the copy, or gone as outranked. */
  ghost predicate BackupRetired(t: Transaction, n0: Names, n: Names) {
    || At(n, t.backup) == Some(t.backupToken)
    || (t.backup !in n && Outranked(t.stem, WithBackup(t, n0), t.backup))
  }

  /** How far a completion may have gone, in the source's order: the displaced
      file goes, the staged copy takes the backup name, the record goes, and
      only then may retention take the backup. */
  ghost predicate Completing(t: Transaction, n: Names, n': Names) {
    || OnlyVacates(t, n, n', t.displaced)
    || (&& CandidateStays(t, n, n') && t.displaced !in n'
        && BackupPromoted(t, n') && At(n', t.record) == At(n, t.record))
    || (&& CandidateStays(t, n, n') && t.displaced !in n'
        && t.backupStage !in n' && t.record !in n' && BackupRetired(t, n, n'))
  }

  /** A candidate that is not itself the displaced name keeps its file. */
  predicate CandidateStays(t: Transaction, n: Names, n': Names) {
    t.candidate != t.displaced ==> At(n', t.candidate) == At(n, t.candidate)
  }

  /** How far taking a publication back may have gone, in the source's order:
      the staged copy goes, then the candidate, then the record. */
  ghost predicate TakingBack(t: Transaction, n: Names, n': Names) {
    && (t.candidate != t.displaced ==> At(n', t.displaced) == At(n, t.displaced))
    && At(n', t.backup) == At(n, t.backup)
    && (t.backupStage in n' ==> At(n', t.backupStage) == At(n, t.backupStage))
    && (if t.candidate in n' then At(n', t.candidate) == At(n, t.candidate) else t.candidate in n ==> t.backupStage !in n')
    && (if t.record in n' then At(n', t.record) == At(n, t.record)
        else t.record in n ==> t.candidate !in n' && t.backupStage !in n')
  }

  /** What a settlement, finished or cut short, did to the transaction's names. */
  ghost predicate Progress(t: Transaction, n: Names, n': Names, decided: Verdict) {
    match decided
    case CompletePublished => Completing(t, n, n')
    case CompleteSuperseded => Completing(t, n, n')
    case DisplacedForeign(_) => true
    case PreservePublished => RolesSame(t, n, n')
    case Ambiguous => RolesSame(t, n, n')
    case _ => TakingBack(t, n, n')
  }

  /** What a step keeps that changes none of the transaction's names. */
  ghost predicate Watched(t: Transaction, m: Names, w: World, v: World) {
    && v.env == w.env && w.history <= v.history && RolesSame(t, w.names, v.names)
    && (OnNewSide(t, m, w) ==> OnNewSide(t, m, v))
    && (OnOldSide(t, m, w) ==> OnOldSide(t, m, v))
    && (!w.env.foreign ==> v.names == w.names && (Synced(w) ==> Synced(v)))
    && (Calm(w) ==> Calm(v))
  }

  /** token_if_present during a settlement */
  method Read(disk: Disk, t: Transaction, ghost m: Names, ghost w0: World, p: Path)
    returns (r: Result<Option<FileToken>>)
    requires WellFormed(w0.env, t) && Settling(t, w0, disk.w, false)
    modifies disk
    ensures Settling(t, w0, disk.w, false) && Watched(t, m, old(disk.w), disk.w)
    ensures r.Success? ==> r.value == At(disk.w.names, p)
    ensures r.Failure? ==> disk.w.history == old(disk.w).history
    ensures r.Success? ==> disk.w.history == old(disk.w).history + [Saw(p, r.value)]
    ensures Calm(old(disk.w)) ==> r.Success?
  {
    ghost var w1 := disk.w;
    r := disk.TokenIfPresent(p);
    SettlingSteady(t, w0, w1, disk.w);
    if !w0.env.foreign {
      SideSteady(t, m, w1, disk.w);
    }
  }

  /** confirm_namespace_durability, which Windows does not have */
  method Confirm(disk: Disk, t: Transaction, ghost m: Names, ghost w0: World) returns (r: Result<()>)
    requires WellFormed(w0.env, t) && Settling(t, w0, disk.w, false)
    modifies disk
    ensures Settling(t, w0, disk.w, false) && Watched(t, m, old(disk.w), disk.w)
    ensures r.Success? && !w0.env.foreign ==> Synced(disk.w)
    ensures disk.w.history == old(disk.w).history
    ensures disk.w.env.platform.Windows? ==> r.Success? && disk.w == old(disk.w)
    ensures Calm(old(disk.w)) ==> r.Success?
  {
    ghost var w1 := disk.w;
    r := Success(());
    if disk.w.env.platform.Unix? {
      r := disk.SyncParent();
      SettlingSteady(t, w0, w1, disk.w);
      if !w0.env.foreign {
        SideSteady(t, m, w1, disk.w);
      }
    }
  }

  /** Nothing is displaced but the expected file. */
  predicate DisplacedFine(t: Transaction, n: Names) {
    t.displaced in n ==> n[t.displaced] == t.expected
  }

  /** The copy waits or was promoted. */
  predicate BackupReady(t: Transaction, n: Names) {
    StageWaits(t, n) || BackupPromoted(t, n)
  }

  /** The first half of finalize_independent_backup: make the exchange durable,
      then remove the displaced credential, if it is exactly the expected one. */
  method DropDisplaced(disk: Disk, t: Transaction, ghost m: Names, ghost w0: World) returns (r: Result<()>)
    requires WellFormed(w0.env, t) && Settling(t, w0, disk.w, false)
    modifies disk
    ensures old(disk.w).history <= disk.w.history
    ensures Settling(t, w0, disk.w, false)
    ensures r.Success? ==>
              && t.displaced !in disk.w.names
              && (At(old(disk.w).names, t.displaced) == Some(t.expected) || t.displaced !in old(disk.w).names)
    ensures OnlyVacates(t, old(disk.w).names, disk.w.names, t.displaced)
    ensures OnNewSide(t, m, old(disk.w)) ==> OnNewSide(t, m, disk.w) && (r.Success? ==> Synced(disk.w))
    ensures Calm(old(disk.w)) && DisplacedFine(t, old(disk.w).names) ==> r.Success? && Calm(disk.w)
  {
    var _ :- Confirm(disk, t, m, w0);
    var displaced :- Read(disk, t, m, w0, t.displaced);
    if displaced.None? {
      return Success(());
    }
    if displaced != Some(t.expected) {
      return Failure(Refused);
    }
    r := DropExpected(disk, t, m, w0);
  }

  method DropExpected(disk: Disk, t: Transaction, ghost m: Names, ghost w0: World) returns (r: Result<()>)
    requires WellFormed(w0.env, t) && Settling(t, w0, disk.w, false) && At(disk.w.names, t.displaced) == Some(t.expected)
    modifies disk
    ensures Settling(t, w0, disk.w, false) && old(disk.w).history <= disk.w.history
    ensures r.Success? ==> t.displaced !in disk.w.names
    ensures OnlyVacates(t, old(disk.w).names, disk.w.names, t.displaced)
    ensures OnNewSide(t, m, old(disk.w)) && Synced(old(disk.w)) ==>
              OnNewSide(t, m, disk.w) && (r.Success? ==> Synced(disk.w))
    ensures Calm(old(disk.w)) ==> r.Success? && Calm(disk.w)
  {
    ghost var w1 := disk.w;
    r := RemoveBoundPath(disk, t.displaced, t.expected);
    SettlingDrops(t, w0, w1, disk.w, t.displaced, t.expected, r.Success?);
    if OnNewSide(t, m, w1) && Synced(w1) {
      DropsDisplaced(t, m, w1, disk.w, r.Success?);
    }
  }

  lemma Promotes(t: Transaction, m: Names, w: World, v: World, moved: Option<File>)
    requires WellFormed(w.env, t) && OnNewSide(t, m, w) && Synced(w) && Valid(w) && Valid(v)
    requires t.displaced !in w.names && StageWaits(t, w.names)
    requires RenameEffect(w, v, t.backupStage, t.backup, moved)
    ensures OnNewSide(t, m, v)
  {
    if moved.Some? {
      NewSidePromotes(w.env, t, m, w.names);
    }
  }

  /** The middle of finalize_independent_backup: move the staged copy to the
      backup name without replacing anyone, or find it there already. */
  method PromoteBackup(disk: Disk, t: Transaction, ghost m: Names, ghost w0: World) returns (r: Result<()>)
    requires WellFormed(w0.env, t) && Settling(t, w0, disk.w, false)
    modifies disk
    ensures old(disk.w).history <= disk.w.history
    ensures Settling(t, w0, disk.w, false)
    ensures r.Success? ==> BackupPromoted(t, disk.w.names)
    ensures r.Success? ==> PromotedIn(t, old(disk.w), disk.w)
    ensures CandidateStays(t, old(disk.w).names, disk.w.names) && At(disk.w.names, t.displaced) == At(old(disk.w).names, t.displaced)
    ensures At(disk.w.names, t.record) == At(old(disk.w).names, t.record)
    ensures RolesSame(t, old(disk.w).names, disk.w.names) || BackupPromoted(t, disk.w.names)
    ensures OnNewSide(t, m, old(disk.w)) && Synced(old(disk.w)) && t.displaced !in old(disk.w).names ==>
              OnNewSide(t, m, disk.w) && (r.Success? ==> Synced(disk.w))
    ensures Calm(old(disk.w)) && BackupReady(t, old(disk.w).names) ==> r.Success? && Calm(disk.w)
  {
    ghost var w1 := disk.w;
    var seen :- ReadCopies(disk, t, m, w0);
    ghost var w2 := disk.w;
    if seen == (Some(t.backupToken), None) {
      r := MoveStage(disk, t, m, w0);
      PromotionRemembered(t, w1, w2, disk.w, disk.w);
    } else if seen == (None, Some(t.backupToken)) {
      r := Confirm(disk, t, m, w0);
    } else {
      return Failure(Refused);
    }
  }

  /** The tokens at the stage and at the backup name. */
  method ReadCopies(disk: Disk, t: Transaction, ghost m: Names, ghost w0: World)
    returns (r: Result<(Option<FileToken>, Option<FileToken>)>)
    requires WellFormed(w0.env, t) && Settling(t, w0, disk.w, false)
    modifies disk
    ensures Settling(t, w0, disk.w, false) && Watched(t, m, old(disk.w), disk.w)
    ensures r.Success? ==> r.value == (At(disk.w.names, t.backupStage), At(disk.w.names, t.backup))
    ensures Calm(old(disk.w)) ==> r.Success?
  {
    var stage :- Read(disk, t, m, w0, t.backupStage);
    var backup :- Read(disk, t, m, w0, t.backup);
    return Success((stage, backup));
  }

  method RenameStage(disk: Disk, t: Transaction, ghost m: Names, ghost w0: World)
    returns (boundary: Result<()>, ghost moved: Option<File>)
    requires WellFormed(w0.env, t) && Settling(t, w0, disk.w, false) && StageWaits(t, disk.w.names)
    modifies disk
    ensures old(disk.w).history <= disk.w.history
    ensures Settling(t, w0, disk.w, false)
    ensures moved.None? ==> boundary.Failure? && RolesSame(t, old(disk.w).names, disk.w.names)
    ensures moved.Some? ==>
              && BackupPromoted(t, disk.w.names)
              && disk.w.history == old(disk.w).history + [Renamed(t.backupStage, t.backup, t.backupToken)]
              && old(disk.w).history < disk.w.history
    ensures CandidateStays(t, old(disk.w).names, disk.w.names) && At(disk.w.names, t.displaced) == At(old(disk.w).names, t.displaced)
    ensures At(disk.w.names, t.record) == At(old(disk.w).names, t.record)
    ensures OnNewSide(t, m, old(disk.w)) && Synced(old(disk.w)) && t.displaced !in old(disk.w).names ==>
              OnNewSide(t, m, disk.w)
    ensures Calm(old(disk.w)) ==> boundary.Success? && Calm(disk.w)
  {
    ghost var w1 := disk.w;
    boundary, moved := disk.RenameNoReplace(t.backupStage, t.backup);
    SettlingPromotes(t, w0, w1, disk.w, moved);
    if OnNewSide(t, m, w1) && Synced(w1) && t.displaced !in w1.names {
      Promotes(t, m, w1, disk.w, moved);
    }
  }

  method MoveStage(disk: Disk, t: Transaction, ghost m: Names, ghost w0: World) returns (r: Result<()>)
    requires WellFormed(w0.env, t) && Settling(t, w0, disk.w, false) && StageWaits(t, disk.w.names)
    modifies disk
    ensures old(disk.w).history <= disk.w.history
    ensures Settling(t, w0, disk.w, false)
    ensures r.Success? ==> BackupPromoted(t, disk.w.names)
    ensures r.Success? ==> MovedIn(old(disk.w), disk.w, t.backupStage, t.backup, t.backupToken)
    ensures CandidateStays(t, old(disk.w).names, disk.w.names) && At(disk.w.names, t.displaced) == At(old(disk.w).names, t.displaced)
    ensures At(disk.w.names, t.record) == At(old(disk.w).names, t.record)
    ensures RolesSame(t, old(disk.w).names, disk.w.names) || BackupPromoted(t, disk.w.names)
    ensures OnNewSide(t, m, old(disk.w)) && Synced(old(disk.w)) && t.displaced !in old(disk.w).names ==>
              OnNewSide(t, m, disk.w) && (r.Success? ==> Synced(disk.w))
    ensures Calm(old(disk.w)) ==> r.Success? && Calm(disk.w)
  {
    ghost var w1 := disk.w;
    ghost var moved;
    var boundary;
    boundary, moved := RenameStage(disk, t, m, w0);
    ghost var w2 := disk.w;
    var stageAfter :- Read(disk, t, m, w0, t.backupStage);
    var backupAfter :- Read(disk, t, m, w0, t.backup);
    if backupAfter != Some(t.backupToken) || stageAfter.Some? {
      return if boundary.Failure? then Failure(boundary.error) else Failure(Refused);
    }
    assert moved.Some? && w2.history <= disk.w.history;
    assert disk.w.history[|w1.history|] == w2.history[|w1.history|] == Renamed(t.backupStage, t.backup, t.backupToken);
    r := ConfirmBoundary(disk, t, m, w0, boundary);
  }

  /** confirm_namespace_boundary: Unix syncs again; Windows accepts only a
      primitive that reported success. */
  method ConfirmBoundary(disk: Disk, t: Transaction, ghost m: Names, ghost w0: World, boundary: Result<()>)
    returns (r: Result<()>)
    requires WellFormed(w0.env, t) && Settling(t, w0, disk.w, false)
    modifies disk
    ensures Settling(t, w0, disk.w, false) && Watched(t, m, old(disk.w), disk.w)
    ensures r.Success? && !w0.env.foreign ==> Synced(disk.w)
    ensures disk.w.history == old(disk.w).history
    ensures disk.w.env.platform.Windows? ==> r == boundary
    ensures Calm(old(disk.w)) && boundary.Success? ==> r.Success?
  {
    r := Confirm(disk, t, m, w0);
    if disk.w.env.platform.Windows? {
      return boundary;
    }
  }

  lemma DropsRecord(t: Transaction, m: Names, w: World, v: World, dropped: bool)
    requires WellFormed(w.env, t) && OnNewSide(t, m, w) && Synced(w)
    requires t.displaced !in w.names && BackupPromoted(t, w.names)
    requires DropEffect(w, v, t.record, t.recordToken, dropped)
    ensures !v.env.foreign && Sound(t, m, v) && NewSide(t, m, v.names)
    ensures dropped ==> CompletedNew(t, m, v.names) && SameSiblings(t, m, v.names) && Synced(v)
    ensures dropped ==> At(v.names, t.backup) == Some(t.backupToken)
  {
    NewSideDropsRecord(w.env, t, m, w.names, v.names, w.draws);
    if w.env.platform.Unix? {
      forall s | s in v.survivors
        ensures NewSide(t, m, s)
      {
        NewSideDropsRecord(w.env, t, m, w.names, s, w.draws);
      }
    }
  }

  lemma Retires(t: Transaction, m: Names, w: World, v: World)
    requires WellFormed(w.env, t) && !w.env.foreign && Synced(w)
    requires CompletedNew(t, m, w.names) && SameSiblings(t, m, w.names) && At(w.names, t.backup) == Some(t.backupToken)
    requires Retaining(t.stem, w, v) && t.expected != t.candidateToken
    ensures Sound(t, m, v) && CompletedNew(t, m, v.names)
  {
    CompletedPruned(w.env, t, m, w.names, v.names, w.draws);
    if w.env.platform.Unix? {
      forall s | s in v.survivors
        ensures NewSide(t, m, s)
      {
        CompletedPruned(w.env, t, m, w.names, s, w.draws);
      }
    }
  }

  /** The look at the live name that decides whether the candidate is still
      there, and the removal of the record. */
  method DropRecord(disk: Disk, t: Transaction, ghost m: Names, ghost w0: World) returns (r: Result<bool>)
    requires WellFormed(w0.env, t) && Settling(t, w0, disk.w, false)
    modifies disk
    ensures old(disk.w).history <= disk.w.history
    ensures Settling(t, w0, disk.w, false)
    ensures r.Success? ==> t.record !in disk.w.names
    ensures r == Success(true) ==> SeenIn(old(disk.w), disk.w, t.Live(), t.candidateToken)
    ensures r == Success(false) ==> LookedElsewhere(t, old(disk.w), disk.w)
    ensures OnlyVacates(t, old(disk.w).names, disk.w.names, t.record)
    ensures OnNewSide(t, m, old(disk.w)) && Synced(old(disk.w)) && t.displaced !in old(disk.w).names
              && BackupPromoted(t, old(disk.w).names) ==>
              && Sound(t, m, disk.w) && NewSide(t, m, disk.w.names)
              && (r.Success? ==> r.value && CompletedNew(t, m, disk.w.names) && SameSiblings(t, m, disk.w.names) && Synced(disk.w))
    ensures Calm(old(disk.w)) && HasRecord(t, old(disk.w).names) ==>
              r == Success(At(old(disk.w).names, t.Live()) == Some(t.candidateToken))
  {
    ghost var w1 := disk.w;
    var live := Read(disk, t, m, w0, t.Live());
    if live.Failure? {
      return Failure(live.error);
    }
    ghost var w2 := disk.w;
    assert w2.history[|w1.history|] == Saw(t.Live(), live.value);
    var removed := RemoveBoundPath(disk, t.record, t.recordToken);
    SettlingDrops(t, w0, w2, disk.w, t.record, t.recordToken, removed.Success?);
    if OnNewSide(t, m, w1) && Synced(w1) && t.displaced !in w1.names && BackupPromoted(t, w1.names) {
      DropsRecord(t, m, w2, disk.w, removed.Success?);
    }
    if removed.Failure? {
      return Failure(removed.error);
    }
    assert disk.w.history[|w1.history|] == w2.history[|w1.history|];
    assert LookedIn(w1, disk.w, t.Live(), live.value);
    return Success(live.value == Some(t.candidateToken));
  }

  /** In these steps the name was looked at, and that is what was there. */
  ghost predicate LookedIn(w: World, v: World, p: Path, seen: Option<FileToken>) {
    exists i :: |w.history| <= i < |v.history| && v.history[i] == Saw(p, seen)
  }

  ghost predicate SeenIn(w: World, v: World, p: Path, f: FileToken) {
    LookedIn(w, v, p, Some(f))
  }

  /** The live name was looked at, and the candidate was not there. */
  ghost predicate LookedElsewhere(t: Transaction, w: World, v: World) {
    exists seen :: seen != Some(t.candidateToken) && LookedIn(w, v, t.Live(), seen)
  }

  lemma LookedLater(t: Transaction, w1: World, w2: World, w3: World, w4: World, p: Path, seen: Option<FileToken>)
    requires w1.history <= w2.history <= w3.history <= w4.history
    ensures LookedIn(w2, w3, p, seen) ==> LookedIn(w1, w4, p, seen)
    ensures forall q: Path, s :: LookedIn(w2, w3, q, s) ==> LookedIn(w1, w4, q, s)
    ensures LookedElsewhere(t, w2, w3) ==> LookedElsewhere(t, w1, w4)
  {
    forall q: Path, s | LookedIn(w2, w3, q, s)
      ensures LookedIn(w1, w4, q, s)
    {
      var i :| |w2.history| <= i < |w3.history| && w3.history[i] == Saw(q, s);
      assert w4.history[i] == Saw(q, s);
    }
  }

  /** The end of finalize_independent_backup: look once more at the live name,
      remove the record, and let retention run. */
  method FinishRecord(disk: Disk, t: Transaction, ghost m: Names, ghost w0: World) returns (r: Result<bool>)
    requires WellFormed(w0.env, t) && Valid(w0) && Settling(t, w0, disk.w, false) && BackupPromoted(t, disk.w.names)
    modifies disk
    ensures old(disk.w).history <= disk.w.history
    ensures Settling(t, w0, disk.w, true)
    ensures r.Success? ==> t.record !in disk.w.names
    ensures r == Success(true) ==> SeenIn(old(disk.w), disk.w, t.Live(), t.candidateToken)
    ensures r == Success(false) ==> LookedElsewhere(t, old(disk.w), disk.w)
    ensures CandidateStays(t, old(disk.w).names, disk.w.names)
    ensures forall p :: p in {t.displaced, t.backupStage} ==> At(disk.w.names, p) == At(old(disk.w).names, p)
    ensures RolesSame(t, old(disk.w).names, disk.w.names) || (t.record !in disk.w.names && BackupRetired(t, w0.names, disk.w.names))
    ensures OnNewSide(t, m, old(disk.w)) && Synced(old(disk.w)) && t.displaced !in old(disk.w).names ==>
              && Sound(t, m, disk.w) && NewSide(t, m, disk.w.names)
              && (r.Success? ==> r.value && CompletedNew(t, m, disk.w.names))
    ensures Calm(old(disk.w)) && HasRecord(t, old(disk.w).names) ==>
              && r == Success(At(old(disk.w).names, t.Live()) == Some(t.candidateToken))
              && BackupExact(t, w0.names, disk.w.names)
  {
    ghost var w1 := disk.w;
    var hardened := Confirm(disk, t, m, w0);
    if hardened.Failure? {
      SettlingFinishes(t, w0, disk.w);
      return Failure(hardened.error);
    }
    ghost var w2 := disk.w;
    r := DropRecord(disk, t, m, w0);
    SettlingFinishes(t, w0, disk.w);
    if r.Success? {
      ghost var w3 := disk.w;
      Retain(disk, t, m, w0);
      LookedLater(t, w1, w2, w3, disk.w, t.Live(), Some(t.candidateToken));
      assert At(disk.w.names, t.record) == At(w3.names, t.record);
    }
  }

  /** cleanup_old_backups at the end of a settlement */
  method Retain(disk: Disk, t: Transaction, ghost m: Names, ghost w0: World)
    requires WellFormed(w0.env, t) && Valid(w0) && Settling(t, w0, disk.w, false)
    requires At(disk.w.names, t.backup) == Some(t.backupToken)
    modifies disk
    ensures Settling(t, w0, disk.w, true)
    ensures old(disk.w).history <= disk.w.history
    ensures forall p :: p in {t.candidate, t.displaced, t.backupStage, t.record} ==> At(disk.w.names, p) == At(old(disk.w).names, p)
    ensures BackupRetired(t, w0.names, disk.w.names)
    ensures Calm(old(disk.w)) ==> BackupExact(t, w0.names, disk.w.names)
    ensures Sound(t, m, old(disk.w)) && !old(disk.w).env.foreign && Synced(old(disk.w))
              && CompletedNew(t, m, old(disk.w).names) && SameSiblings(t, m, old(disk.w).names) ==>
              Sound(t, m, disk.w) && CompletedNew(t, m, disk.w.names)
  {
    ghost var w3 := disk.w;
    CleanupOldBackups(disk, t.stem);
    SettlingRetains(t, w0, w3, disk.w);
    if Sound(t, m, w3) && !w3.env.foreign && Synced(w3) && CompletedNew(t, m, w3.names) && SameSiblings(t, m, w3.names) {
      Retires(t, m, w3, disk.w);
    }
    RetiredByRank(t, w0, w3, disk.w);
    assert forall p :: p in {t.candidate, t.displaced, t.backupStage, t.record} ==> !Outranked(t.stem, w3.names, p);
  }

  /** Retention takes the new backup only for three later ones, and calm it does. */
  lemma RetiredByRank(t: Transaction, w0: World, w: World, v: World)
    requires WellFormed(w0.env, t) && Valid(w0) && Settling(t, w0, w, false) && At(w.names, t.backup) == Some(t.backupToken)
    requires Retaining(t.stem, w, v)
    ensures BackupRetired(t, w0.names, v.names)
    ensures (t.backup in v.names <==> !Outranked(t.stem, w.names, t.backup)) ==> BackupExact(t, w0.names, v.names)
  {
    RankingAgrees(t, w0, w, t.backup);
    assert At(v.names, t.backup) == At(w.names, t.backup) || (t.backup !in v.names && Outranked(t.stem, w.names, t.backup));
  }

  /** Everything the completion of a publication needs. */
  ghost predicate Completable(t: Transaction, n: Names) {
    SameContents(t.backupToken, t.expected) && DisplacedFine(t, n) && BackupReady(t, n) && HasRecord(t, n)
  }

  /** What is left of a completion once the displaced file is gone. */
  ghost predicate Promoting(t: Transaction, n0: Names, n: Names, n': Names) {
    && CandidateStays(t, n, n') && t.displaced !in n'
    && (|| RolesSame(t, n, n')
        || (BackupPromoted(t, n') && At(n', t.record) == At(n, t.record))
        || (t.backupStage !in n' && t.record !in n' && BackupRetired(t, n0, n')))
  }

  /** finalize_independent_backup once nothing is displaced */
  method PromoteAndFinish(disk: Disk, t: Transaction, ghost m: Names, ghost w0: World) returns (r: Result<bool>)
    requires WellFormed(w0.env, t) && Valid(w0) && Settling(t, w0, disk.w, false) && t.displaced !in disk.w.names
    modifies disk
    ensures old(disk.w).history <= disk.w.history
    ensures Settling(t, w0, disk.w, true)
    ensures Promoting(t, w0.names, old(disk.w).names, disk.w.names)
    ensures r.Success? ==>
              t.backupStage !in disk.w.names && t.record !in disk.w.names && PromotedIn(t, old(disk.w), disk.w)
    ensures r == Success(true) ==> SeenIn(old(disk.w), disk.w, t.Live(), t.candidateToken)
    ensures r == Success(false) ==> LookedElsewhere(t, old(disk.w), disk.w)
    ensures OnNewSide(t, m, old(disk.w)) && Synced(old(disk.w)) ==>
              && Sound(t, m, disk.w) && NewSide(t, m, disk.w.names)
              && (r.Success? ==> r.value && CompletedNew(t, m, disk.w.names))
    ensures Calm(old(disk.w)) && BackupReady(t, old(disk.w).names) && HasRecord(t, old(disk.w).names) ==>
              && r == Success(At(old(disk.w).names, t.Live()) == Some(t.candidateToken))
              && BackupExact(t, w0.names, disk.w.names)
  {
    ghost var w2 := disk.w;
    var promoted := PromoteBackup(disk, t, m, w0);
    SettlingFinishes(t, w0, disk.w);
    if promoted.Failure? {
      return Failure(promoted.error);
    }
    ghost var w3 := disk.w;
    r := FinishRecord(disk, t, m, w0);
    assert At(disk.w.names, t.displaced) == At(w3.names, t.displaced);
    assert At(disk.w.names, t.backupStage) == At(w3.names, t.backupStage);
    PromotionRemembered(t, w2, w2, w3, disk.w);
    LookedLater(t, w2, w3, disk.w, disk.w, t.Live(), Some(t.candidateToken));
  }

  /** finalize_independent_backup. The result says whether the candidate was
      still live when it was last looked at. */
  method FinalizeIndependentBackup(disk: Disk, t: Transaction, ghost m: Names, ghost w0: World) returns (r: Result<bool>)
    requires WellFormed(w0.env, t) && Valid(w0) && Settling(t, w0, disk.w, false) && RolesSame(t, w0.names, disk.w.names)
    modifies disk
    ensures old(disk.w).history <= disk.w.history
    ensures Settling(t, w0, disk.w, true) && Completing(t, w0.names, disk.w.names)
    ensures r.Success? ==>
              && SameContents(t.backupToken, t.expected)
              && t.displaced !in disk.w.names && t.backupStage !in disk.w.names && t.record !in disk.w.names
              && (At(old(disk.w).names, t.displaced) == Some(t.expected) || t.displaced !in old(disk.w).names)
              && PromotedIn(t, old(disk.w), disk.w)
    ensures r == Success(true) ==> SeenIn(old(disk.w), disk.w, t.Live(), t.candidateToken)
    ensures r == Success(false) ==> LookedElsewhere(t, old(disk.w), disk.w)
    ensures OnNewSide(t, m, old(disk.w)) ==>
              && Sound(t, m, disk.w) && NewSide(t, m, disk.w.names)
              && (r.Success? ==> r.value && CompletedNew(t, m, disk.w.names))
    ensures Calm(old(disk.w)) && Completable(t, old(disk.w).names) ==>
              && r == Success(At(old(disk.w).names, t.Live()) == Some(t.candidateToken))
              && BackupExact(t, w0.names, disk.w.names)
  {
    if !SameContents(t.backupToken, t.expected) {
      SettlingFinishes(t, w0, disk.w);
      return Failure(Refused);
    }
    r := DropThenFinish(disk, t, m, w0);
  }

  /** finalize_independent_backup for a copy with the expected contents */
  method DropThenFinish(disk: Disk, t: Transaction, ghost m: Names, ghost w0: World) returns (r: Result<bool>)
    requires WellFormed(w0.env, t) && Valid(w0) && Settling(t, w0, disk.w, false) && RolesSame(t, w0.names, disk.w.names)
    requires SameContents(t.backupToken, t.expected)
    modifies disk
    ensures old(disk.w).history <= disk.w.history
    ensures Settling(t, w0, disk.w, true) && Completing(t, w0.names, disk.w.names)
    ensures r.Success? ==>
              && t.displaced !in disk.w.names && t.backupStage !in disk.w.names && t.record !in disk.w.names
              && (At(old(disk.w).names, t.displaced) == Some(t.expected) || t.displaced !in old(disk.w).names)
              && PromotedIn(t, old(disk.w), disk.w)
    ensures r == Success(true) ==> SeenIn(old(disk.w), disk.w, t.Live(), t.candidateToken)
    ensures r == Success(false) ==> LookedElsewhere(t, old(disk.w), disk.w)
    ensures OnNewSide(t, m, old(disk.w)) ==>
              && Sound(t, m, disk.w) && NewSide(t, m, disk.w.names)
              && (r.Success? ==> r.value && CompletedNew(t, m, disk.w.names))
    ensures Calm(old(disk.w)) && Completable(t, old(disk.w).names) ==>
              && r == Success(At(old(disk.w).names, t.Live()) == Some(t.candidateToken))
              && BackupExact(t, w0.names, disk.w.names)
  {
    ghost var w1 := disk.w;
    var dropped := DropDisplaced(disk, t, m, w0);
    if dropped.Failure? {
      SettlingFinishes(t, w0, disk.w);
      return Failure(dropped.error);
    }
    ghost var w2 := disk.w;
    r := PromoteAndFinish(disk, t, m, w0);
    PromotedSince(t, w0, w1, w2, disk.w);
    PromotionRemembered(t, w1, w2, disk.w, disk.w);
    LookedLater(t, w1, w2, disk.w, disk.w, t.Live(), Some(t.candidateToken));
  }

  lemma PromotedSince(t: Transaction, w0: World, w1: World, w2: World, v: World)
    requires WellFormed(w0.env, t) && RolesSame(t, w0.names, w1.names)
    requires OnlyVacates(t, w1.names, w2.names, t.displaced) && t.displaced !in w2.names
    requires Promoting(t, w0.names, w2.names, v.names)
    ensures Completing(t, w0.names, v.names)
    ensures PromotedIn(t, w2, v) && w1.history <= w2.history ==> PromotedIn(t, w1, v)
  {
  }

  /** The staged copy was moved to the backup name in these steps, or was there before. */
  ghost predicate PromotedIn(t: Transaction, w: World, v: World) {
    if t.backupStage in w.names
    then StageWaits(t, w.names) && MovedIn(w, v, t.backupStage, t.backup, t.backupToken)
    else BackupPromoted(t, w.names)
  }

  ghost predicate MovedIn(w: World, v: World, a: Path, b: Path, f: FileToken) {
    exists i :: |w.history| <= i < |v.history| && v.history[i] == Renamed(a, b, f)
  }

  lemma PromotionRemembered(t: Transaction, w1: World, w2: World, w3: World, w4: World)
    requires w1.history <= w2.history <= w3.history <= w4.history
    ensures MovedIn(w2, w3, t.backupStage, t.backup, t.backupToken) ==> MovedIn(w1, w4, t.backupStage, t.backup, t.backupToken)
    ensures SeenIn(w3, w4, t.Live(), t.candidateToken) ==> SeenIn(w1, w4, t.Live(), t.candidateToken)
  {
  }

  lemma OldSideStays(t: Transaction, m: Names, w: World, v: World, path: Path, token: FileToken, dropped: bool)
    requires WellFormed(w.env, t) && OnOldSide(t, m, w)
    requires path in {t.candidate, t.backupStage, t.record} && DropEffect(w, v, path, token, dropped)
    ensures OnOldSide(t, m, v)
  {
    OldSideDrops(w.env, t, m, w.names, v.names, path, w.draws);
    if w.env.platform.Unix? {
      forall s | s in v.survivors
        ensures OldSide(t, m, s)
      {
        var s0 :| s0 in w.survivors && MayLack(s0, s, path, w.draws);
        OldSideDrops(w.env, t, m, s0, s, path, w.draws);
      }
    }
  }

  /** Remove the file observed at a role path if it is exactly the recorded
      one; nothing there is fine, anything else is left alone. */
  method RemoveRole(disk: Disk, t: Transaction, ghost m: Names, ghost w0: World, path: Path, token: FileToken,
                    observed: Option<FileToken>)
    returns (r: Result<()>)
    requires WellFormed(w0.env, t) && Settling(t, w0, disk.w, false)
    requires path in {t.candidate, t.backupStage} && token in t.Recorded(path)
    requires observed == At(disk.w.names, path)
    modifies disk
    ensures Settling(t, w0, disk.w, false) && old(disk.w).history <= disk.w.history
    ensures OnlyVacates(t, old(disk.w).names, disk.w.names, path)
    ensures r.Success? ==> path !in disk.w.names
    ensures OnOldSide(t, m, old(disk.w)) ==>
              OnOldSide(t, m, disk.w)
    ensures Calm(old(disk.w)) && (observed.Some? ==> observed.value == token) ==> r.Success? && Calm(disk.w)
  {
    match observed
    case None => return Success(());
    case Some(found) =>
      if found != token {
        return Failure(Refused);
      }
      ghost var w1 := disk.w;
      r := RemoveBoundPath(disk, path, token);
      SettlingDrops(t, w0, w1, disk.w, path, token, r.Success?);
      if OnOldSide(t, m, w1) {
        OldSideStays(t, m, w1, disk.w, path, token, r.Success?);
      }
  }

  /** Nothing stands against taking the publication back. */
  ghost predicate Abortable(t: Transaction, n: Names) {
    && (t.candidate in n ==> n[t.candidate] == t.candidateToken)
    && (t.displaced != t.candidate ==> t.displaced !in n)
    && (t.backupStage in n ==> n[t.backupStage] == t.backupToken)
    && t.backup !in n && HasRecord(t, n)
  }

  /** cleanup_unpublished_auth */
  method CleanupUnpublishedAuth(disk: Disk, t: Transaction, ghost m: Names, ghost w0: World) returns (r: Result<()>)
    requires WellFormed(w0.env, t) && Settling(t, w0, disk.w, false)
    modifies disk
    ensures Settling(t, w0, disk.w, false) && old(disk.w).history <= disk.w.history
    ensures r.Success? ==> Vacated(t, disk.w.names)
    ensures TakingBack(t, old(disk.w).names, disk.w.names)
    ensures OnOldSide(t, m, old(disk.w)) ==>
              && OnOldSide(t, m, disk.w)
              && (HasRecord(t, old(disk.w).names) ==> t.record in disk.w.names || RestoredOld(t, disk.w.names))
    ensures Calm(old(disk.w)) && Abortable(t, old(disk.w).names) ==> r.Success?
    ensures Calm(old(disk.w)) && t.backup in old(disk.w).names ==> r.Failure? && disk.w.names == old(disk.w).names
  {
    ghost var w1 := disk.w;
    var _ :- DropStage(disk, t, m, w0);
    ghost var w2 := disk.w;
    r := CleanupCandidate(disk, t, m, w0);
    StageThenCandidate(w0.env, t, w1.names, w2.names, disk.w.names);
  }

  lemma StageThenCandidate(env: Surroundings, t: Transaction, n: Names, n1: Names, n2: Names)
    requires WellFormed(env, t)
    requires OnlyVacates(t, n, n1, t.backupStage) && t.backupStage !in n1 && TakingBack(t, n1, n2)
    ensures TakingBack(t, n, n2)
  {
  }

  /** cleanup_unpublished_auth up to the removal of the staged copy: not while
      a retained backup is visible. */
  method DropStage(disk: Disk, t: Transaction, ghost m: Names, ghost w0: World) returns (r: Result<()>)
    requires WellFormed(w0.env, t) && Settling(t, w0, disk.w, false)
    modifies disk
    ensures Settling(t, w0, disk.w, false) && old(disk.w).history <= disk.w.history
    ensures OnlyVacates(t, old(disk.w).names, disk.w.names, t.backupStage)
    ensures r.Success? ==> t.backupStage !in disk.w.names && t.backup !in disk.w.names
    ensures OnOldSide(t, m, old(disk.w)) ==> OnOldSide(t, m, disk.w)
    ensures Calm(old(disk.w)) && Abortable(t, old(disk.w).names) ==> r.Success? && Calm(disk.w)
    ensures Calm(old(disk.w)) && t.backup in old(disk.w).names ==> r.Failure? && disk.w.names == old(disk.w).names
  {
    var backupStage :- Read(disk, t, m, w0, t.backupStage);
    var backup :- Read(disk, t, m, w0, t.backup);
    if backup.Some? {
      return Failure(Refused);
    }
    r := RemoveRole(disk, t, m, w0, t.backupStage, t.backupToken, backupStage);
  }

  /** Every transaction name is free. */
  ghost predicate Vacated(t: Transaction, n: Names) {
    t.candidate !in n && t.displaced !in n && t.backupStage !in n && t.backup !in n && t.record !in n
  }

  /** cleanup_unpublished_auth once the stage is gone and no backup was seen */
  method CleanupCandidate(disk: Disk, t: Transaction, ghost m: Names, ghost w0: World) returns (r: Result<()>)
    requires WellFormed(w0.env, t) && Settling(t, w0, disk.w, false)
    requires t.backupStage !in disk.w.names && t.backup !in disk.w.names
    modifies disk
    ensures Settling(t, w0, disk.w, false) && old(disk.w).history <= disk.w.history
    ensures r.Success? ==> Vacated(t, disk.w.names)
    ensures TakingBack(t, old(disk.w).names, disk.w.names)
    ensures OnOldSide(t, m, old(disk.w)) ==>
              && OnOldSide(t, m, disk.w)
              && (HasRecord(t, old(disk.w).names) ==> t.record in disk.w.names || RestoredOld(t, disk.w.names))
    ensures Calm(old(disk.w)) && Abortable(t, old(disk.w).names) ==> r.Success?
  {
    var _ :- DropCandidate(disk, t, m, w0);
    r := RemoveRecord(disk, t, m, w0);
  }

  /** cleanup_unpublished_auth from the look at the displaced name to the
      removal of the candidate. */
  method DropCandidate(disk: Disk, t: Transaction, ghost m: Names, ghost w0: World) returns (r: Result<()>)
    requires WellFormed(w0.env, t) && Settling(t, w0, disk.w, false)
    modifies disk
    ensures Settling(t, w0, disk.w, false) && old(disk.w).history <= disk.w.history
    ensures OnlyVacates(t, old(disk.w).names, disk.w.names, t.candidate)
    ensures r.Success? ==> t.candidate !in disk.w.names && t.displaced !in disk.w.names
    ensures OnOldSide(t, m, old(disk.w)) ==> OnOldSide(t, m, disk.w)
    ensures Calm(old(disk.w)) && Abortable(t, old(disk.w).names) ==> r.Success? && Calm(disk.w)
  {
    var _ :- RefuseDisplaced(disk, t, m, w0);
    var candidate :- Read(disk, t, m, w0, t.candidate);
    r := RemoveRole(disk, t, m, w0, t.candidate, t.candidateToken, candidate);
  }

  /** On Windows a displaced file means the exchange took place after all. */
  method RefuseDisplaced(disk: Disk, t: Transaction, ghost m: Names, ghost w0: World) returns (r: Result<()>)
    requires WellFormed(w0.env, t) && Settling(t, w0, disk.w, false)
    modifies disk
    ensures Settling(t, w0, disk.w, false) && Watched(t, m, old(disk.w), disk.w)
    ensures r.Success? && t.displaced != t.candidate ==> t.displaced !in disk.w.names
    ensures Calm(old(disk.w)) && (t.displaced != t.candidate ==> t.displaced !in old(disk.w).names) ==> r.Success?
  {
    if disk.w.env.platform.Windows? {
      var displaced :- Read(disk, t, m, w0, t.displaced);
      if displaced.Some? {
        return Failure(Refused);
      }
    }
    return Success(());
  }

  /** remove_publication_record on a settlement that published nothing */
  method RemoveRecord(disk: Disk, t: Transaction, ghost m: Names, ghost w0: World) returns (r: Result<()>)
    requires WellFormed(w0.env, t) && Settling(t, w0, disk.w, false)
    modifies disk
    ensures Settling(t, w0, disk.w, false) && old(disk.w).history <= disk.w.history
    ensures r.Success? ==> t.record !in disk.w.names
    ensures OnlyVacates(t, old(disk.w).names, disk.w.names, t.record)
    ensures OnOldSide(t, m, old(disk.w)) ==> OnOldSide(t, m, disk.w)
    ensures Calm(old(disk.w)) && HasRecord(t, old(disk.w).names) ==> r.Success?
  {
    ghost var w1 := disk.w;
    r := RemoveBoundPath(disk, t.record, t.recordToken);
    SettlingDrops(t, w0, w1, disk.w, t.record, t.recordToken, r.Success?);
    if OnOldSide(t, m, w1) {
      OldSideStays(t, m, w1, disk.w, t.record, t.recordToken, r.Success?);
    }
  }

  /** A foreign file went back to the live name in exchange for the candidate. */
  ghost predicate HandedBack(t: Transaction, w: World, v: World, foreign: FileToken) {
    exists i :: |w.history| <= i < |v.history|
                && (|| v.history[i] == Swapped(t.displaced, t.Live(), foreign, t.candidateToken)
                    || v.history[i] == Replaced(t.displaced, t.Live(), t.candidate, foreign, t.candidateToken))
  }

  /** The step puts `foreign` back on the live name, or on Windows may only have
      taken off it what was there. */
  predicate GivesBack(t: Transaction, foreign: FileToken, e: Event) {
    match e
    case Swapped(a, b, placed, _) => a == t.displaced && b == t.Live() && placed == foreign
    case Replaced(a, b, c, placed, _) => a == t.displaced && b == t.Live() && c == t.candidate && placed == foreign
    case OnlyDisplaced(a, b, _) => a == t.Live() && b == t.candidate
    case _ => false
  }

  /** These steps only looked, or one of them was to give `foreign` its name back. */
  ghost predicate OnlySawOrGaveBack(t: Transaction, w: World, v: World, foreign: FileToken) {
    w.history <= v.history && (OnlySaw(w, v) || exists k :: |w.history| <= k < |v.history| && GivesBack(t, foreign, v.history[k]))
  }

  /** The exchange displaced somebody else's file, and nothing happened since. */
  ghost predicate Restorable(t: Transaction, n: Names, foreign: FileToken) {
    && At(n, t.Live()) == Some(t.candidateToken) && At(n, t.displaced) == Some(foreign)
    && (t.displaced != t.candidate ==> t.candidate !in n) && StageWaits(t, n) && HasRecord(t, n)
  }

  /** The foreign file is live again and the candidate back in its place. */
  ghost predicate GivenBack(t: Transaction, n: Names, foreign: FileToken) {
    && At(n, t.Live()) == Some(foreign) && At(n, t.candidate) == Some(t.candidateToken) && Abortable(t, n)
  }

  lemma GivingBack(env: Surroundings, t: Transaction, n: Names, foreign: FileToken)
    requires WellFormed(env, t) && Restorable(t, n, foreign)
    ensures GivenBack(t, Apply(n, if t.displaced == t.candidate then Swap(t.displaced, t.Live())
                                  else Replace(t.displaced, t.Live(), t.candidate)), foreign)
  {
    var s := Apply(n, if t.displaced == t.candidate then Swap(t.displaced, t.Live()) else Replace(t.displaced, t.Live(), t.candidate));
    assert At(s, t.backupStage) == At(n, t.backupStage) && At(s, t.backup) == At(n, t.backup) && At(s, t.record) == At(n, t.record);
  }

  /** What trying to hand `foreign` back in `w`, in a settlement begun in `w0`, did. */
  ghost predicate TriedToHandBack(t: Transaction, w0: World, w: World, v: World, boundary: Result<()>, foreign: FileToken) {
    && Settled(t, w0, v, false) && w.history <= v.history && v.env == w.env && Valid(v)
    && (At(v.names, t.candidate) == Some(t.candidateToken) && (t.displaced != t.candidate ==> t.displaced !in v.names) ==>
          HandedBack(t, w, v, foreign))
    && (if v.history == w.history then At(v.names, t.candidate) == At(w.names, t.candidate)
        else |v.history| > |w.history| && GivesBack(t, foreign, v.history[|w.history|]))
    && (Calm(w) && t.Live() in w.names ==>
          && boundary.Success? && Calm(v)
          && v.names == Apply(w.names, if t.displaced == t.candidate then Swap(t.displaced, t.Live())
                                       else Replace(t.displaced, t.Live(), t.candidate)))
  }

  /** restore_displaced_to_live on Unix */
  method SwapBack(disk: Disk, t: Transaction, ghost w0: World, ghost foreign: FileToken) returns (boundary: Result<()>)
    requires WellFormed(w0.env, t) && Valid(w0) && Settling(t, w0, disk.w, false) && w0.env.platform.Unix?
    requires At(disk.w.names, t.displaced) == Some(foreign) && foreign != t.expected && foreign != t.candidateToken
    modifies disk
    ensures TriedToHandBack(t, w0, old(disk.w), disk.w, boundary, foreign)
  {
    ghost var w1 := disk.w;
    ghost var swapped;
    boundary, swapped := disk.Exchange(t.displaced, t.Live());
    SwapBackIsSettled(t, w0, w1, disk.w, swapped);
    assert swapped.None? ==> At(disk.w.names, t.displaced) == At(w1.names, t.displaced);
    assert swapped.Some? ==>
        disk.w.history[|w1.history|] == Swapped(t.displaced, t.Live(), foreign, disk.w.names[t.displaced]);
  }

  /** restore_displaced_to_live on Windows */
  method ReplaceBack(disk: Disk, t: Transaction, ghost w0: World, ghost foreign: FileToken) returns (boundary: Result<()>)
    requires WellFormed(w0.env, t) && Valid(w0) && Settling(t, w0, disk.w, false) && w0.env.platform.Windows?
    requires At(disk.w.names, t.displaced) == Some(foreign) && foreign != t.expected && foreign != t.candidateToken
    requires t.candidate !in disk.w.names
    modifies disk
    ensures TriedToHandBack(t, w0, old(disk.w), disk.w, boundary, foreign)
  {
    ghost var w1 := disk.w;
    ghost var o, lost;
    boundary, o, lost := disk.ReplaceWithDisplaced(t.displaced, t.Live(), t.candidate);
    ReplaceBackIsSettled(t, w0, w1, disk.w, o);
    assert o.Untouched? ==> At(disk.w.names, t.candidate) == At(w1.names, t.candidate);
    assert o.FullyReplaced? ==>
        disk.w.history[|w1.history|] == Replaced(t.displaced, t.Live(), t.candidate, foreign, disk.w.names[t.candidate]);
  }

  /** restore_displaced_to_live */
  method RestoreDisplacedToLive(disk: Disk, t: Transaction, ghost w0: World, ghost foreign: FileToken)
    returns (boundary: Result<()>)
    requires WellFormed(w0.env, t) && Valid(w0) && Settling(t, w0, disk.w, false)
    requires At(disk.w.names, t.displaced) == Some(foreign) && foreign != t.expected && foreign != t.candidateToken
    requires w0.env.platform.Windows? ==> t.candidate !in disk.w.names
    modifies disk
    ensures TriedToHandBack(t, w0, old(disk.w), disk.w, boundary, foreign)
  {
    if disk.w.env.platform.Unix? {
      boundary := SwapBack(disk, t, w0, foreign);
    } else {
      boundary := ReplaceBack(disk, t, w0, foreign);
    }
  }

  lemma HandedBackLater(t: Transaction, w1: World, w2: World, w3: World, w4: World, foreign: FileToken)
    requires w1.history <= w2.history <= w3.history <= w4.history && HandedBack(t, w2, w3, foreign)
    ensures HandedBack(t, w1, w4, foreign)
  {
  }

  /** Nothing but readings since `w1`. */
  ghost predicate Reading(w1: World, w: World) {
    Valid(w) && Between(w1, w) && OnlySaw(w1, w)
  }

  lemma ReadingIsWatched(t: Transaction, m: Names, w0: World, w1: World, w: World)
    requires WellFormed(w0.env, t) && Settling(t, w0, w1, false) && Reading(w1, w)
    ensures Settling(t, w0, w, false) && Watched(t, m, w1, w)
  {
    SettlingSteady(t, w0, w1, w);
    if !w0.env.foreign {
      SideSteady(t, m, w1, w);
    }
  }

  /** token_if_present, one of a row of readings that began in `w1`. */
  method ReadAlso(disk: Disk, ghost w1: World, p: Path) returns (r: Result<Option<FileToken>>)
    requires Reading(w1, disk.w)
    modifies disk
    ensures Reading(w1, disk.w) && old(disk.w).history <= disk.w.history
    ensures Elsewhere(old(disk.w).names, disk.w.names, {disk.w.env.contested})
    ensures !disk.w.env.foreign ==> disk.w.names == old(disk.w).names
    ensures r.Success? ==> r.value == At(disk.w.names, p) && LookedIn(w1, disk.w, p, r.value)
    ensures Calm(w1) ==> r.Success?
  {
    ghost var before := disk.w;
    r := disk.TokenIfPresent(p);
    BetweenAgain(w1, before, disk.w);
    forall i | |w1.history| <= i < |disk.w.history|
      ensures disk.w.history[i].Saw?
    {
      assert i < |before.history| ==> disk.w.history[i] == before.history[i];
    }
    assert r.Success? ==> disk.w.history[|before.history|] == Saw(p, r.value);
  }

  datatype Observation = Observation(
    live: Option<FileToken>,
    candidate: Option<FileToken>,
    displaced: Option<FileToken>,
    stage: Option<FileToken>,
    backup: Option<FileToken>)

  /** What was seen of the names the exchange is about; only the live one may
      have changed since. */
  ghost predicate SawExchange(t: Transaction, w1: World, w: World, o: Observation) {
    && o.candidate == At(w.names, t.candidate) && o.displaced == At(w.names, t.displaced)
    && (!w.env.foreign ==> o.live == At(w.names, t.Live()))
    && (o.live == Some(t.candidateToken) ==> o.candidate != Some(t.candidateToken))
    && LookedIn(w1, w, t.Live(), o.live) && LookedIn(w1, w, t.displaced, o.displaced)
  }

  /** The readings settle_auth_publication starts from. */
  method Observe(disk: Disk, t: Transaction, ghost w1: World) returns (r: Result<Observation>)
    requires WellFormed(w1.env, t) && Reading(w1, disk.w)
    modifies disk
    ensures Reading(w1, disk.w)
    ensures r.Success? ==>
              && SawExchange(t, w1, disk.w, r.value)
              && r.value.stage == At(disk.w.names, t.backupStage) && r.value.backup == At(disk.w.names, t.backup)
    ensures Calm(w1) ==> r.Success?
  {
    var o :- ObserveExchange(disk, t, w1);
    ghost var w2 := disk.w;
    var stage :- ReadAlso(disk, w1, t.backupStage);
    var backup :- ReadAlso(disk, w1, t.backup);
    LookedLater(t, w1, w1, w2, disk.w, t.Live(), o.live);
    return Success(o.(stage := stage, backup := backup));
  }

  /** The first three readings, also taken once a file was handed back. */
  method ObserveExchange(disk: Disk, t: Transaction, ghost w1: World) returns (r: Result<Observation>)
    requires WellFormed(w1.env, t) && Reading(w1, disk.w)
    modifies disk
    ensures Reading(w1, disk.w)
    ensures r.Success? ==> SawExchange(t, w1, disk.w, r.value)
    ensures Calm(w1) ==> r.Success?
  {
    var live :- ReadAlso(disk, w1, t.Live());
    ghost var w2 := disk.w;
    var candidate :- ReadAlso(disk, w1, t.candidate);
    ghost var w3 := disk.w;
    var displaced := candidate;
    if t.displaced != t.candidate {
      displaced :- ReadAlso(disk, w1, t.displaced);
    }
    LookedLater(t, w1, w1, w2, disk.w, t.Live(), live);
    LookedLater(t, w1, w1, w3, disk.w, t.candidate, candidate);
    return Success(Observation(live, candidate, displaced, None, None));
  }

  /** restore_foreign_live, up to the exchange: both files must still be there. */
  method RestorationStillApplies(disk: Disk, t: Transaction, ghost m: Names, ghost w0: World, foreign: FileToken)
    returns (r: Result<()>)
    requires WellFormed(w0.env, t) && Settling(t, w0, disk.w, false)
    modifies disk
    ensures Settling(t, w0, disk.w, false) && old(disk.w).history <= disk.w.history
    ensures OnlySaw(old(disk.w), disk.w)
    ensures r.Success? ==>
              && At(disk.w.names, t.displaced) == Some(foreign)
              && (disk.w.env.platform.Windows? ==> t.candidate !in disk.w.names)
    ensures Calm(old(disk.w)) ==> Calm(disk.w) && disk.w.names == old(disk.w).names
    ensures Calm(old(disk.w)) && Restorable(t, old(disk.w).names, foreign) ==> r.Success?
  {
    ghost var w1 := disk.w;
    r := StillDisplaced(disk, t, w1, foreign);
    ReadingIsWatched(t, m, w0, w1, disk.w);
  }

  method StillDisplaced(disk: Disk, t: Transaction, ghost w1: World, foreign: FileToken) returns (r: Result<()>)
    requires WellFormed(w1.env, t) && Reading(w1, disk.w)
    modifies disk
    ensures Reading(w1, disk.w)
    ensures r.Success? ==>
              && At(disk.w.names, t.displaced) == Some(foreign)
              && (disk.w.env.platform.Windows? ==> t.candidate !in disk.w.names)
    ensures Calm(w1) ==> (r.Success? <==>
              && At(w1.names, t.Live()) == Some(t.candidateToken) && At(w1.names, t.displaced) == Some(foreign)
              && (disk.w.env.platform.Windows? ==> t.candidate !in w1.names))
  {
    var live :- ReadAlso(disk, w1, t.Live());
    var displaced :- ReadAlso(disk, w1, t.displaced);
    if live != Some(t.candidateToken) || displaced != Some(foreign) {
      return Failure(Refused);
    }
    if disk.w.env.platform.Windows? {
      var candidate :- ReadAlso(disk, w1, t.candidate);
      if candidate.Some? {
        return Failure(Refused);
      }
    }
    return Success(());
  }

  /** restore_foreign_live, from the exchange on: look at what it did, then
      remove the artifacts of the abandoned publication. */
  method ConcludeRestoration(disk: Disk, t: Transaction, ghost m: Names, ghost w0: World, foreign: FileToken, boundary: Result<()>)
    returns (r: Result<()>)
    requires WellFormed(w0.env, t) && Valid(w0) && Settled(t, w0, disk.w, false)
    modifies disk
    ensures Settled(t, w0, disk.w, false) && old(disk.w).history <= disk.w.history
    ensures At(old(disk.w).names, t.candidate) != Some(t.candidateToken) ==> OnlySaw(old(disk.w), disk.w)
    ensures r.Success? ==>
              && Vacated(t, disk.w.names)
              && At(old(disk.w).names, t.candidate) == Some(t.candidateToken)
              && (t.displaced != t.candidate ==> t.displaced !in old(disk.w).names)
    ensures Calm(old(disk.w)) ==> At(disk.w.names, t.Live()) == At(old(disk.w).names, t.Live())
    ensures Calm(old(disk.w)) && boundary.Success? && GivenBack(t, old(disk.w).names, foreign) ==> r.Success?
  {
    ghost var w1 := disk.w;
    SettlingBegins(t, w1);
    r := ConcludeRestorationFrom(disk, t, m, w1, foreign, boundary);
    SettledThenSettling(t, w0, w1, disk.w);
  }

  method ConcludeRestorationFrom(disk: Disk, t: Transaction, ghost m: Names, ghost w1: World, foreign: FileToken, boundary: Result<()>)
    returns (r: Result<()>)
    requires WellFormed(w1.env, t) && Settling(t, w1, disk.w, false)
    modifies disk
    ensures Settling(t, w1, disk.w, false) && old(disk.w).history <= disk.w.history
    ensures At(old(disk.w).names, t.candidate) != Some(t.candidateToken) ==> OnlySaw(old(disk.w), disk.w)
    ensures r.Success? ==>
              && Vacated(t, disk.w.names)
              && At(old(disk.w).names, t.candidate) == Some(t.candidateToken)
              && (t.displaced != t.candidate ==> t.displaced !in old(disk.w).names)
    ensures Calm(old(disk.w)) ==> At(disk.w.names, t.Live()) == At(old(disk.w).names, t.Live())
    ensures Calm(old(disk.w)) && boundary.Success? && GivenBack(t, old(disk.w).names, foreign) ==> r.Success?
  {
    var _ :- RestorationTookEffect(disk, t, m, w1, foreign, boundary);
    var _ :- ConfirmBoundary(disk, t, m, w1, boundary);
    r := CleanupUnpublishedAuth(disk, t, m, w1);
  }

  /** The post-state of an exchange-back: the foreign file live, the candidate
      where it was, and nothing displaced. */
  method RestorationTookEffect(disk: Disk, t: Transaction, ghost m: Names, ghost w1: World, foreign: FileToken, boundary: Result<()>)
    returns (r: Result<()>)
    requires WellFormed(w1.env, t) && Settling(t, w1, disk.w, false)
    modifies disk
    ensures Settling(t, w1, disk.w, false) && old(disk.w).history <= disk.w.history
    ensures OnlySaw(old(disk.w), disk.w)
    ensures r.Success? ==>
              && At(old(disk.w).names, t.candidate) == Some(t.candidateToken)
              && (t.displaced != t.candidate ==> t.displaced !in old(disk.w).names)
    ensures Calm(old(disk.w)) ==> Calm(disk.w) && disk.w.names == old(disk.w).names
    ensures Calm(old(disk.w)) && GivenBack(t, old(disk.w).names, foreign) ==> r.Success?
  {
    ghost var w2 := disk.w;
    var observed := ObserveExchange(disk, t, w2);
    ReadingIsWatched(t, m, w1, w2, disk.w);
    var after :- observed;
    if after.live != Some(foreign) || after.candidate != Some(t.candidateToken)
       || (t.displaced != t.candidate && after.displaced.Some?)
    {
      return if boundary.Failure? then Failure(boundary.error) else Failure(Refused);
    }
    return Success(());
  }

  /** restore_foreign_live */
  method RestoreForeignLive(disk: Disk, t: Transaction, ghost m: Names, ghost w0: World, foreign: FileToken)
    returns (r: Result<()>)
    requires WellFormed(w0.env, t) && Valid(w0) && Settling(t, w0, disk.w, false)
    requires foreign != t.expected && foreign != t.candidateToken
    modifies disk
    ensures Settled(t, w0, disk.w, false) && old(disk.w).history <= disk.w.history
    ensures r.Success? ==> Vacated(t, disk.w.names) && HandedBack(t, old(disk.w), disk.w, foreign)
    ensures OnlySawOrGaveBack(t, old(disk.w), disk.w, foreign)
    ensures Calm(old(disk.w)) && Restorable(t, old(disk.w).names, foreign) ==>
              r.Success? && At(disk.w.names, t.Live()) == Some(foreign)
    ensures Calm(old(disk.w)) && t.displaced != t.candidate && t.candidate in old(disk.w).names ==>
              r.Failure? && disk.w.names == old(disk.w).names
  {
    ghost var w1 := disk.w;
    var applies := RestorationStillApplies(disk, t, m, w0, foreign);
    SettlingIsSettled(t, w0, disk.w, false);
    if applies.Failure? {
      return applies;
    }
    ghost var w2 := disk.w;
    var boundary := RestoreDisplacedToLive(disk, t, w0, foreign);
    ghost var w3 := disk.w;
    if Calm(w1) && Restorable(t, w1.names, foreign) {
      GivingBack(w0.env, t, w1.names, foreign);
    }
    r := ConcludeRestoration(disk, t, m, w0, foreign, boundary);
    if r.Success? {
      HandedBackLater(t, w1, w2, w3, disk.w, foreign);
    }
  }

  /** Why the candidate counts as published: it was seen live, the displaced
      file was exactly the expected one (or already removed), and a separate
      file with the same contents was put in the backup's place. */
  ghost predicate PublishedProperly(t: Transaction, w: World, v: World) {
    && SameContents(t.backupToken, t.expected)
    && SeenIn(w, v, t.Live(), t.candidateToken)
    && (At(w.names, t.displaced) == Some(t.expected) || t.displaced !in w.names)
    && PromotedIn(t, w, v)
  }

  lemma PublishedProperlyLater(t: Transaction, w: World, w1: World, v: World)
    requires PublishedProperly(t, w1, v) && w.history <= w1.history <= v.history
    requires RolesSame(t, w.names, w1.names)
    ensures PublishedProperly(t, w, v)
  {
  }

  /** Undisturbed, the live name was left alone. */
  ghost predicate LiveLeft(t: Transaction, w: World, v: World) {
    !w.env.foreign ==> At(v.names, t.Live()) == At(w.names, t.Live())
  }

  method CompleteNew(disk: Disk, t: Transaction, ghost m: Names, ghost w0: World) returns (s: PublicationSettlement)
    requires WellFormed(w0.env, t) && Valid(w0) && Settling(t, w0, disk.w, false) && RolesSame(t, w0.names, disk.w.names)
    modifies disk
    ensures Settled(t, w0, disk.w, true)
    ensures s in {Published, LiveUnchanged, PublishedRecoveryRequired}
    ensures s != PublishedRecoveryRequired ==>
              t.displaced !in disk.w.names && t.backupStage !in disk.w.names && t.record !in disk.w.names
    ensures s == Published ==> PublishedProperly(t, w0, disk.w)
    ensures s == LiveUnchanged ==> LookedElsewhere(t, old(disk.w), disk.w)
    ensures Completing(t, w0.names, disk.w.names) && LiveLeft(t, w0, disk.w)
    ensures old(disk.w).history <= disk.w.history && AllLeaveLive(w0, disk.w)
    ensures t.candidate in disk.w.names ==> At(disk.w.names, t.candidate) == At(w0.names, t.candidate)
    ensures OnNewSide(t, m, old(disk.w)) ==>
              && Sound(t, m, disk.w) && NewSide(t, m, disk.w.names) && s != LiveUnchanged
              && (s == Published ==> CompletedNew(t, m, disk.w.names))
    ensures (Calm(old(disk.w)) && Completable(t, old(disk.w).names)
             && At(old(disk.w).names, t.Live()) == Some(t.candidateToken)) ==> s == Published && BackupExact(t, w0.names, disk.w.names)
  {
    ghost var w1 := disk.w;
    var finalized := FinalizeIndependentBackup(disk, t, m, w0);
    SettlingIsSettled(t, w0, disk.w, true);
    assert Kept(t, w0.names, disk.w.names, true, t.candidate);
    if finalized == Success(true) {
      PublishedProperlyLater(t, w0, w1, disk.w);
    }
    s := match finalized
         case Success(stillLive) => if stillLive then Published else LiveUnchanged
         case Failure(_) => PublishedRecoveryRequired;
  }

  method CompleteLate(disk: Disk, t: Transaction, ghost m: Names, ghost w0: World) returns (s: PublicationSettlement)
    requires WellFormed(w0.env, t) && Valid(w0) && Settling(t, w0, disk.w, false) && RolesSame(t, w0.names, disk.w.names)
    modifies disk
    ensures Settled(t, w0, disk.w, true)
    ensures s in {LiveUnchanged, AmbiguousRecoveryRequired}
    ensures s == LiveUnchanged ==>
              t.displaced !in disk.w.names && t.backupStage !in disk.w.names && t.record !in disk.w.names
    ensures t.candidate in disk.w.names ==> At(disk.w.names, t.candidate) == At(w0.names, t.candidate)
    ensures Calm(old(disk.w)) && Completable(t, old(disk.w).names) ==> s == LiveUnchanged && BackupExact(t, w0.names, disk.w.names)
    ensures Completing(t, w0.names, disk.w.names) && LiveLeft(t, w0, disk.w)
    ensures old(disk.w).history <= disk.w.history && AllLeaveLive(w0, disk.w)
  {
    var finalized := FinalizeIndependentBackup(disk, t, m, w0);
    SettlingIsSettled(t, w0, disk.w, true);
    assert Kept(t, w0.names, disk.w.names, true, t.candidate);
    s := if finalized.Success? then LiveUnchanged else AmbiguousRecoveryRequired;
  }

  method Restore(disk: Disk, t: Transaction, ghost m: Names, ghost w0: World, foreign: FileToken)
    returns (s: PublicationSettlement)
    requires WellFormed(w0.env, t) && Valid(w0) && Settling(t, w0, disk.w, false)
    requires foreign != t.expected && foreign != t.candidateToken
    modifies disk
    ensures Settled(t, w0, disk.w, true)
    ensures s in {LiveUnchanged, RestoredRecoveryRequired}
    ensures old(disk.w).history <= disk.w.history
    ensures s == LiveUnchanged ==> Vacated(t, disk.w.names) && HandedBack(t, old(disk.w), disk.w, foreign)
    ensures OnlySawOrGaveBack(t, old(disk.w), disk.w, foreign)
    ensures Calm(old(disk.w)) && Restorable(t, old(disk.w).names, foreign) ==>
              s == LiveUnchanged && At(disk.w.names, t.Live()) == Some(foreign)
    ensures (Calm(old(disk.w)) && t.displaced != t.candidate && t.candidate in old(disk.w).names)
            ==> s == RestoredRecoveryRequired && disk.w.names == old(disk.w).names
  {
    var restored := RestoreForeignLive(disk, t, m, w0, foreign);
    SettledRetains(t, w0, disk.w);
    s := if restored.Success? then LiveUnchanged else RestoredRecoveryRequired;
  }

  /** What taking a publication back comes to, from `w` in a settlement begun in `w0`. */
  ghost predicate AbortOutcome(t: Transaction, m: Names, w0: World, w: World, v: World, s: PublicationSettlement) {
    && Settled(t, w0, v, true) && TakingBack(t, w0.names, v.names) && LiveLeft(t, w0, v)
    && AllLeaveLive(w0, v) && w.history <= v.history
    && s in {LiveUnchanged, RestoredRecoveryRequired}
    && (s == LiveUnchanged ==> Vacated(t, v.names))
    && (OnOldSide(t, m, w) && HasRecord(t, w.names) ==>
          OnOldSide(t, m, v) && (t.record in v.names || RestoredOld(t, v.names)))
    && (Calm(w) && Abortable(t, w.names) ==> s == LiveUnchanged)
    && (Calm(w) && t.backup in w.names ==> s == RestoredRecoveryRequired && v.names == w.names)
  }

  method Abort(disk: Disk, t: Transaction, ghost m: Names, ghost w0: World) returns (s: PublicationSettlement)
    requires WellFormed(w0.env, t) && Valid(w0) && Settling(t, w0, disk.w, false) && RolesSame(t, w0.names, disk.w.names)
    modifies disk
    ensures AbortOutcome(t, m, w0, old(disk.w), disk.w, s)
  {
    var cleaned := CleanupUnpublishedAuth(disk, t, m, w0);
    SettlingFinishes(t, w0, disk.w);
    SettlingIsSettled(t, w0, disk.w, true);
    s := if cleaned.Success? then LiveUnchanged else RestoredRecoveryRequired;
  }

  method AbortRecord(disk: Disk, t: Transaction, ghost m: Names, ghost w0: World) returns (s: PublicationSettlement)
    requires WellFormed(w0.env, t) && Valid(w0) && Settling(t, w0, disk.w, false) && RolesSame(t, w0.names, disk.w.names)
    requires t.candidate !in disk.w.names && t.displaced !in disk.w.names
    requires t.backupStage !in disk.w.names && t.backup !in disk.w.names
    modifies disk
    ensures AbortOutcome(t, m, w0, old(disk.w), disk.w, s)
  {
    var removed := RemoveRecord(disk, t, m, w0);
    SettlingFinishes(t, w0, disk.w);
    SettlingIsSettled(t, w0, disk.w, true);
    s := if removed.Success? then LiveUnchanged else RestoredRecoveryRequired;
  }

  /** A settlement that starts undisturbed with the new credential live ends
      with it live, and calm ends complete. */
  ghost predicate NewSideOutcome(t: Transaction, m: Names, w: World, v: World, r: Result<PublicationSettlement>) {
    OnNewSide(t, m, w) ==>
      && Sound(t, m, v) && NewSide(t, m, v.names)
      && (r == Success(Published) ==> CompletedNew(t, m, v.names))
      && r != Success(LiveUnchanged)
      && (Calm(w) && SameContents(t.backupToken, t.expected) ==> r == Success(Published) && BackupExact(t, m, v.names))
  }

  /** One that starts with the old credential live takes the publication back. */
  ghost predicate OldSideOutcome(t: Transaction, m: Names, w: World, v: World, r: Result<PublicationSettlement>) {
    OnOldSide(t, m, w) && HasRecord(t, w.names) ==>
      && OnOldSide(t, m, v)
      && (t.record in v.names || RestoredOld(t, v.names))
      && (r == Success(LiveUnchanged) ==> RestoredOld(t, v.names))
      && r != Success(Published)
      && (Calm(w) ==> r == Success(LiveUnchanged))
  }

  /** When the result claims that nothing is left to recover, the displaced
      file, the stage and the record are gone, and nothing came to the
      candidate name. */
  ghost predicate CleanWhenSettled(t: Transaction, w: World, v: World, verdict: Option<Verdict>, r: Result<PublicationSettlement>) {
    r in {Success(Published), Success(LiveUnchanged)} ==>
      && t.displaced !in v.names && t.backupStage !in v.names && t.record !in v.names
      && (t.candidate in v.names ==> At(v.names, t.candidate) == At(w.names, t.candidate))
      && (r.value.LiveUnchanged? && verdict !in {Some(CompletePublished), Some(CompleteSuperseded)} ==> Vacated(t, v.names))
  }

  /** The live name was looked at with this result, and no step since was one
      that moves a file onto it or off it. */
  ghost predicate LastLook(t: Transaction, w: World, v: World, seen: Option<FileToken>) {
    exists i :: |w.history| <= i < |v.history| && v.history[i] == Saw(t.Live(), seen) && LeftLiveSince(v, i)
  }

  ghost predicate LeftLiveSince(v: World, i: nat) {
    forall k :: i <= k < |v.history| ==> LeavesLive(v.history[k])
  }

  /** At its last look the candidate was not live. */
  ghost predicate LastElsewhere(t: Transaction, w: World, v: World) {
    exists seen :: seen != Some(t.candidateToken) && LastLook(t, w, v, seen)
  }

  /** The candidate was seen live and `foreign` displaced, and from then on there
      were only readings, or a step to give that file its name back. */
  ghost predicate RestoringForeign(t: Transaction, w: World, v: World, foreign: FileToken) {
    && LookedIn(w, v, t.displaced, Some(foreign))
    && exists i ::
         && |w.history| <= i < |v.history| && v.history[i] == Saw(t.Live(), Some(t.candidateToken))
         && ((forall k :: i <= k < |v.history| ==> v.history[k].Saw?)
             || exists k :: i < k < |v.history| && GivesBack(t, foreign, v.history[k]))
  }

  /** `foreign` was displaced when the settlement began, it is not the expected
      file nor the candidate, and the expected one was found unchanged. */
  predicate ForeignDisplaced(t: Transaction, w: World, inode: Witness, foreign: FileToken) {
    && inode.Unchanged? && At(w.names, t.displaced) == Some(foreign)
    && foreign != t.expected && foreign != t.candidateToken
  }

  /** What a settlement's answer tells of the candidate, whoever else acts and
      whatever fails. */
  ghost predicate AnswerTells(t: Transaction, w: World, v: World, inode: Witness, s: PublicationSettlement) {
    match s
    case Published => LastLook(t, w, v, Some(t.candidateToken))
    case PublishedRecoveryRequired => LastLook(t, w, v, Some(t.candidateToken))
    case LiveUnchanged =>
      LastElsewhere(t, w, v) || exists foreign :: ForeignDisplaced(t, w, inode, foreign) && HandedBack(t, w, v, foreign)
    case RestoredRecoveryRequired =>
      LastElsewhere(t, w, v) || exists foreign :: ForeignDisplaced(t, w, inode, foreign) && RestoringForeign(t, w, v, foreign)
    case AmbiguousRecoveryRequired => LastElsewhere(t, w, v)
  }

  lemma LooksLast(t: Transaction, w0: World, w: World, v: World)
    requires w0.history <= w.history <= v.history && AllLeaveLive(w0, v)
    ensures forall seen :: LookedIn(w0, w, t.Live(), seen) ==> LastLook(t, w0, v, seen)
    ensures LookedElsewhere(t, w0, w) ==> LastElsewhere(t, w0, v)
  {
    forall seen | LookedIn(w0, w, t.Live(), seen)
      ensures LastLook(t, w0, v, seen)
    {
      var i :| |w0.history| <= i < |w.history| && w.history[i] == Saw(t.Live(), seen);
      assert v.history[i] == Saw(t.Live(), seen) && LeftLiveSince(v, i);
    }
  }

  lemma RestoresForeign(t: Transaction, w0: World, w: World, v: World, foreign: FileToken)
    requires w0.history <= w.history <= v.history && OnlySaw(w0, w)
    requires LookedIn(w0, w, t.Live(), Some(t.candidateToken)) && LookedIn(w0, w, t.displaced, Some(foreign))
    requires OnlySawOrGaveBack(t, w, v, foreign)
    ensures RestoringForeign(t, w0, v, foreign)
  {
    LookedLater(t, w0, w0, w, v, t.displaced, Some(foreign));
    var i :| |w0.history| <= i < |w.history| && w.history[i] == Saw(t.Live(), Some(t.candidateToken));
    assert v.history[i] == Saw(t.Live(), Some(t.candidateToken));
    forall k | |w0.history| <= k < |w.history|
      ensures v.history[k].Saw?
    {
      assert v.history[k] == w.history[k];
    }
  }

  /** How a settlement ends when nobody interferes and nothing fails. */
  function CalmSettlement(t: Transaction, n: Names, decided: Verdict, inode: Witness): PublicationSettlement {
    match decided
    case CompletePublished => Published
    case CompleteSuperseded => LiveUnchanged
    case DisplacedForeign(_) =>
      if !inode.Unchanged? then PublishedRecoveryRequired
      else if t.displaced != t.candidate && t.candidate in n then RestoredRecoveryRequired
      else LiveUnchanged
    case PreservePublished => PublishedRecoveryRequired
    case AbortUnpublished => if t.backup in n then RestoredRecoveryRequired else LiveUnchanged
    case OnlyRecordLeft => LiveUnchanged
    case AbortIntact => LiveUnchanged
    case Ambiguous => AmbiguousRecoveryRequired
  }

  /** Calm, a settlement under its record ends exactly as its verdict says, and a
      file displaced from somebody else is live again. */
  ghost predicate CalmOutcome(t: Transaction, w: World, v: World, decided: Verdict, inode: Witness, s: PublicationSettlement) {
    Calm(w) && HasRecord(t, w.names) && SameContents(t.backupToken, t.expected) ==>
      && s == CalmSettlement(t, w.names, decided, inode)
      && (decided in {CompletePublished, CompleteSuperseded} ==> BackupExact(t, w.names, v.names))
      && (decided.DisplacedForeign? && s == LiveUnchanged ==> At(v.names, t.Live()) == Some(decided.foreign))
      && (s !in {Published, LiveUnchanged} ==> v.names == w.names)
  }

  /** Calm, a complete publication is finished: the new credential stays live,
      nothing is left displaced, staged or recorded, and the copy is the backup. */
  ghost predicate FinishesPublication(t: Transaction, w: World, v: World, r: Result<PublicationSettlement>) {
    Completable(t, w.names) && At(w.names, t.Live()) == Some(t.candidateToken) ==>
      r == Success(Published) && Completes(t, w, v)
  }

  ghost predicate Completes(t: Transaction, w: World, v: World) {
    && At(v.names, t.Live()) == At(w.names, t.Live())
    && t.displaced !in v.names && t.backupStage !in v.names && t.record !in v.names && BackupExact(t, w.names, v.names)
  }

  /** Calm, a file the exchange took off the live name, neither the expected one
      nor the candidate, is handed back, and no transaction name stays occupied;
      unless the look through the earlier handle leaves doubt, or on Windows
      something took the candidate name: then nothing is touched. */
  ghost predicate HandsBackForeign(t: Transaction, w: World, v: World, inode: Witness, r: Result<PublicationSettlement>) {
    forall f: FileToken :: f != t.expected && f != t.candidateToken ==>
      && (Restorable(t, w.names, f) && inode.Unchanged? ==>
            r == Success(LiveUnchanged) && At(v.names, t.Live()) == Some(f) && Vacated(t, v.names))
      && (TookForeign(t, w.names, f) && !inode.Unchanged? ==> r == Success(PublishedRecoveryRequired) && v.names == w.names)
      && (TookForeign(t, w.names, f) && inode.Unchanged? && t.displaced != t.candidate && t.candidate in w.names ==>
            r == Success(RestoredRecoveryRequired) && v.names == w.names)
  }

  /** The candidate is live and `f` displaced, the copy still waiting. */
  ghost predicate TookForeign(t: Transaction, n: Names, f: FileToken) {
    At(n, t.Live()) == Some(t.candidateToken) && At(n, t.displaced) == Some(f) && StageWaits(t, n)
  }

  /** Calm, a live candidate beside anything else is left alone. */
  ghost predicate PreservesPublished(t: Transaction, w: World, v: World, r: Result<PublicationSettlement>) {
    && At(w.names, t.Live()) == Some(t.candidateToken)
    && !(DisplacedFine(t, w.names) && BackupReady(t, w.names))
    && !(StageWaits(t, w.names) && t.displaced in w.names && w.names[t.displaced] !in {t.expected, t.candidateToken}) ==>
      r == Success(PublishedRecoveryRequired) && v.names == w.names
  }

  /** Calm, a publication that a later writer superseded, whoever that was, or
      whose live file is gone, gets its backup, and the live name is left alone. */
  ghost predicate FinishesSuperseded(t: Transaction, w: World, v: World, r: Result<PublicationSettlement>) {
    Superseded(t, w.names) ==> r == Success(LiveUnchanged) && Completes(t, w, v)
  }

  /** The expected file was displaced, and the candidate is no longer live. */
  ghost predicate Superseded(t: Transaction, n: Names) {
    At(n, t.Live()) != Some(t.candidateToken) && At(n, t.displaced) == Some(t.expected) && BackupReady(t, n)
  }

  /** The candidate waits under its own name, its copy waits or is not there yet,
      or a later step of taking it back has been reached. */
  ghost predicate NotExchanged(t: Transaction, n: Names) {
    && At(n, t.Live()) != Some(t.candidateToken) && !Superseded(t, n)
    && (t.displaced != t.candidate ==> t.displaced !in n)
    && (|| (At(n, t.candidate) == Some(t.candidateToken) && (t.backupStage !in n || StageWaits(t, n)))
        || (t.candidate !in n && t.backupStage !in n)
        || (t.candidate !in n && StageWaits(t, n) && At(n, t.Live()) == Some(t.expected)))
    && t.backup !in n
  }

  /** Calm, a publication that was not exchanged is taken back altogether. */
  ghost predicate TakesBackUnpublished(t: Transaction, w: World, v: World, r: Result<PublicationSettlement>) {
    NotExchanged(t, w.names) ==>
      r == Success(LiveUnchanged) && At(v.names, t.Live()) == At(w.names, t.Live()) && Vacated(t, v.names)
  }

  /** Calm, anything else that is not live is left alone. */
  ghost predicate LeavesTheRest(t: Transaction, w: World, v: World, r: Result<PublicationSettlement>) {
    At(w.names, t.Live()) != Some(t.candidateToken) && !NotExchanged(t, w.names) && !Superseded(t, w.names) ==>
      r == Success(if WaitsBesideBackup(t, w.names) then RestoredRecoveryRequired else AmbiguousRecoveryRequired)
      && v.names == w.names
  }

  /** The candidate waits under its own name, but some file has the backup's,
      and it is not that the copy was promoted. */
  ghost predicate WaitsBesideBackup(t: Transaction, n: Names) {
    && At(n, t.candidate) == Some(t.candidateToken) && (t.displaced != t.candidate ==> t.displaced !in n)
    && (t.backupStage in n ==> n[t.backupStage] == t.backupToken)
    && t.backup in n && !BackupPromoted(t, n)
  }

  /** How a settlement under its record ends when nobody interferes and nothing
      fails, read off the directory it begins in. */
  ghost predicate EndsByDirectory(t: Transaction, w: World, v: World, inode: Witness, r: Result<PublicationSettlement>) {
    Calm(w) && HasRecord(t, w.names) && SameContents(t.backupToken, t.expected) ==>
      && FinishesPublication(t, w, v, r) && HandsBackForeign(t, w, v, inode, r) && PreservesPublished(t, w, v, r)
      && FinishesSuperseded(t, w, v, r) && TakesBackUnpublished(t, w, v, r) && LeavesTheRest(t, w, v, r)
  }

  lemma DirectoryDecides(t: Transaction, m: Names, w: World, v: World, decided: Verdict, inode: Witness, s: PublicationSettlement)
    requires WellFormed(w.env, t) && DispatchOutcome(t, m, w, v, decided, inode, s)
    requires !w.env.foreign ==> decided == VerdictAt(w.env, t, w.names)
    ensures EndsByDirectory(t, w, v, inode, Success(s))
  {
    if Calm(w) && HasRecord(t, w.names) && SameContents(t.backupToken, t.expected) {
      DirectoryCompletes(t, m, w, v, decided, inode, s);
      DirectoryHandsBack(t, m, w, v, decided, inode, s);
      DirectoryTakesBack(t, m, w, v, decided, inode, s);
    }
  }

  /** Calm, a settlement answers that recovery is required after a restoration,
      with the candidate still live, exactly when on Windows something took the
      candidate name while a foreign file was displaced. */
  lemma RestoredWhileLive(t: Transaction, w: World, v: World, inode: Witness, r: Result<PublicationSettlement>)
    requires Calm(w) && HasRecord(t, w.names) && SameContents(t.backupToken, t.expected)
    requires EndsByDirectory(t, w, v, inode, r)
    ensures r == Success(RestoredRecoveryRequired) && At(v.names, t.Live()) == Some(t.candidateToken)
       <==> && inode.Unchanged? && t.displaced != t.candidate && t.candidate in w.names
            && exists f: FileToken :: f != t.expected && f != t.candidateToken && TookForeign(t, w.names, f)
  {
    if t.displaced in w.names {
      var f := w.names[t.displaced];
      assert f != t.expected && f != t.candidateToken ==> (TookForeign(t, w.names, f) <==>
        At(w.names, t.Live()) == Some(t.candidateToken) && StageWaits(t, w.names));
    }
  }

  lemma DirectoryCompletes(t: Transaction, m: Names, w: World, v: World, decided: Verdict, inode: Witness, s: PublicationSettlement)
    requires WellFormed(w.env, t) && DispatchOutcome(t, m, w, v, decided, inode, s)
    requires Calm(w) && HasRecord(t, w.names) && SameContents(t.backupToken, t.expected)
    requires decided == VerdictAt(w.env, t, w.names)
    ensures FinishesPublication(t, w, v, Success(s)) && FinishesSuperseded(t, w, v, Success(s))
  {
  }

  lemma DirectoryHandsBack(t: Transaction, m: Names, w: World, v: World, decided: Verdict, inode: Witness, s: PublicationSettlement)
    requires WellFormed(w.env, t) && DispatchOutcome(t, m, w, v, decided, inode, s)
    requires Calm(w) && HasRecord(t, w.names) && SameContents(t.backupToken, t.expected)
    requires decided == VerdictAt(w.env, t, w.names)
    ensures HandsBackForeign(t, w, v, inode, Success(s)) && PreservesPublished(t, w, v, Success(s))
  {
  }

  lemma DirectoryTakesBack(t: Transaction, m: Names, w: World, v: World, decided: Verdict, inode: Witness, s: PublicationSettlement)
    requires WellFormed(w.env, t) && DispatchOutcome(t, m, w, v, decided, inode, s)
    requires Calm(w) && HasRecord(t, w.names) && SameContents(t.backupToken, t.expected)
    requires decided == VerdictAt(w.env, t, w.names)
    ensures TakesBackUnpublished(t, w, v, Success(s)) && LeavesTheRest(t, w, v, Success(s))
  {
  }

  /** Each verdict finds what its branch needs. */
  lemma VerdictFits(env: Surroundings, t: Transaction, n: Names, decided: Verdict)
    requires WellFormed(env, t) && decided == VerdictAt(env, t, n) && HasRecord(t, n) && SameContents(t.backupToken, t.expected)
    ensures decided.CompletePublished? ==> Completable(t, n) && At(n, t.Live()) == Some(t.candidateToken)
    ensures decided.CompleteSuperseded? ==> Completable(t, n)
    ensures decided.DisplacedForeign? ==>
              Restorable(t, n, decided.foreign) || (t.displaced != t.candidate && t.candidate in n)
    ensures decided in {AbortUnpublished, AbortIntact, OnlyRecordLeft} && t.backup !in n ==> Abortable(t, n)
  {
  }

  /** What a settlement comes to once the readings were classified as `decided`. */
  ghost predicate DispatchOutcome(t: Transaction, m: Names, w: World, v: World, decided: Verdict, inode: Witness,
                                  s: PublicationSettlement)
  {
    && Settled(t, w, v, true)
    && (s == Published ==>
          PublishedProperly(t, w, v) && decided.CompletePublished? && At(w.names, t.candidate) != Some(t.candidateToken))
    && Progress(t, w.names, v.names, decided) && (!decided.DisplacedForeign? ==> LiveLeft(t, w, v))
    && CleanWhenSettled(t, w, v, Some(decided), Success(s))
    && (decided in {PreservePublished, Verdict.Ambiguous} ==> OnlySaw(w, v))
    && CalmOutcome(t, w, v, decided, inode, s)
    && AnswerTells(t, w, v, inode, s)
    && NewSideOutcome(t, m, w, v, Success(s))
    && OldSideOutcome(t, m, w, v, Success(s))
  }

  /** What the readings have established when a branch is entered. */
  ghost predicate Classified(t: Transaction, m: Names, w0: World, w: World, decided: Verdict) {
    && WellFormed(w0.env, t) && Valid(w0) && Settling(t, w0, w, false) && OnlySaw(w0, w)
    && Watched(t, m, w0, w)
    && (decided.DisplacedForeign? ==>
          && decided.foreign != t.expected && decided.foreign != t.candidateToken
          && LookedIn(w0, w, t.displaced, Some(decided.foreign))
          && At(w0.names, t.displaced) == Some(decided.foreign))
    && (if decided.CompletePublished? || decided.DisplacedForeign? || decided.PreservePublished?
        then LookedIn(w0, w, t.Live(), Some(t.candidateToken)) else LookedElsewhere(t, w0, w))
    && (decided.OnlyRecordLeft? ==>
          t.candidate !in w.names && t.displaced !in w.names && t.backupStage !in w.names && t.backup !in w.names)
    && (decided.CompletePublished? ==> At(w0.names, t.candidate) != Some(t.candidateToken))
    && (!w0.env.foreign ==> decided == VerdictAt(w0.env, t, w0.names))
    && (OnNewSide(t, m, w0) ==> decided.CompletePublished?)
    && (OnOldSide(t, m, w0) && HasRecord(t, w0.names) ==> decided in {AbortUnpublished, OnlyRecordLeft, AbortIntact})
  }

  method CompleteAsClassified(disk: Disk, t: Transaction, ghost m: Names, ghost w0: World, ghost inode: Witness)
    returns (s: PublicationSettlement)
    requires Classified(t, m, w0, disk.w, CompletePublished)
    modifies disk
    ensures DispatchOutcome(t, m, w0, disk.w, CompletePublished, inode, s)
  {
    if Calm(w0) && HasRecord(t, w0.names) && SameContents(t.backupToken, t.expected) {
      VerdictFits(w0.env, t, w0.names, CompletePublished);
    }
    if OnNewSide(t, m, w0) {
      SiblingsRankAlike(t, m, w0.names, t.backup);
    }
    ghost var w1 := disk.w;
    s := CompleteNew(disk, t, m, w0);
    CompletionTells(t, w0, w1, disk.w, inode, s);
  }

  method CompleteLateAsClassified(disk: Disk, t: Transaction, ghost m: Names, ghost w0: World, ghost inode: Witness)
    returns (s: PublicationSettlement)
    requires Classified(t, m, w0, disk.w, CompleteSuperseded)
    modifies disk
    ensures DispatchOutcome(t, m, w0, disk.w, CompleteSuperseded, inode, s)
  {
    if Calm(w0) && HasRecord(t, w0.names) && SameContents(t.backupToken, t.expected) {
      VerdictFits(w0.env, t, w0.names, CompleteSuperseded);
    }
    ghost var w1 := disk.w;
    s := CompleteLate(disk, t, m, w0);
    LooksLast(t, w0, w1, disk.w);
  }

  method RestoreAsClassified(disk: Disk, t: Transaction, ghost m: Names, ghost w0: World, foreign: FileToken, ghost inode: Witness)
    returns (s: PublicationSettlement)
    requires Classified(t, m, w0, disk.w, DisplacedForeign(foreign)) && inode.Unchanged?
    modifies disk
    ensures DispatchOutcome(t, m, w0, disk.w, DisplacedForeign(foreign), inode, s)
  {
    if Calm(w0) && HasRecord(t, w0.names) && SameContents(t.backupToken, t.expected) {
      VerdictFits(w0.env, t, w0.names, DisplacedForeign(foreign));
    }
    ghost var w1 := disk.w;
    s := Restore(disk, t, m, w0, foreign);
    RestorationTells(t, w0, w1, disk.w, foreign, inode, s);
  }

  lemma CompletionTells(t: Transaction, w0: World, w: World, v: World, inode: Witness, s: PublicationSettlement)
    requires w0.history <= w.history <= v.history && AllLeaveLive(w0, v)
    requires LookedIn(w0, w, t.Live(), Some(t.candidateToken))
    requires s in {Published, PublishedRecoveryRequired} || (s == LiveUnchanged && LookedElsewhere(t, w, v))
    ensures AnswerTells(t, w0, v, inode, s)
  {
    LooksLast(t, w0, w, v);
    LookedLater(t, w0, w, v, v, t.Live(), None);
    LooksLast(t, w0, v, v);
  }

  lemma RestorationTells(t: Transaction, w0: World, w: World, v: World, foreign: FileToken, inode: Witness, s: PublicationSettlement)
    requires w0.history <= w.history <= v.history && OnlySaw(w0, w) && ForeignDisplaced(t, w0, inode, foreign)
    requires LookedIn(w0, w, t.Live(), Some(t.candidateToken)) && LookedIn(w0, w, t.displaced, Some(foreign))
    requires (s == LiveUnchanged && HandedBack(t, w, v, foreign))
             || (s == RestoredRecoveryRequired && OnlySawOrGaveBack(t, w, v, foreign))
    ensures AnswerTells(t, w0, v, inode, s)
  {
    if s == LiveUnchanged {
      HandedBackLater(t, w0, w, v, v, foreign);
    } else {
      RestoresForeign(t, w0, w, v, foreign);
    }
  }

  method TakeBack(disk: Disk, t: Transaction, ghost m: Names, ghost w0: World, decided: Verdict, ghost inode: Witness)
    returns (s: PublicationSettlement)
    requires Classified(t, m, w0, disk.w, decided)
    requires decided in {AbortUnpublished, OnlyRecordLeft, AbortIntact}
    modifies disk
    ensures DispatchOutcome(t, m, w0, disk.w, decided, inode, s)
  {
    ghost var w1 := disk.w;
    if decided.OnlyRecordLeft? {
      s := AbortRecord(disk, t, m, w0);
    } else {
      s := Abort(disk, t, m, w0);
    }
    TakenBackAsClassified(t, m, w0, w1, disk.w, decided, inode, s);
  }

  lemma TakenBackAsClassified(t: Transaction, m: Names, w0: World, w: World, v: World, decided: Verdict, inode: Witness,
                              s: PublicationSettlement)
    requires Classified(t, m, w0, w, decided) && decided in {AbortUnpublished, OnlyRecordLeft, AbortIntact}
    requires AbortOutcome(t, m, w0, w, v, s)
    ensures DispatchOutcome(t, m, w0, v, decided, inode, s)
  {
    LooksLast(t, w0, w, v);
    TakenBackCalmly(t, m, w0, w, v, decided, inode, s);
    TakenBackOnItsSide(t, m, w0, w, v, decided, s);
  }

  lemma TakenBackCalmly(t: Transaction, m: Names, w0: World, w: World, v: World, decided: Verdict, inode: Witness,
                        s: PublicationSettlement)
    requires Classified(t, m, w0, w, decided) && decided in {AbortUnpublished, OnlyRecordLeft, AbortIntact}
    requires AbortOutcome(t, m, w0, w, v, s)
    ensures CalmOutcome(t, w0, v, decided, inode, s)
  {
    if Calm(w0) && HasRecord(t, w0.names) && SameContents(t.backupToken, t.expected) {
      VerdictFits(w0.env, t, w0.names, decided);
    }
  }

  lemma TakenBackOnItsSide(t: Transaction, m: Names, w0: World, w: World, v: World, decided: Verdict, s: PublicationSettlement)
    requires Classified(t, m, w0, w, decided) && decided in {AbortUnpublished, OnlyRecordLeft, AbortIntact}
    requires AbortOutcome(t, m, w0, w, v, s)
    ensures NewSideOutcome(t, m, w0, v, Success(s)) && OldSideOutcome(t, m, w0, v, Success(s))
  {
  }

  /** settle_auth_publication once the readings are classified */
  method Dispatch(disk: Disk, t: Transaction, ghost m: Names, ghost w0: World, decided: Verdict, inode: Witness)
    returns (s: PublicationSettlement)
    requires Classified(t, m, w0, disk.w, decided)
    modifies disk
    ensures DispatchOutcome(t, m, w0, disk.w, decided, inode, s)
  {
    LooksLast(t, w0, disk.w, disk.w);
    if decided.PreservePublished? || (decided.DisplacedForeign? && !inode.Unchanged?) {
      SettlingFinishes(t, w0, disk.w);
      SettlingIsSettled(t, w0, disk.w, true);
      s := PublishedRecoveryRequired;
    } else if decided.Ambiguous? {
      SettlingFinishes(t, w0, disk.w);
      SettlingIsSettled(t, w0, disk.w, true);
      s := AmbiguousRecoveryRequired;
    } else if decided in {AbortUnpublished, OnlyRecordLeft, AbortIntact} {
      s := TakeBack(disk, t, m, w0, decided, inode);
    } else if decided.CompletePublished? {
      s := CompleteAsClassified(disk, t, m, w0, inode);
    } else if decided.CompleteSuperseded? {
      s := CompleteLateAsClassified(disk, t, m, w0, inode);
    } else {
      s := RestoreAsClassified(disk, t, m, w0, decided.foreign, inode);
    }
  }

  /** The readings of settle_auth_publication and what they are taken for. */
  method ReadAndClassify(disk: Disk, t: Transaction, ghost m: Names, ghost w0: World) returns (r: Result<Verdict>)
    requires WellFormed(w0.env, t) && Valid(w0) && disk.w == w0
    modifies disk
    ensures Settling(t, w0, disk.w, false) && OnlySaw(w0, disk.w) && Watched(t, m, w0, disk.w)
    ensures r.Success? ==> Classified(t, m, w0, disk.w, r.value)
    ensures Calm(w0) ==> r.Success?
  {
    SettlingBegins(t, w0);
    var observed := Observe(disk, t, w0);
    ReadingIsWatched(t, m, w0, w0, disk.w);
    var o :- observed;
    ReadingsClassify(t, m, w0, disk.w, o);
    return Success(Classify(disk.w.env.platform, t, o.live, o.candidate, o.displaced, o.stage, o.backup));
  }

  lemma ReadingsClassify(t: Transaction, m: Names, w0: World, w: World, o: Observation)
    requires WellFormed(w0.env, t) && Valid(w0) && Settling(t, w0, w, false) && OnlySaw(w0, w) && Watched(t, m, w0, w)
    requires o.stage == At(w.names, t.backupStage) && o.backup == At(w.names, t.backup)
    requires SawExchange(t, w0, w, o)
    ensures Classified(t, m, w0, w, Classify(w.env.platform, t, o.live, o.candidate, o.displaced, o.stage, o.backup))
  {
    LiveDecides(t, w0, w, o);
    RolesDecide(t, w0, w, o);
    SidesDecide(t, m, w0, w, Classify(w.env.platform, t, o.live, o.candidate, o.displaced, o.stage, o.backup));
  }

  lemma RolesDecide(t: Transaction, w0: World, w: World, o: Observation)
    requires WellFormed(w0.env, t) && w.env == w0.env && SawExchange(t, w0, w, o) && RolesSame(t, w0.names, w.names)
    requires o.stage == At(w.names, t.backupStage) && o.backup == At(w.names, t.backup)
    ensures
      var decided := Classify(w.env.platform, t, o.live, o.candidate, o.displaced, o.stage, o.backup);
      && (decided.DisplacedForeign? ==>
            && decided.foreign != t.expected && decided.foreign != t.candidateToken
            && LookedIn(w0, w, t.displaced, Some(decided.foreign))
            && At(w0.names, t.displaced) == Some(decided.foreign))
      && (decided.OnlyRecordLeft? ==>
            t.candidate !in w.names && t.displaced !in w.names && t.backupStage !in w.names && t.backup !in w.names)
      && (decided.CompletePublished? ==> At(w0.names, t.candidate) != Some(t.candidateToken))
  {
  }

  lemma SidesDecide(t: Transaction, m: Names, w0: World, w: World, decided: Verdict)
    requires WellFormed(w0.env, t) && (!w0.env.foreign ==> decided == VerdictAt(w0.env, t, w0.names))
    ensures OnNewSide(t, m, w0) ==> decided.CompletePublished?
    ensures OnOldSide(t, m, w0) && HasRecord(t, w0.names) ==> decided in {AbortUnpublished, OnlyRecordLeft, AbortIntact}
  {
    if OnNewSide(t, m, w0) || (OnOldSide(t, m, w0) && HasRecord(t, w0.names)) {
      SidesAreClassified(w0.env, t, m, w0.names);
    }
  }

  /** Whether the candidate was seen live splits the verdicts in two. */
  lemma LiveDecides(t: Transaction, w0: World, w: World, o: Observation)
    requires SawExchange(t, w0, w, o)
    ensures
      var decided := Classify(w.env.platform, t, o.live, o.candidate, o.displaced, o.stage, o.backup);
      if decided.CompletePublished? || decided.DisplacedForeign? || decided.PreservePublished?
      then LookedIn(w0, w, t.Live(), Some(t.candidateToken)) else LookedElsewhere(t, w0, w)
  {
  }

  /** settle_auth_publication. `verdict` is what the readings were taken for. */
  method SettleAuthPublication(disk: Disk, t: Transaction, ghost m: Names, inode: Witness)
    returns (r: Result<PublicationSettlement>, ghost verdict: Option<Verdict>)
    requires WellFormed(disk.w.env, t) && Valid(disk.w)
    modifies disk
    ensures Settled(t, old(disk.w), disk.w, true)
    ensures r.Success? <==> verdict.Some?
    ensures r.Success? ==> DispatchOutcome(t, m, old(disk.w), disk.w, verdict.value, inode, r.value)
    ensures r.Success? && !disk.w.env.foreign ==> verdict.value == VerdictAt(disk.w.env, t, old(disk.w).names)
    ensures r.Failure? ==>
              && OnlySaw(old(disk.w), disk.w) && Accounted(old(disk.w), disk.w, t.Live())
              && Watched(t, m, old(disk.w), disk.w)
    ensures Calm(old(disk.w)) ==> r.Success?
    ensures EndsByDirectory(t, old(disk.w), disk.w, inode, r)
    ensures CleanWhenSettled(t, old(disk.w), disk.w, verdict, r)
    ensures NewSideOutcome(t, m, old(disk.w), disk.w, r)
    ensures OldSideOutcome(t, m, old(disk.w), disk.w, r)
  {
    ghost var w0 := disk.w;
    var decided := ReadAndClassify(disk, t, m, w0);
    if decided.Failure? {
      SettlingFinishes(t, w0, disk.w);
      SettlingIsSettled(t, w0, disk.w, true);
      return Failure(decided.error), None;
    }
    var s := Dispatch(disk, t, m, w0, decided.value, inode);
    DirectoryDecides(t, m, w0, disk.w, decided.value, inode, s);
    return Success(s), Some(decided.value);
  }
}
