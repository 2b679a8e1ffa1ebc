/** atomic_write_private_if_unchanged (src/auth.rs): the conditional
    publication of a new credential, as a compare-and-swap on the live name. */
module Publication {
  import opened Namespace
  import opened BackupNames
  import opened BoundPath
  import opened Retention
  import opened Transactions
  import opened Phases
  import opened Settlement
  import opened Records
  import opened Recovery
  import opened Staging

  datatype ConditionalWrite =
    | Written
    | Changed
    | PublishedRecoveryRequired
    | RestoredRecoveryRequired
    | AmbiguousRecoveryRequired

  datatype RecordPublication = Durable(token: FileToken) | VisibleNotDurable(token: FileToken)

  /** Every file a foreign writer is owed is the live one. */
  ghost predicate OwedLive(stem: string, w: World) {
    forall f :: f in w.owed ==> At(w.names, Named(stem)) == Some(f)
  }

  /** Candidate and backup copy wait under their transaction names. */
  predicate Waiting(t: Transaction, n: Names) {
    && At(n, t.candidate) == Some(t.candidateToken) && StageWaits(t, n)
    && (t.displaced != t.candidate ==> t.displaced !in n)
  }

  /** What holds from the moment the names are taken until the exchange. */
  ghost predicate Pending(t: Transaction, m: Names, w0: World, w: World) {
    && WellFormed(w.env, t) && Valid(w) && Onward(w0, w)
    && (OwedLive(t.stem, w0) ==> OwedLive(t.stem, w))
    && (OnOldSide(t, m, w0) ==> OnOldSide(t, m, w))
  }

  // ----- the record --------------------------------------------------------

  /** A name that plays no part in the transaction. */
  predicate Unrelated(t: Transaction, p: Path) {
    !t.OwnPath(p) && p != t.Live() && p != t.backup && KeyOf(t.stem, p).None?
  }

  lemma OldSideElsewhere(t: Transaction, m: Names, n: Names, s: Names, p: Path)
    requires OldSide(t, m, n) && Unrelated(t, p)
    requires forall x :: x != p && x.Named? ==> At(s, x) == At(n, x)
    requires t.candidate.Named? && t.displaced.Named? && t.backupStage.Named? && t.backup.Named? && t.record.Named?
    ensures OldSide(t, m, s)
  {
  }

  /** A reading, a sync, or an act of others. */
  lemma PendingSteady(t: Transaction, m: Names, w0: World, w: World, v: World)
    requires Pending(t, m, w0, w) && Valid(v) && Onward(w, v)
    requires Elsewhere(w.names, v.names, {t.Live()}) && Accounted(w, v, t.Live())
    requires !w.env.foreign ==> v.names == w.names && (v.survivors == w.survivors || v.survivors == {v.names})
    ensures Pending(t, m, w0, v)
  {
  }

  /** Dropping one of our own files, whatever its name is now. */
  lemma PendingDrops(t: Transaction, m: Names, w0: World, w: World, v: World, path: Path, token: FileToken, dropped: bool)
    requires Pending(t, m, w0, w) && DropEffect(w, v, path, token, dropped)
    requires path in {t.candidate, t.backupStage} || Unrelated(t, path)
    ensures Pending(t, m, w0, v)
  {
    if OnOldSide(t, m, w0) {
      if Unrelated(t, path) {
        OldSideElsewhere(t, m, w.names, v.names, path);
        forall s | s in v.survivors && w.env.platform.Unix?
          ensures OldSide(t, m, s)
        {
          var s0 :| s0 in w.survivors && MayLack(s0, s, path, w.draws);
          OldSideElsewhere(t, m, s0, s, path);
        }
      } else {
        OldSideStays(t, m, w, v, path, token, dropped);
      }
    }
  }

  /** The rename that makes the record visible. */
  lemma PendingRecords(t: Transaction, m: Names, w0: World, w: World, v: World, source: Path, moved: Option<File>)
    requires Pending(t, m, w0, w) && RenameEffect(w, v, source, t.record, moved) && Valid(v)
    requires source.Staged? && At(w.names, source) == Some(t.recordToken) && Synced(w)
    ensures Pending(t, m, w0, v)
  {
    if moved.None? {
      PendingSteady(t, m, w0, w, v);
    } else if OnOldSide(t, m, w0) {
      RecordingKeepsOldSide(t, m, w, v, source);
    }
  }

  lemma RecordingKeepsOldSide(t: Transaction, m: Names, w: World, v: World, source: Path)
    requires WellFormed(w.env, t) && OnOldSide(t, m, w) && Synced(w) && v.env == w.env
    requires source.Staged? && At(w.names, source) == Some(t.recordToken)
    requires v.names == Apply(w.names, Rename(source, t.record))
    requires v.survivors == {v.names} || v.survivors == Surviving(w.survivors, Rename(source, t.record))
    ensures OnOldSide(t, m, v)
  {
  }

  /** Drop for ExactPrivateFile once names are taken. */
  method DropOwned(disk: Disk, ghost t: Transaction, ghost m: Names, ghost w0: World, f: ExactPrivateFile)
    requires Pending(t, m, w0, disk.w) && Drawn(f.path, disk.w.draws)
    requires f.path in {t.candidate, t.backupStage} || Unrelated(t, f.path)
    modifies disk
    ensures Pending(t, m, w0, disk.w)
    ensures forall p :: p != f.path && p != t.Live() && Drawn(p, old(disk.w).draws) ==> At(disk.w.names, p) == At(old(disk.w).names, p)
    ensures Onward(old(disk.w), disk.w)
    ensures !f.cleanupOnDrop ==> disk.w == old(disk.w)
    ensures f.cleanupOnDrop && Working(old(disk.w)) && At(old(disk.w).names, f.path) == Some(f.token) ==>
              f.path !in disk.w.names
  {
    if f.cleanupOnDrop {
      ghost var w1 := disk.w;
      var removed := RemoveBoundPath(disk, f.path, f.token);
      PendingDrops(t, m, w0, w1, disk.w, f.path, f.token, removed.Success?);
    }
  }

  /** token_if_present while pending */
  method ReadPending(disk: Disk, ghost t: Transaction, ghost m: Names, ghost w0: World, p: Path) returns (r: Result<Option<FileToken>>)
    requires Pending(t, m, w0, disk.w)
    modifies disk
    ensures Pending(t, m, w0, disk.w) && Between(old(disk.w), disk.w)
    ensures r.Success? ==> r.value == At(disk.w.names, p)
    ensures !disk.w.env.faults && !old(disk.w).stopped ==> r.Success?
  {
    ghost var w1 := disk.w;
    r := disk.TokenIfPresent(p);
    PendingSteady(t, m, w0, w1, disk.w);
  }

  method ReadBothPending(disk: Disk, ghost t: Transaction, ghost m: Names, ghost w0: World, a: Path, b: Path)
    returns (r: Result<(Option<FileToken>, Option<FileToken>)>)
    requires Pending(t, m, w0, disk.w) && a != t.Live() && b != t.Live()
    modifies disk
    ensures Pending(t, m, w0, disk.w) && Between(old(disk.w), disk.w)
    ensures r.Success? ==> r.value == (At(disk.w.names, a), At(disk.w.names, b))
    ensures !disk.w.env.faults && !old(disk.w).stopped ==> r.Success?
  {
    ghost var w1 := disk.w;
    var atA :- ReadPending(disk, t, m, w0, a);
    ghost var w2 := disk.w;
    var atB := ReadPending(disk, t, m, w0, b);
    BetweenAgain(w1, w2, disk.w);
    BetweenKeeps(t.stem, w2, disk.w, a);
    if atB.Failure? {
      return Failure(atB.error);
    }
    return Success((atA, atB.value));
  }

  /** confirm_namespace_boundary while pending */
  method ConfirmPending(disk: Disk, ghost t: Transaction, ghost m: Names, ghost w0: World, boundary: Result<()>) returns (r: Result<()>)
    requires Pending(t, m, w0, disk.w)
    modifies disk
    ensures Pending(t, m, w0, disk.w) && Onward(old(disk.w), disk.w)
    ensures Elsewhere(old(disk.w).names, disk.w.names, {t.Live()})
    ensures r.Success? ==> Synced(disk.w)
    ensures disk.w.env.platform.Windows? ==> r == boundary
    ensures !disk.w.env.faults && !old(disk.w).stopped && boundary.Success? ==> r.Success?
  {
    if disk.w.env.platform.Windows? {
      return boundary;
    }
    ghost var w1 := disk.w;
    r := disk.SyncParent();
    PendingSteady(t, m, w0, w1, disk.w);
  }

  /** publish_record_exclusive, up to the drop of the staged file. */
  method MoveRecord(disk: Disk, ghost t: Transaction, ghost m: Names, ghost w0: World, record: Path, staged: ExactPrivateFile)
    returns (r: Result<RecordPublication>)
    requires Pending(t, m, w0, disk.w) && record == t.record && staged.token == t.recordToken
    requires staged.path.Staged? && Drawn(staged.path, disk.w.draws) && At(disk.w.names, staged.path) == Some(t.recordToken)
    requires Synced(disk.w)
    modifies disk, staged`cleanupOnDrop
    ensures Pending(t, m, w0, disk.w) && Onward(old(disk.w), disk.w)
    ensures Elsewhere(old(disk.w).names, disk.w.names, {t.record, staged.path, t.Live()})
    ensures r.Success? ==> r.value.token == t.recordToken && HasRecord(t, disk.w.names) && !staged.cleanupOnDrop
    ensures r.Success? && r.value.Durable? ==> Synced(disk.w)
    ensures r.Failure? && staged.cleanupOnDrop != old(staged.cleanupOnDrop) ==>
              At(disk.w.names, staged.path) != Some(staged.token)
    ensures r.Failure? && Working(old(disk.w)) ==> At(disk.w.names, staged.path) == Some(staged.token)
    ensures (!disk.w.env.faults && !disk.w.env.foreign && !old(disk.w).stopped && t.record !in old(disk.w).names)
            ==> r.Success? && r.value.Durable?
  {
    var boundary, after := RenameRecord(disk, t, m, w0, record, staged);
    if after.Failure? {
      return Failure(after.error);
    }
    var (sourceAfter, destinationAfter) := after.value;
    if destinationAfter == Some(staged.token) && sourceAfter.None? {
      staged.Disarm();
      var confirmed := ConfirmPending(disk, t, m, w0, boundary);
      return Success(if confirmed.Success? then Durable(staged.token) else VisibleNotDurable(staged.token));
    }
    staged.cleanupOnDrop := staged.cleanupOnDrop && sourceAfter == Some(staged.token);
    return Failure(if boundary.Failure? then boundary.error else Refused);
  }

  /** The rename that claims the record, and the two readings after it. */
  method RenameRecord(disk: Disk, ghost t: Transaction, ghost m: Names, ghost w0: World, record: Path, staged: ExactPrivateFile)
    returns (boundary: Result<()>, after: Result<(Option<FileToken>, Option<FileToken>)>)
    requires Pending(t, m, w0, disk.w) && record == t.record && staged.token == t.recordToken
    requires staged.path.Staged? && Drawn(staged.path, disk.w.draws) && At(disk.w.names, staged.path) == Some(t.recordToken)
    requires Synced(disk.w)
    modifies disk
    ensures Pending(t, m, w0, disk.w) && Onward(old(disk.w), disk.w)
    ensures Elsewhere(old(disk.w).names, disk.w.names, {t.record, staged.path, t.Live()})
    ensures after.Success? ==> after.value == (At(disk.w.names, staged.path), At(disk.w.names, record))
    ensures Working(old(disk.w)) ==> after.Success?
    ensures staged.path in disk.w.names ==> At(disk.w.names, staged.path) == Some(staged.token)
    ensures staged.path !in disk.w.names ==> At(disk.w.names, record) == Some(staged.token)
    ensures (!disk.w.env.faults && !disk.w.env.foreign && !old(disk.w).stopped && t.record !in old(disk.w).names)
            ==> boundary.Success? && after == Success((None, Some(staged.token))) && !disk.w.stopped
  {
    ghost var w1 := disk.w;
    ghost var moved;
    boundary, moved := disk.RenameNoReplace(staged.path, record);
    PendingRecords(t, m, w0, w1, disk.w, staged.path, moved);
    after := ReadBothPending(disk, t, m, w0, staged.path, record);
  }

  /** publish_record_exclusive */
  method PublishRecordExclusive(disk: Disk, ghost t: Transaction, ghost m: Names, ghost w0: World, record: Path, staged: ExactPrivateFile)
    returns (r: Result<RecordPublication>)
    requires Pending(t, m, w0, disk.w) && record == t.record && staged.token == t.recordToken
    requires staged.path.Staged? && Drawn(staged.path, disk.w.draws) && At(disk.w.names, staged.path) == Some(t.recordToken)
    requires Synced(disk.w) && Waiting(t, disk.w.names)
    modifies disk, staged`cleanupOnDrop
    ensures Pending(t, m, w0, disk.w) && Onward(old(disk.w), disk.w)
    ensures r.Success? ==> r.value.token == t.recordToken && HasRecord(t, disk.w.names) && Waiting(t, disk.w.names)
    ensures r.Success? && r.value.Durable? ==> Synced(disk.w)
    ensures r.Failure? && Working(old(disk.w)) && old(staged.cleanupOnDrop) ==> staged.path !in disk.w.names
    ensures (!disk.w.env.faults && !disk.w.env.foreign && !old(disk.w).stopped && t.record !in old(disk.w).names)
            ==> r.Success? && r.value.Durable?
  {
    ghost var w1 := disk.w;
    r := MoveRecord(disk, t, m, w0, record, staged);
    assert At(disk.w.names, t.candidate) == At(w1.names, t.candidate) && At(disk.w.names, t.displaced) == At(w1.names, t.displaced);
    assert At(disk.w.names, t.backupStage) == At(w1.names, t.backupStage) && At(disk.w.names, t.backup) == At(w1.names, t.backup);
    if r.Failure? {
      DropOwned(disk, t, m, w0, staged);
    }
  }

  // ----- the exchange ------------------------------------------------------

  /** What a ReplaceFileW that only displaced its target leaves: no live file. */
  ghost predicate LiveMissing(t: Transaction, m: Names, n: Names) {
    && t.Live() !in n && t.displaced != t.candidate && At(n, t.displaced) == Some(t.expected)
    && At(n, t.candidate) == Some(t.candidateToken) && StageWaits(t, n) && HasRecord(t, n) && SameSiblings(t, m, n)
  }

  /** Where an undisturbed exchange may leave the directory. */
  ghost predicate ExchangeOutcome(t: Transaction, m: Names, w: World, v: World, removed: Option<File>) {
    OnOldSide(t, m, w) && HasRecord(t, w.names) && Synced(w) ==>
      && HasRecord(t, v.names)
      && (removed.Some? ==> removed == Some(t.expected) && OnNewSide(t, m, v))
      && (removed.None? ==> OnOldSide(t, m, v) || (LiveMissing(t, m, v.names) && v.env.platform.Windows? && v.env.faults))
  }

  lemma ReplacePublishes(env: Surroundings, t: Transaction, m: Names, n: Names)
    requires OldSide(t, m, n) && HasRecord(t, n) && Waiting(t, n) && t.expected != t.candidateToken
    requires WellFormed(env, t) && env.platform.Windows? && KeyOf(t.stem, t.Live()).None?
    ensures NewSide(t, m, Apply(n, Replace(t.candidate, t.Live(), t.displaced)))
    ensures LiveMissing(t, m, Apply(n, Displace(t.Live(), t.displaced)))
  {
  }

  /** The exchange moved the candidate to the live name and `removed` off it. */
  ghost predicate Exchanged(t: Transaction, w: World, v: World, removed: File) {
    && At(v.names, t.displaced) == Some(removed) && StageWaits(t, v.names)
    && (t.displaced != t.candidate ==> t.candidate !in v.names)
    && v.history == w.history + [if t.displaced == t.candidate
                                 then Swapped(t.candidate, t.Live(), t.candidateToken, removed)
                                 else Replaced(t.candidate, t.Live(), t.displaced, t.candidateToken, removed)]
  }

  /** The step exchanges the candidate with the live file, or on Windows may only
      have displaced that. */
  predicate ExchangeStep(t: Transaction, e: Event) {
    match e
    case Swapped(a, b, placed, _) => a == t.candidate && b == t.Live() && placed == t.candidateToken
    case Replaced(a, b, c, placed, _) => a == t.candidate && b == t.Live() && c == t.displaced && placed == t.candidateToken
    case OnlyDisplaced(a, b, _) => a == t.Live() && b == t.displaced && t.displaced != t.candidate
    case _ => false
  }

  /** Any exchange of the candidate comes right after a look that found the
      expected file live. */
  ghost predicate ExchangedAfterLook(t: Transaction, w: World, v: World) {
    forall i :: |w.history| <= i < |v.history| && ExchangeStep(t, v.history[i]) ==>
      |w.history| < i && v.history[i - 1] == Saw(t.Live(), Some(t.expected))
  }

  ghost predicate NoExchange(t: Transaction, w: World, v: World) {
    w.history <= v.history && forall i :: |w.history| <= i < |v.history| ==> !ExchangeStep(t, v.history[i])
  }

  lemma NoExchangeAgain(t: Transaction, w: World, v: World, u: World)
    requires NoExchange(t, w, v) && NoExchange(t, v, u)
    ensures NoExchange(t, w, u)
  {
    forall i | |w.history| <= i < |u.history|
      ensures !ExchangeStep(t, u.history[i])
    {
      assert i < |v.history| ==> u.history[i] == v.history[i];
    }
  }

  lemma OneExchangeAfterLook(t: Transaction, w: World, w1: World, v: World)
    requires NoExchange(t, w, w1) && JustSawExpected(t, w, w1) && w1.history <= v.history
    requires forall i :: |w1.history| < i < |v.history| ==> !ExchangeStep(t, v.history[i])
    ensures ExchangedAfterLook(t, w, v)
  {
    assert forall i :: |w.history| <= i < |w1.history| ==> v.history[i] == w1.history[i];
  }

  /** The look at the live name just now found the expected file. */
  ghost predicate JustSawExpected(t: Transaction, w: World, v: World) {
    && w.history <= v.history && |w.history| < |v.history|
    && v.history[|v.history| - 1] == Saw(t.Live(), Some(t.expected))
  }

  lemma SettlingExchangesNothing(t: Transaction, w: World, v: World)
    requires Settled(t, w, v, true)
    ensures NoExchange(t, w, v)
  {
  }

  /** exchange_candidate_with_live. `removed` is the file it took off the live name. */
  method ExchangeCandidateWithLive(disk: Disk, t: Transaction, ghost m: Names)
    returns (boundary: Result<()>, ghost removed: Option<File>)
    requires WellFormed(disk.w.env, t) && Valid(disk.w) && Waiting(t, disk.w.names)
    modifies disk
    ensures Valid(disk.w) && Onward(old(disk.w), disk.w)
    ensures removed.None? ==> boundary.Failure? && At(disk.w.names, t.candidate) == Some(t.candidateToken)
    ensures removed.None? && disk.w.env.platform.Unix? ==> disk.w.history == old(disk.w).history
    ensures removed.Some? ==> Exchanged(t, old(disk.w), disk.w, removed.value)
    ensures |disk.w.history| <= |old(disk.w).history| + 1
    ensures OwedLive(t.stem, old(disk.w)) ==> OwedSafe(t, disk.w)
    ensures ExchangeOutcome(t, m, old(disk.w), disk.w, removed)
    ensures OnOldSide(t, m, old(disk.w)) && Calm(old(disk.w)) ==> boundary.Success? && removed.Some? && Calm(disk.w)
  {
    if disk.w.env.platform.Unix? {
      boundary, removed := SwapCandidate(disk, t, m);
    } else {
      boundary, removed := ReplaceWithCandidate(disk, t, m);
    }
  }

  method SwapCandidate(disk: Disk, t: Transaction, ghost m: Names) returns (boundary: Result<()>, ghost removed: Option<File>)
    requires WellFormed(disk.w.env, t) && Valid(disk.w) && Waiting(t, disk.w.names) && disk.w.env.platform.Unix?
    modifies disk
    ensures Valid(disk.w) && Onward(old(disk.w), disk.w)
    ensures removed.None? ==> boundary.Failure? && At(disk.w.names, t.candidate) == Some(t.candidateToken)
    ensures removed.None? ==> disk.w.history == old(disk.w).history
    ensures removed.Some? ==> Exchanged(t, old(disk.w), disk.w, removed.value)
    ensures |disk.w.history| <= |old(disk.w).history| + 1
    ensures OwedLive(t.stem, old(disk.w)) ==> OwedSafe(t, disk.w)
    ensures ExchangeOutcome(t, m, old(disk.w), disk.w, removed)
    ensures OnOldSide(t, m, old(disk.w)) && Calm(old(disk.w)) ==> boundary.Success? && removed.Some? && Calm(disk.w)
  {
    ghost var w1 := disk.w;
    ghost var swapped;
    boundary, swapped := disk.Exchange(t.candidate, t.Live());
    removed := if swapped.Some? then Some(swapped.value.1) else None;
    assert At(disk.w.names, t.backupStage) == At(w1.names, t.backupStage) && At(disk.w.names, t.backup) == At(w1.names, t.backup);
    assert swapped.None? ==> At(disk.w.names, t.candidate) == At(w1.names, t.candidate);
    if OnOldSide(t, m, w1) && HasRecord(t, w1.names) && Synced(w1) {
      SwapKeepsSound(t, m, w1, disk.w, swapped);
    }
  }

  lemma SwapKeepsSound(t: Transaction, m: Names, w: World, v: World, swapped: Option<(File, File)>)
    requires WellFormed(w.env, t) && w.env.platform.Unix? && Valid(w) && Waiting(t, w.names)
    requires OnOldSide(t, m, w) && HasRecord(t, w.names) && Synced(w)
    requires ExchangeEffect(w, v, t.candidate, t.Live(), swapped)
    ensures HasRecord(t, v.names)
    ensures swapped.Some? ==> swapped.value.1 == t.expected && OnNewSide(t, m, v)
    ensures swapped.None? ==> OnOldSide(t, m, v)
  {
  }

  method ReplaceWithCandidate(disk: Disk, t: Transaction, ghost m: Names) returns (boundary: Result<()>, ghost removed: Option<File>)
    requires WellFormed(disk.w.env, t) && Valid(disk.w) && Waiting(t, disk.w.names) && disk.w.env.platform.Windows?
    modifies disk
    ensures Valid(disk.w) && Onward(old(disk.w), disk.w)
    ensures removed.None? ==> boundary.Failure? && At(disk.w.names, t.candidate) == Some(t.candidateToken)
    ensures removed.Some? ==> Exchanged(t, old(disk.w), disk.w, removed.value)
    ensures |disk.w.history| <= |old(disk.w).history| + 1
    ensures OwedLive(t.stem, old(disk.w)) ==> OwedSafe(t, disk.w)
    ensures ExchangeOutcome(t, m, old(disk.w), disk.w, removed)
    ensures OnOldSide(t, m, old(disk.w)) && Calm(old(disk.w)) ==> boundary.Success? && removed.Some? && Calm(disk.w)
  {
    ghost var w1 := disk.w;
    ghost var o, lost;
    boundary, o, lost := disk.ReplaceWithDisplaced(t.candidate, t.Live(), t.displaced);
    removed := if o.FullyReplaced? then Some(o.removed) else None;
    assert At(disk.w.names, t.backupStage) == At(w1.names, t.backupStage) && At(disk.w.names, t.backup) == At(w1.names, t.backup);
    assert o.Untouched? ==> At(disk.w.names, t.candidate) == At(w1.names, t.candidate);
    if OnOldSide(t, m, w1) && HasRecord(t, w1.names) && Synced(w1) {
      ReplaceKeepsSound(t, m, w1, disk.w, o);
    }
  }

  lemma ReplaceKeepsSound(t: Transaction, m: Names, w: World, v: World, o: ReplaceOutcome)
    requires WellFormed(w.env, t) && w.env.platform.Windows? && Valid(w) && Waiting(t, w.names)
    requires OnOldSide(t, m, w) && HasRecord(t, w.names)
    requires ReplaceEffect(w, v, t.candidate, t.Live(), t.displaced, o) && (!w.env.faults ==> !o.TargetDisplaced?)
    ensures HasRecord(t, v.names)
    ensures o.FullyReplaced? ==> o.removed == t.expected && OnNewSide(t, m, v)
    ensures o.Untouched? ==> OnOldSide(t, m, v)
    ensures o.TargetDisplaced? ==> LiveMissing(t, m, v.names) && v.env.faults
  {
    StemIsUnmanaged(t.stem);
    ReplacePublishes(w.env, t, m, w.names);
    if o.Untouched? {
      SideSteady(t, m, w, v);
    }
  }

  // ----- the outcome -------------------------------------------------------

  /** conditional_write_from_settlement */
  function ConditionalWriteFromSettlement(s: PublicationSettlement, boundary: Option<Result<()>>): (r: Result<ConditionalWrite>)
    ensures r == Success(Written) <==> s == Published
    ensures r == Success(ConditionalWrite.Changed) <==> s == LiveUnchanged && (boundary.Some? ==> boundary.value.Success?)
    ensures r.Failure? <==> s == LiveUnchanged && boundary.Some? && boundary.value.Failure?
    ensures r == Success(ConditionalWrite.PublishedRecoveryRequired) <==> s == PublicationSettlement.PublishedRecoveryRequired
    ensures r == Success(ConditionalWrite.RestoredRecoveryRequired) <==> s == PublicationSettlement.RestoredRecoveryRequired
    ensures r == Success(ConditionalWrite.AmbiguousRecoveryRequired) <==> s == PublicationSettlement.AmbiguousRecoveryRequired
  {
    match s
    case Published => Success(Written)
    case LiveUnchanged =>
      if boundary.Some? && boundary.value.Failure? then Failure(boundary.value.error) else Success(ConditionalWrite.Changed)
    case PublishedRecoveryRequired => Success(ConditionalWrite.PublishedRecoveryRequired)
    case RestoredRecoveryRequired => Success(ConditionalWrite.RestoredRecoveryRequired)
    case AmbiguousRecoveryRequired => Success(ConditionalWrite.AmbiguousRecoveryRequired)
  }

  /** No file of a foreign writer is lost: it is live, or it lies under the
      displaced or candidate name and the result asks for recovery. A plain
      failure leaves none displaced. */
  ghost predicate OwedOutcome(t: Transaction, w: World, r: Result<ConditionalWrite>) {
    && OwedSafe(t, w)
    && (r.Failure? || r in {Success(Written), Success(ConditionalWrite.Changed)} ==>
          forall f :: f in w.owed ==> f in t.Tokens() || At(w.names, t.Live()) == Some(f))
  }

  lemma SettledOwed(t: Transaction, w1: World, w: World, verdict: Option<Verdict>, settled: Result<PublicationSettlement>,
                    r: Result<ConditionalWrite>)
    requires Settled(t, w1, w, true) && OwedSafe(t, w1) && CleanWhenSettled(t, w1, w, verdict, settled)
    requires r.Failure? || r in {Success(Written), Success(ConditionalWrite.Changed)} ==>
               settled in {Success(Published), Success(LiveUnchanged)}
    requires t.candidate == t.displaced || t.candidate !in w1.names || At(w1.names, t.candidate) == Some(t.candidateToken)
    ensures OwedOutcome(t, w, r)
  {
  }

  /** What the answer of a write tells of the candidate. After the last look at
      the live name, no step of ours moved a file onto it or off it. Published:
      the candidate was live then. Changed: it was not, or a foreign file had been
      given the name back. Restored: it was not, or it still waits under its own
      name, or a foreign file was to get the live name back from it, which was
      refused, failed, or took place. A file is foreign here only if it is not the
      expected one, even rewritten. */
  ghost predicate AnswersTruly(t: Transaction, w: World, v: World, r: Result<ConditionalWrite>) {
    && (r == Success(ConditionalWrite.PublishedRecoveryRequired) ==> LastLook(t, w, v, Some(t.candidateToken)))
    && (r == Success(ConditionalWrite.Changed) ==>
          LastElsewhere(t, w, v)
          || exists foreign: FileToken :: foreign.identity != t.expected.identity && HandedBack(t, w, v, foreign))
    && (r == Success(ConditionalWrite.RestoredRecoveryRequired) ==>
          Waiting(t, v.names) || LastElsewhere(t, w, v)
          || exists foreign: FileToken :: foreign.identity != t.expected.identity && RestoringForeign(t, w, v, foreign))
  }

  lemma AnswersSince(t: Transaction, w0: World, w1: World, v: World, r: Result<ConditionalWrite>)
    requires w0.history <= w1.history && AnswersTruly(t, w1, v, r)
    ensures AnswersTruly(t, w0, v, r)
  {
    assert forall seen :: LastLook(t, w1, v, seen) ==> LastLook(t, w0, v, seen);
    assert forall foreign :: HandedBack(t, w1, v, foreign) ==> HandedBack(t, w0, v, foreign);
    forall foreign | RestoringForeign(t, w1, v, foreign)
      ensures RestoringForeign(t, w0, v, foreign)
    {
      RestoringSince(t, w0, w1, v, foreign);
    }
  }

  lemma RestoringSince(t: Transaction, w0: World, w1: World, v: World, foreign: FileToken)
    requires w0.history <= w1.history && RestoringForeign(t, w1, v, foreign)
    ensures RestoringForeign(t, w0, v, foreign)
  {
    assert LookedIn(w0, v, t.displaced, Some(foreign));
  }

  /** If the look through the handle found the expected file unchanged, the
      displaced name does not hold it rewritten. */
  predicate WitnessTrue(t: Transaction, n: Names, inode: Witness) {
    inode.Unchanged? && t.displaced in n && n[t.displaced].identity == t.expected.identity ==>
      n[t.displaced] == t.expected
  }

  lemma SettlementAnswers(t: Transaction, w: World, v: World, inode: Witness, s: PublicationSettlement, boundary: Option<Result<()>>)
    requires AnswerTells(t, w, v, inode, s) && WitnessTrue(t, w.names, inode)
    ensures AnswersTruly(t, w, v, ConditionalWriteFromSettlement(s, boundary))
  {
    assert forall foreign :: ForeignDisplaced(t, w, inode, foreign) ==> foreign.identity != t.expected.identity;
  }

  /** Settling a publication whose exchange was not attempted. */
  method SettleUnpublished(disk: Disk, t: Transaction, ghost m: Names, ghost w0: World) returns (r: Result<ConditionalWrite>)
    requires Pending(t, m, w0, disk.w) && Waiting(t, disk.w.names) && HasRecord(t, disk.w.names)
    modifies disk
    ensures Valid(disk.w) && Onward(w0, disk.w) && r != Success(Written)
    ensures AnswersTruly(t, w0, disk.w, r) && NoExchange(t, old(disk.w), disk.w)
    ensures OwedLive(t.stem, w0) ==> OwedOutcome(t, disk.w, r)
    ensures OnOldSide(t, m, w0) ==> OnOldSide(t, m, disk.w)
  {
    ghost var w1 := disk.w;
    var settled;
    ghost var verdict;
    settled, verdict := SettleAuthPublication(disk, t, m, Unavailable);
    r := if settled.Failure? then Failure(settled.error) else ConditionalWriteFromSettlement(settled.value, None);
    SettlingExchangesNothing(t, w1, disk.w);
    if settled.Success? {
      SettlementAnswers(t, w1, disk.w, Unavailable, settled.value, None);
      AnswersSince(t, w0, w1, disk.w, r);
    }
    if OwedLive(t.stem, w0) && settled.Success? {
      SettledOwed(t, w1, disk.w, verdict, settled, r);
    }
  }

  /** Event `i` took exactly the expected file off the live name in exchange for
      the candidate: the file was the expected one then, or became it by a last
      write through a handle opened earlier, before it was looked at. */
  ghost predicate DisplacedExpected(t: Transaction, h: seq<Event>, i: nat) {
    i < |h| &&
    match h[i]
    case Swapped(a, b, placed, removed) =>
      a == t.candidate && b == t.Live() && placed == t.candidateToken && WasExpected(t, h, i, removed)
    case Replaced(a, b, c, placed, removed) =>
      a == t.candidate && b == t.Live() && c == t.displaced && placed == t.candidateToken && WasExpected(t, h, i, removed)
    case _ => false
  }

  ghost predicate WasExpected(t: Transaction, h: seq<Event>, i: nat, removed: File) {
    && removed.identity == t.expected.identity
    && (removed == t.expected || (i + 1 < |h| && h[i + 1] == WrittenThroughHandle(removed, t.expected)))
  }

  /** A true compare-and-swap: the expected file was displaced by the candidate,
      which was afterwards seen live, and a separate file with the expected
      contents was moved to the backup name. */
  ghost predicate TrueSwap(t: Transaction, w: World, v: World) {
    && SameContents(t.backupToken, t.expected)
    && exists i: nat, j: nat, k: nat ::
         && |w.history| < i < j < |v.history| && i < k < |v.history|
         && v.history[i - 1] == Saw(t.Live(), Some(t.expected)) && DisplacedExpected(t, v.history, i)
         && v.history[j] == Saw(t.Live(), Some(t.candidateToken))
         && v.history[k] == Renamed(t.backupStage, t.backup, t.backupToken)
  }

  lemma SwapWasTrue(t: Transaction, w0: World, w1: World, w2: World, w3: World, v: World, removed: File)
    requires JustSawExpected(t, w0, w1) && Exchanged(t, w1, w2, removed)
    requires t.displaced in w3.names && w3.names[t.displaced].identity == removed.identity
    requires w3.history == w2.history + (if w3.names[t.displaced] == removed then []
                                         else [WrittenThroughHandle(removed, w3.names[t.displaced])])
    requires StageWaits(t, w3.names) && PublishedProperly(t, w3, v) && Onward(w3, v)
    ensures TrueSwap(t, w0, v)
  {
    var i := |w1.history|;
    assert w3.history[i] == w2.history[i] == v.history[i];
    assert v.history[i - 1] == w2.history[i - 1] == w1.history[i - 1];
    if |w3.history| > |w2.history| {
      assert w3.history[i + 1] == v.history[i + 1];
    }
    assert DisplacedExpected(t, v.history, i);
    var j :| |w3.history| <= j < |v.history| && v.history[j] == Saw(t.Live(), Some(t.candidateToken));
    var k :| |w3.history| <= k < |v.history| && v.history[k] == Renamed(t.backupStage, t.backup, t.backupToken);
  }

  /** Undisturbed, the directory is on one side at every crash point, unless
      Windows only displaced the live file. */
  ghost predicate PublishOutcome(t: Transaction, m: Names, w: World, v: World) {
    OnOldSide(t, m, w) && HasRecord(t, w.names) && Synced(w) ==>
      Sound(t, m, v) || (LiveMissing(t, m, v.names) && v.env.platform.Windows? && v.env.faults)
  }

  lemma HandleWritesKeepOwed(t: Transaction, w: World, v: World)
    requires WellFormed(w.env, t) && Onward(w, v) && OwedSafe(t, w) && Valid(w)
    requires Elsewhere(w.names, v.names, {t.displaced})
    requires v.names == w.names ==> v.owed == w.owed
    requires v.names != w.names ==>
               && t.displaced in w.names && t.displaced in v.names
               && v.owed == w.owed - {w.names[t.displaced]} + {v.names[t.displaced]}
    ensures OwedSafe(t, v)
  {
  }

  /** The last steps of atomic_write_private_if_unchanged: look at the displaced
      file through the handle opened before the exchange, then settle. `w1` is
      the world the exchange began in. */
  method ConcludeExchange(disk: Disk, t: Transaction, ghost m: Names, handle: nat, boundary: Result<()>,
                          ghost w0: World, ghost w1: World, ghost removed: Option<File>)
    returns (r: Result<ConditionalWrite>)
    requires WellFormed(disk.w.env, t) && Valid(disk.w) && Onward(w0, w1) && Onward(w1, disk.w)
    requires JustSawExpected(t, w0, w1) && handle == t.expected.identity
    requires removed.None? ==>
               && boundary.Failure? && At(disk.w.names, t.candidate) == Some(t.candidateToken) && disk.w.env.platform.Unix?
               && !JustDisplaced(disk.w, t.displaced)
    requires removed.Some? ==> Exchanged(t, w1, disk.w, removed.value)
    requires OwedLive(t.stem, w0) ==> OwedSafe(t, disk.w)
    requires ExchangeOutcome(t, m, w1, disk.w, removed)
    modifies disk
    ensures Valid(disk.w) && Onward(w0, disk.w)
    ensures r == Success(Written) ==> TrueSwap(t, w0, disk.w)
    ensures AnswersTruly(t, w0, disk.w, r) && NoExchange(t, old(disk.w), disk.w)
    ensures OwedLive(t.stem, w0) ==> OwedOutcome(t, disk.w, r)
    ensures PublishOutcome(t, m, w1, disk.w)
    ensures (OnOldSide(t, m, w1) && HasRecord(t, w1.names) && Synced(w1) && removed.Some? && boundary.Success?
             && Calm(old(disk.w)) && SameContents(t.backupToken, t.expected))
            ==> r == Success(Written) && CompletedExactly(t, m, disk.w.names)
  {
    ghost var w2 := disk.w;
    disk.WritersHoldingHandles(t.displaced);
    ghost var w3 := disk.w;
    var witnessed := LookThroughHandle(disk, t, handle);
    ghost var w4 := disk.w;
    LookedAtDisplaced(t, m, w0, w1, w2, w3, w4, removed);
    r := SettleExchanged(disk, t, m, witnessed, boundary, w0, w1, w2, removed,
                         OnOldSide(t, m, w1) && HasRecord(t, w1.names) && Synced(w1));
    NoExchangeAgain(t, w2, w4, disk.w);
  }

  /** The look through the handle opened before the exchange. */
  method LookThroughHandle(disk: Disk, t: Transaction, handle: nat) returns (inode: Witness)
    requires Valid(disk.w) && handle == t.expected.identity
    modifies disk
    ensures Valid(disk.w) && Between(old(disk.w), disk.w) && disk.w.history == old(disk.w).history
    ensures WitnessTrue(t, disk.w.names, inode)
    ensures forall p :: p in disk.w.names && disk.w.names[p].identity == handle ==>
              || inode.Unreadable?
              || inode == if disk.w.names[p] == t.expected then Unchanged else Witness.Changed(disk.w.names[p])
    ensures !disk.w.env.faults && !old(disk.w).stopped ==> !inode.Unreadable?
    ensures !inode.Unavailable?
  {
    var observed := disk.TokenForHandle(handle);
    return if observed.Failure? then Unreadable
           else if observed.value == t.expected then Unchanged else Witness.Changed(observed.value);
  }

  /** An exchange begun in `w1` and ended in `w2`, looked at once more in `w`. */
  ghost predicate LookedAt(t: Transaction, w1: World, w2: World, w: World, boundary: Result<()>, removed: Option<File>) {
    if removed.None? then
      boundary.Failure? && At(w.names, t.candidate) == Some(t.candidateToken) && w.env.platform.Unix?
    else
      && Exchanged(t, w1, w2, removed.value) && StageWaits(t, w.names)
      && (t.displaced != t.candidate ==> t.candidate !in w.names)
      && t.displaced in w.names && w.names[t.displaced].identity == removed.value.identity
      && w.history == w2.history + (if w.names[t.displaced] == removed.value then []
                                    else [WrittenThroughHandle(removed.value, w.names[t.displaced])])
  }

  /** The settlement after an exchange; `undisturbed` says that the directory is
      known to be on the side the exchange left it on. */
  method SettleExchanged(disk: Disk, t: Transaction, ghost m: Names, inode: Witness, boundary: Result<()>,
                         ghost w0: World, ghost w1: World, ghost w2: World, ghost removed: Option<File>, ghost undisturbed: bool)
    returns (r: Result<ConditionalWrite>)
    requires WellFormed(disk.w.env, t) && Valid(disk.w) && Onward(w0, w1) && Onward(w1, disk.w)
    requires JustSawExpected(t, w0, w1) && WitnessTrue(t, disk.w.names, inode)
    requires LookedAt(t, w1, w2, disk.w, boundary, removed)
    requires OwedLive(t.stem, w0) ==> OwedSafe(t, disk.w)
    requires undisturbed ==>
               && HasRecord(t, disk.w.names)
               && (if removed.Some? then OnNewSide(t, m, disk.w) else OnOldSide(t, m, disk.w))
    modifies disk
    ensures Valid(disk.w) && Onward(w0, disk.w)
    ensures r == Success(Written) ==> TrueSwap(t, w0, disk.w)
    ensures AnswersTruly(t, w0, disk.w, r) && NoExchange(t, old(disk.w), disk.w)
    ensures OwedLive(t.stem, w0) ==> OwedOutcome(t, disk.w, r)
    ensures undisturbed ==> Sound(t, m, disk.w)
    ensures (undisturbed && removed.Some? && boundary.Success? && Calm(old(disk.w)) && SameContents(t.backupToken, t.expected))
            ==> r == Success(Written) && CompletedExactly(t, m, disk.w.names)
  {
    ghost var w4 := disk.w;
    var settled;
    ghost var verdict;
    settled, verdict := SettleAuthPublication(disk, t, m, inode);
    r := if settled.Failure? then Success(ConditionalWrite.AmbiguousRecoveryRequired)
         else ConditionalWriteFromSettlement(settled.value, Some(boundary));
    OwedOrUndisturbed(t, m, w0, w4, disk.w, boundary, removed, verdict, settled, r, undisturbed);
    SwapAnswered(t, m, w0, w1, w2, w4, disk.w, inode, boundary, removed, verdict, settled, r);
  }

  lemma OwedOrUndisturbed(t: Transaction, m: Names, w0: World, w4: World, v: World, boundary: Result<()>, removed: Option<File>,
                          verdict: Option<Verdict>, settled: Result<PublicationSettlement>, r: Result<ConditionalWrite>,
                          undisturbed: bool)
    requires t.candidate == t.displaced || t.candidate !in w4.names || At(w4.names, t.candidate) == Some(t.candidateToken)
    requires OwedLive(t.stem, w0) ==> OwedSafe(t, w4)
    requires undisturbed ==>
               && HasRecord(t, w4.names) && (if removed.Some? then OnNewSide(t, m, w4) else OnOldSide(t, m, w4))
    requires Settled(t, w4, v, true) && CleanWhenSettled(t, w4, v, verdict, settled)
    requires NewSideOutcome(t, m, w4, v, settled) && OldSideOutcome(t, m, w4, v, settled)
    requires r == if settled.Failure? then Success(ConditionalWrite.AmbiguousRecoveryRequired)
                  else ConditionalWriteFromSettlement(settled.value, Some(boundary))
    ensures OwedLive(t.stem, w0) ==> OwedOutcome(t, v, r)
    ensures undisturbed ==> Sound(t, m, v)
    ensures (undisturbed && removed.Some? && boundary.Success? && Calm(w4) && SameContents(t.backupToken, t.expected))
            ==> r == Success(Written) && CompletedExactly(t, m, v.names)
  {
    if OwedLive(t.stem, w0) {
      SettledOwed(t, w4, v, verdict, settled, r);
    }
    if undisturbed {
      SideSettled(t, m, w4, v, settled, removed.Some?);
    }
  }

  /** What the settlement of an exchange says of the swap, and the answer of it. */
  lemma SwapAnswered(t: Transaction, m: Names, w0: World, w1: World, w2: World, w4: World, v: World, inode: Witness,
                     boundary: Result<()>, removed: Option<File>, verdict: Option<Verdict>,
                     settled: Result<PublicationSettlement>, r: Result<ConditionalWrite>)
    requires JustSawExpected(t, w0, w1) && w1.history <= w4.history && LookedAt(t, w1, w2, w4, boundary, removed)
    requires WitnessTrue(t, w4.names, inode) && Settled(t, w4, v, true) && (settled.Success? <==> verdict.Some?)
    requires settled.Success? ==> DispatchOutcome(t, m, w4, v, verdict.value, inode, settled.value)
    requires r == if settled.Failure? then Success(ConditionalWrite.AmbiguousRecoveryRequired)
                  else ConditionalWriteFromSettlement(settled.value, Some(boundary))
    ensures r == Success(Written) ==> TrueSwap(t, w0, v)
    ensures AnswersTruly(t, w0, v, r) && NoExchange(t, w4, v)
  {
    ExchangePublished(t, w0, w1, w2, w4, v, boundary, removed, settled);
    ExchangeAnswered(t, w0, w4, v, inode, boundary, settled, r);
    SettlingExchangesNothing(t, w4, v);
  }

  lemma ExchangeAnswered(t: Transaction, w0: World, w4: World, v: World, inode: Witness, boundary: Result<()>,
                         settled: Result<PublicationSettlement>, r: Result<ConditionalWrite>)
    requires w0.history <= w4.history && WitnessTrue(t, w4.names, inode)
    requires if settled.Failure? then r == Success(ConditionalWrite.AmbiguousRecoveryRequired)
             else r == ConditionalWriteFromSettlement(settled.value, Some(boundary)) && AnswerTells(t, w4, v, inode, settled.value)
    ensures AnswersTruly(t, w0, v, r)
  {
    if settled.Success? {
      SettlementAnswers(t, w4, v, inode, settled.value, Some(boundary));
      AnswersSince(t, w0, w4, v, r);
    }
  }

  /** Only an exchange that took place is settled as published. */
  lemma ExchangePublished(t: Transaction, w0: World, w1: World, w2: World, w4: World, v: World, boundary: Result<()>,
                          removed: Option<File>, settled: Result<PublicationSettlement>)
    requires JustSawExpected(t, w0, w1) && Onward(w4, v) && LookedAt(t, w1, w2, w4, boundary, removed)
    requires settled == Success(Published) ==>
               PublishedProperly(t, w4, v) && At(w4.names, t.candidate) != Some(t.candidateToken)
    ensures settled == Success(Published) ==> TrueSwap(t, w0, v)
  {
    if settled == Success(Published) {
      SwapWasTrue(t, w0, w1, w2, w4, v, removed.value);
    }
  }

  /** Where the settlement of an undisturbed exchange ends. */
  lemma SideSettled(t: Transaction, m: Names, w: World, v: World, settled: Result<PublicationSettlement>, published: bool)
    requires HasRecord(t, w.names) && (if published then OnNewSide(t, m, w) else OnOldSide(t, m, w))
    requires NewSideOutcome(t, m, w, v, settled) && OldSideOutcome(t, m, w, v, settled)
    ensures Sound(t, m, v)
    ensures published && Calm(w) && SameContents(t.backupToken, t.expected) ==>
              settled == Success(Published) && CompletedExactly(t, m, v.names)
  {
  }

  lemma SameNames(n: Names, s: Names)
    requires forall p: Path :: At(s, p) == At(n, p)
    ensures s == n
  {
    forall p: Path
      ensures (p in s <==> p in n) && (p in s ==> s[p] == n[p])
    {
      assert At(s, p) == At(n, p);
    }
  }

  /** Between the exchange and the settlement only the displaced file's data and
      the live name may change, and only by others. */
  lemma LookedAtDisplaced(t: Transaction, m: Names, w0: World, w1: World, w2: World, w3: World, w4: World, removed: Option<File>)
    requires WellFormed(w2.env, t) && Valid(w2) && Valid(w3) && Onward(w2, w3)
    requires Elsewhere(w2.names, w3.names, {t.displaced})
    requires t.displaced in w3.names <==> t.displaced in w2.names
    requires t.displaced in w3.names ==> w3.names[t.displaced].identity == w2.names[t.displaced].identity
    requires w3.names == w2.names ==> w3.history == w2.history && w3.owed == w2.owed
    requires w3.names != w2.names ==>
               && JustDisplaced(w2, t.displaced) && t.displaced in w3.names
               && w3.history == w2.history + [WrittenThroughHandle(w2.names[t.displaced], w3.names[t.displaced])]
               && w3.owed == w2.owed - {w2.names[t.displaced]} + {w3.names[t.displaced]}
    requires !w2.env.foreign ==> w3 == w2
    requires Valid(w4) && Between(w3, w4) && w4.history == w3.history
    requires removed.Some? ==> Exchanged(t, w1, w2, removed.value)
    requires removed.None? ==> At(w2.names, t.candidate) == Some(t.candidateToken) && !JustDisplaced(w2, t.displaced)
    ensures OwedSafe(t, w2) ==> OwedSafe(t, w4)
    ensures !w2.env.foreign ==> (OnOldSide(t, m, w2) ==> OnOldSide(t, m, w4)) && (OnNewSide(t, m, w2) ==> OnNewSide(t, m, w4))
    ensures HasRecord(t, w2.names) ==> HasRecord(t, w4.names)
    ensures removed.None? ==> At(w4.names, t.candidate) == Some(t.candidateToken)
    ensures removed.Some? ==> LookedAt(t, w1, w2, w4, Success(()), removed)
    ensures NoExchange(t, w2, w4)
  {
    assert At(w4.names, t.displaced) == At(w3.names, t.displaced);
    assert At(w4.names, t.candidate) == At(w3.names, t.candidate);
    assert At(w4.names, t.backupStage) == At(w3.names, t.backupStage) == At(w2.names, t.backupStage);
    assert At(w4.names, t.backup) == At(w3.names, t.backup) == At(w2.names, t.backup);
    assert At(w4.names, t.record) == At(w3.names, t.record) == At(w2.names, t.record);
    assert t.candidate != t.displaced ==> At(w3.names, t.candidate) == At(w2.names, t.candidate);
    if OwedSafe(t, w2) {
      HandleWritesKeepOwed(t, w2, w3);
    }
    if removed.Some? && w3.names[t.displaced] == removed.value {
      SameNames(w2.names, w3.names);
    }
    if !w2.env.foreign {
      SideSteady(t, m, w3, w4);
    }
  }

  /** The first step found some file live. */
  ghost predicate OpenedFirst(t: Transaction, w: World, v: World) {
    && |w.history| < |v.history|
    && v.history[|w.history|].Saw? && v.history[|w.history|].path == t.Live() && v.history[|w.history|].seen.Some?
  }

  /** What a publication whose record is durable comes to. */
  ghost predicate RecordedOutcome(t: Transaction, m: Names, w: World, v: World, r: Result<ConditionalWrite>) {
    && Valid(v) && Onward(w, v)
    && (r == Success(Written) ==> TrueSwap(t, w, v)) && AnswersTruly(t, w, v, r)
    && (OwedLive(t.stem, w) ==> OwedOutcome(t, v, r))
    && PublishOutcome(t, m, w, v)
    && (OnOldSide(t, m, w) && HasRecord(t, w.names) && Synced(w) && Calm(w) && SameContents(t.backupToken, t.expected) ==>
          r == Success(Written) && CompletedExactly(t, m, v.names))
  }

  /** The exchange and what follows it. */
  method ExchangeAndSettle(disk: Disk, t: Transaction, ghost m: Names, handle: nat, ghost w0: World)
    returns (r: Result<ConditionalWrite>)
    requires Pending(t, m, w0, disk.w) && Waiting(t, disk.w.names)
    requires JustSawExpected(t, w0, disk.w) && handle == t.expected.identity
    modifies disk
    ensures Valid(disk.w) && Onward(w0, disk.w)
    ensures r == Success(Written) ==> TrueSwap(t, w0, disk.w)
    ensures AnswersTruly(t, w0, disk.w, r)
    ensures old(disk.w).history <= disk.w.history
    ensures forall i :: |old(disk.w).history| < i < |disk.w.history| ==> !ExchangeStep(t, disk.w.history[i])
    ensures OwedLive(t.stem, w0) ==> OwedOutcome(t, disk.w, r)
    ensures PublishOutcome(t, m, old(disk.w), disk.w)
    ensures (OnOldSide(t, m, old(disk.w)) && HasRecord(t, old(disk.w).names) && Synced(old(disk.w)) && Calm(old(disk.w))
             && SameContents(t.backupToken, t.expected))
            ==> r == Success(Written) && CompletedExactly(t, m, disk.w.names)
  {
    ghost var w1 := disk.w;
    ghost var removed;
    var boundary;
    boundary, removed := ExchangeCandidateWithLive(disk, t, m);
    if disk.w.env.platform.Windows? && boundary.Failure? {
      return Success(ConditionalWrite.AmbiguousRecoveryRequired);
    }
    r := ConcludeExchange(disk, t, m, handle, boundary, w0, w1, removed);
  }

  /** The witness handle and the last look at the live name before the exchange. */
  method WitnessAgrees(disk: Disk, ghost t: Transaction, ghost m: Names, ghost w0: World, live: Path, expected: FileToken, handle: nat)
    returns (r: Result<bool>)
    requires Pending(t, m, w0, disk.w) && Waiting(t, disk.w.names) && HasRecord(t, disk.w.names)
    requires live == t.Live() && expected == t.expected
    modifies disk
    ensures Pending(t, m, w0, disk.w) && Waiting(t, disk.w.names) && HasRecord(t, disk.w.names)
    ensures Onward(old(disk.w), disk.w)
    ensures OnOldSide(t, m, w0) && Synced(old(disk.w)) ==> Synced(disk.w)
    ensures r == Success(true) ==> JustSawExpected(t, old(disk.w), disk.w) && handle == t.expected.identity
    ensures NoExchange(t, old(disk.w), disk.w)
    ensures OnOldSide(t, m, w0) && Calm(old(disk.w)) && handle == expected.identity ==> r == Success(true)
  {
    r := HandleIs(disk, t, m, w0, expected, handle);
    if r == Success(true) {
      r := LiveThenHandle(disk, t, m, w0, live, expected, handle);
    }
  }

  method LiveThenHandle(disk: Disk, ghost t: Transaction, ghost m: Names, ghost w0: World, live: Path, expected: FileToken, handle: nat)
    returns (r: Result<bool>)
    requires Pending(t, m, w0, disk.w) && Waiting(t, disk.w.names) && HasRecord(t, disk.w.names)
    requires live == t.Live() && expected == t.expected
    modifies disk
    ensures Pending(t, m, w0, disk.w) && Waiting(t, disk.w.names) && HasRecord(t, disk.w.names)
    ensures Onward(old(disk.w), disk.w)
    ensures OnOldSide(t, m, w0) && Synced(old(disk.w)) ==> Synced(disk.w)
    ensures r == Success(true) ==> JustSawExpected(t, old(disk.w), disk.w) && handle == t.expected.identity
    ensures NoExchange(t, old(disk.w), disk.w)
    ensures OnOldSide(t, m, w0) && Calm(old(disk.w)) && handle == expected.identity ==> r == Success(true)
  {
    ghost var w2 := disk.w;
    var liveNow := disk.TokenIfPresent(live);
    PendingWaits(t, m, w0, w2, disk.w);
    if liveNow.Failure? {
      return Failure(liveNow.error);
    }
    var handleNow := HandleIs(disk, t, m, w0, expected, handle);
    if handleNow.Failure? {
      return handleNow;
    }
    return Success(liveNow.value == Some(expected) && handleNow.value);
  }

  /** Whether the file behind the witness handle is still the expected one. */
  method HandleIs(disk: Disk, ghost t: Transaction, ghost m: Names, ghost w0: World, expected: FileToken, handle: nat)
    returns (r: Result<bool>)
    requires Pending(t, m, w0, disk.w) && Waiting(t, disk.w.names) && HasRecord(t, disk.w.names) && expected == t.expected
    modifies disk
    ensures Pending(t, m, w0, disk.w) && Waiting(t, disk.w.names) && HasRecord(t, disk.w.names)
    ensures Between(old(disk.w), disk.w) && disk.w.history == old(disk.w).history
    ensures r == Success(true) ==> handle == t.expected.identity
    ensures OnOldSide(t, m, w0) && Calm(old(disk.w)) && handle == expected.identity ==> r == Success(true)
  {
    ghost var w1 := disk.w;
    var token := disk.TokenForHandle(handle);
    PendingWaits(t, m, w0, w1, disk.w);
    if token.Failure? {
      return Failure(token.error);
    }
    return Success(token.value == expected);
  }

  lemma PendingWaits(t: Transaction, m: Names, w0: World, w: World, v: World)
    requires Pending(t, m, w0, w) && Valid(v) && Between(w, v)
    requires Waiting(t, w.names) && HasRecord(t, w.names)
    ensures Pending(t, m, w0, v) && Waiting(t, v.names) && HasRecord(t, v.names)
  {
    PendingSteady(t, m, w0, w, v);
    assert At(v.names, t.candidate) == At(w.names, t.candidate) && At(v.names, t.displaced) == At(w.names, t.displaced);
    assert At(v.names, t.backupStage) == At(w.names, t.backupStage) && At(v.names, t.backup) == At(w.names, t.backup);
    assert At(v.names, t.record) == At(w.names, t.record);
  }

  lemma UnexchangedIsRecorded(t: Transaction, m: Names, w: World, v: World, r: Result<ConditionalWrite>)
    requires Valid(v) && Onward(w, v) && r != Success(Written) && AnswersTruly(t, w, v, r)
    requires OwedLive(t.stem, w) ==> OwedOutcome(t, v, r)
    requires OnOldSide(t, m, w) ==> OnOldSide(t, m, v) && !Calm(w)
    ensures RecordedOutcome(t, m, w, v, r)
  {
  }

  /** A failure before the exchange, from `v` on. */
  lemma FailedIsRecorded(t: Transaction, m: Names, w: World, v: World, r: Result<ConditionalWrite>)
    requires Pending(t, m, w, v) && r.Failure? && Onward(w, v) && (OnOldSide(t, m, w) ==> !Calm(w))
    ensures RecordedOutcome(t, m, w, v, r)
  {
  }

  /** atomic_write_private_if_unchanged from the durable record on. */
  method PublishRecorded(disk: Disk, t: Transaction, ghost m: Names) returns (r: Result<ConditionalWrite>)
    requires WellFormed(disk.w.env, t) && Valid(disk.w) && Waiting(t, disk.w.names) && HasRecord(t, disk.w.names)
    modifies disk
    ensures RecordedOutcome(t, m, old(disk.w), disk.w, r) && ExchangedAfterLook(t, old(disk.w), disk.w)
    ensures r == Success(ConditionalWrite.Changed) ==> OpenedFirst(t, old(disk.w), disk.w)
  {
    ghost var w0 := disk.w;
    var liveFile := disk.TokenIfPresent(t.Live());
    PendingWaits(t, m, w0, w0, disk.w);
    ghost var w1 := disk.w;
    if liveFile.Failure? || liveFile.value.None? {
      r := SettleUnpublished(disk, t, m, w0);
      if r == Success(ConditionalWrite.Changed) {
        r := Failure(OsError);
      }
      UnexchangedIsRecorded(t, m, w0, disk.w, r);
      NoExchangeAgain(t, w0, w1, disk.w);
      return;
    }
    r := PublishOpened(disk, t, m, liveFile.value.value.identity, w0);
    assert disk.w.history[|w0.history|] == w1.history[|w0.history|] == Saw(t.Live(), liveFile.value);
  }

  /** From the opened witness handle on. */
  method PublishOpened(disk: Disk, t: Transaction, ghost m: Names, handle: nat, ghost w0: World) returns (r: Result<ConditionalWrite>)
    requires Pending(t, m, w0, disk.w) && Waiting(t, disk.w.names) && HasRecord(t, disk.w.names) && NoExchange(t, w0, disk.w)
    requires OnOldSide(t, m, w0) && Calm(w0) ==> Calm(disk.w) && handle == t.expected.identity
    requires OnOldSide(t, m, w0) && Synced(w0) ==> Synced(disk.w)
    modifies disk
    ensures RecordedOutcome(t, m, w0, disk.w, r) && ExchangedAfterLook(t, w0, disk.w)
    ensures old(disk.w).history <= disk.w.history
  {
    ghost var w1 := disk.w;
    var agrees := WitnessAgrees(disk, t, m, w0, t.Live(), t.expected, handle);
    ghost var w2 := disk.w;
    NoExchangeAgain(t, w0, w1, w2);
    if agrees.Failure? {
      r := Failure(agrees.error);
      FailedIsRecorded(t, m, w0, disk.w, r);
      return;
    }
    if !agrees.value {
      r := SettleUnpublished(disk, t, m, w0);
      UnexchangedIsRecorded(t, m, w0, disk.w, r);
      NoExchangeAgain(t, w0, w2, disk.w);
      return;
    }
    r := ExchangeAndSettle(disk, t, m, handle, w0);
    OneExchangeAfterLook(t, w0, w2, disk.w);
  }

  // ----- the whole write ---------------------------------------------------

  /** `t` replaces `expected` by `contents` and keeps a separate copy. */
  ghost predicate Replaces(env: Surroundings, t: Transaction, stem: string, expected: FileToken, contents: Contents) {
    && WellFormed(env, t) && Describes(env, t) && t.stem == stem
    && t.expected == expected && t.candidateToken.contents == contents
    && t.backupToken.contents == expected.contents && t.backupToken.identity != expected.identity
  }

  lemma PreparationIsPending(stem: string, w0: World, w: World, a: Attempt, expected: FileToken, contents: Contents,
                             p: Prepared, t: Transaction)
    requires Valid(w0) && Preparing(stem, w0, w) && Readied(stem, w0, w, a, expected, contents, p)
    requires Named(RecordName(stem)) !in w0.names
    requires t == Printed(w.env.platform, stem, p.record, p.recordStage.token)
    ensures Replaces(w.env, t, stem, expected, contents)
    ensures ParsePublicationRecord(w.env.platform, stem, p.record, p.recordStage.token) == Success(t)
    ensures Waiting(t, w.names) && t.record !in w.names && Synced(w)
    ensures Pending(t, w0.names, w, w) && (!w.env.foreign ==> OnOldSide(t, w0.names, w))
    ensures Unrelated(t, p.recordStage.path)
  {
    RecordAcceptedIff(w.env, stem, p.record, p.recordStage.token);
    PrivateNamesUnmanaged(stem, "publication");
    assert At(w.names, t.record) == At(w0.names, t.record);
    if !w.env.foreign {
      forall x | KeyOf(stem, x).Some? && x != t.backup
        ensures x in w.names <==> x in w0.names
      {
        assert At(w.names, x) == At(w0.names, x);
      }
      assert OldSide(t, w0.names, w.names);
    }
  }

  /** What a write under transaction `t` comes to, from the world it began in. */
  ghost predicate WriteOutcome(t: Transaction, w: World, v: World, r: Result<ConditionalWrite>) {
    && Valid(v) && Onward(w, v)
    && (r == Success(Written) ==> TrueSwap(t, w, v)) && AnswersTruly(t, w, v, r)
    && (OwedLive(t.stem, w) ==> OwedOutcome(t, v, r))
    && (!w.env.foreign ==>
          && At(w.names, t.Live()) == Some(t.expected)
          && (Sound(t, w.names, v) || (LiveMissing(t, w.names, v.names) && v.env.platform.Windows? && v.env.faults)))
    && (t.expected.identity in w.flushed ==> DataOnDisk(t, v))
  }

  lemma OutcomeFromPending(t: Transaction, w: World, w1: World, v: World, r: Result<ConditionalWrite>)
    requires Onward(w, w1) && Pending(t, w.names, w1, v) && (r.Failure? || (r == Success(ConditionalWrite.RestoredRecoveryRequired) && Waiting(t, v.names)))
    requires OwedLive(t.stem, w) ==> OwedLive(t.stem, w1)
    requires !w.env.foreign ==> OnOldSide(t, w.names, w1) && At(w.names, t.Live()) == At(w1.names, t.Live())
    requires t.expected.identity in w.flushed ==> DataOnDisk(t, w1)
    ensures WriteOutcome(t, w, v, r)
  {
  }

  lemma OutcomeFromRecorded(t: Transaction, w: World, w1: World, w2: World, v: World, r: Result<ConditionalWrite>)
    requires Onward(w, w1) && Pending(t, w.names, w1, w2) && RecordedOutcome(t, w.names, w2, v, r)
    requires OwedLive(t.stem, w) ==> OwedLive(t.stem, w1)
    requires !w.env.foreign ==> OnOldSide(t, w.names, w1) && At(w.names, t.Live()) == At(w1.names, t.Live())
    requires HasRecord(t, w2.names) && Synced(w2)
    requires t.expected.identity in w.flushed ==> DataOnDisk(t, w1)
    ensures WriteOutcome(t, w, v, r)
  {
    AnswersSince(t, w, w2, v, r);
  }

  /** The prepared files under their record, from the record's publication on. */
  method PublishPrepared(disk: Disk, ghost t: Transaction, ghost w0: World, stem: string, p: Prepared)
    returns (r: Result<ConditionalWrite>)
    requires Valid(w0) && WellFormed(disk.w.env, t) && Pending(t, w0.names, disk.w, disk.w) && Onward(w0, disk.w)
    requires ParsePublicationRecord(disk.w.env.platform, stem, p.record, p.recordStage.token) == Success(t)
    requires Waiting(t, disk.w.names) && t.record !in disk.w.names && Synced(disk.w)
    requires t.record == Named(RecordName(stem)) && p.recordStage.token == t.recordToken
    requires p.candidate.path == t.candidate && p.backupStage.path == t.backupStage
    requires p.recordStage.path.Staged? && Drawn(p.recordStage.path, disk.w.draws)
    requires At(disk.w.names, p.recordStage.path) == Some(t.recordToken)
    requires p.candidate != p.backupStage && p.candidate != p.recordStage && p.backupStage != p.recordStage
    requires OwedLive(t.stem, w0) ==> OwedLive(t.stem, disk.w)
    requires !w0.env.foreign ==> OnOldSide(t, w0.names, disk.w) && At(w0.names, t.Live()) == At(disk.w.names, t.Live())
    requires t.expected.identity in w0.flushed ==> DataOnDisk(t, disk.w)
    modifies disk, p.candidate, p.backupStage, p.recordStage
    ensures WriteOutcome(t, w0, disk.w, r)
    ensures Calm(old(disk.w)) && SameContents(t.backupToken, t.expected) ==>
              r == Success(Written) && CompletedExactly(t, w0.names, disk.w.names)
  {
    ghost var w1 := disk.w;
    ghost var m := w0.names;
    var published := PublishRecordExclusive(disk, t, m, w1, Named(RecordName(stem)), p.recordStage);
    if published.Failure? {
      r := Failure(published.error);
      DropOwned(disk, t, m, w1, p.backupStage);
      DropOwned(disk, t, m, w1, p.candidate);
      OutcomeFromPending(t, w0, w1, disk.w, r);
      return;
    }
    if published.value.VisibleNotDurable? {
      p.candidate.Disarm();
      p.backupStage.Disarm();
      r := Success(ConditionalWrite.RestoredRecoveryRequired);
      OutcomeFromPending(t, w0, w1, disk.w, r);
      return;
    }
    var parsed := ParsePublicationRecord(disk.w.env.platform, stem, p.record, published.value.token);
    p.candidate.Disarm();
    p.backupStage.Disarm();
    ghost var w2 := disk.w;
    r := PublishRecorded(disk, parsed.value, m);
    OutcomeFromRecorded(t, w0, w1, w2, disk.w, r);
  }

  /** Unless something fails, every name but the live one is as before. */
  ghost predicate LeavesNothing(stem: string, w: World, v: World) {
    Working(w) ==> SameBut(stem, w, v, {})
  }

  lemma LeavesNothingSince(stem: string, w0: World, w1: World, v: World)
    requires Between(w0, w1) && w0.env.contested == Named(stem) && LeavesNothing(stem, w1, v)
    ensures LeavesNothing(stem, w0, v)
  {
  }

  /** Some draw prints names that are all free. */
  ghost predicate Reserves(stem: string, attempts: seq<Attempt>, w: World) {
    && (forall a :: a in attempts ==> ValidAttempt(a))
    && exists a :: a in attempts && Unclaimed(w.env.platform, stem, a, w.names)
  }

  /** atomic_write_private_if_unchanged once the expected file was seen live. */
  method PublishExisting(disk: Disk, stem: string, attempts: seq<Attempt>, expected: FileToken, contents: Contents)
    returns (r: Result<ConditionalWrite>, ghost made: Option<Transaction>)
    requires Valid(disk.w) && disk.w.env.contested == Named(stem) && Named(RecordName(stem)) !in disk.w.names
    requires expected.identity < disk.w.nextIdentity && |attempts| == UNIQUE_NAME_ATTEMPTS
    modifies disk
    ensures made.None? ==> r.Failure? && Preparing(stem, old(disk.w), disk.w) && LeavesNothing(stem, old(disk.w), disk.w)
    ensures made.Some? ==>
              Replaces(disk.w.env, made.value, stem, expected, contents) && WriteOutcome(made.value, old(disk.w), disk.w, r)
    ensures Calm(old(disk.w)) && At(old(disk.w).names, Named(stem)) == Some(expected) && Reserves(stem, attempts, old(disk.w))
            ==> && made.Some? && r == Success(Written)
                && CompletedExactly(made.value, old(disk.w).names, disk.w.names)
  {
    ghost var w0 := disk.w;
    made := None;
    var prepared := PrepareExistingAuthPublication(disk, stem, attempts, expected, contents);
    if prepared.Failure? {
      return Failure(prepared.error), None;
    }
    var p := prepared.value.1;
    ghost var t := Printed(disk.w.env.platform, stem, p.record, p.recordStage.token);
    PreparationIsPending(stem, w0, disk.w, prepared.value.0, expected, contents, p, t);
    made := Some(t);
    r := PublishPrepared(disk, t, w0, stem, p);
  }

  // ----- a missing live file -----------------------------------------------

  /** How far the creation of a live file begun in `w0` may have gone. */
  ghost predicate Creating(stem: string, w0: World, w: World, token: FileToken) {
    && Valid(w) && Onward(w0, w) && w0.env.contested == Named(stem)
    && Accounted(w0, w, Named(stem))
    && (forall p :: p != Named(stem) && !Scratch(stem, w0.names, p) ==> At(w.names, p) == At(w0.names, p))
    && (!w0.env.foreign ==>
          && w.owed == w0.owed
          && (At(w.names, Named(stem)) == At(w0.names, Named(stem))
              || (Named(stem) !in w0.names && At(w.names, Named(stem)) == Some(token))))
  }

  lemma CreatingSteady(stem: string, w0: World, w: World, v: World, token: FileToken)
    requires Creating(stem, w0, w, token) && Valid(v) && Onward(w, v)
    requires Elsewhere(w.names, v.names, {Named(stem)}) && Accounted(w, v, Named(stem))
    requires !w.env.foreign ==> v.names == w.names && v.owed == w.owed
    ensures Creating(stem, w0, v, token)
  {
  }

  lemma CreatingDrops(stem: string, w0: World, w: World, v: World, token: FileToken, path: Path, dropped: bool)
    requires Valid(w0) && Creating(stem, w0, w, token) && Scratch(stem, w0.names, path)
    requires DropEffect(w, v, path, token, dropped)
    ensures Creating(stem, w0, v, token)
  {
  }

  lemma CreatingMoves(stem: string, w0: World, w: World, v: World, source: Path, token: FileToken, moved: Option<File>)
    requires Preparing(stem, w0, w) && Valid(v) && RenameEffect(w, v, source, Named(stem), moved)
    requires Scratch(stem, w0.names, source) && At(w.names, source) == Some(token)
    ensures Creating(stem, w0, v, token)
  {
  }

  /** The new credential took a free live name, and was seen there afterwards. */
  ghost predicate TrueCreation(stem: string, contents: Contents, w: World, v: World) {
    exists i: nat, j: nat ::
      && |w.history| <= i < j < |v.history|
      && v.history[i].Renamed? && v.history[i].destination == Named(stem) && v.history[i].file.contents == contents
      && v.history[j] == Saw(Named(stem), Some(v.history[i].file))
  }

  /** What a write that expects no live file comes to. */
  ghost predicate CreationOutcome(stem: string, contents: Contents, w: World, v: World, r: Result<ConditionalWrite>) {
    && Valid(v) && Onward(w, v) && Accounted(w, v, Named(stem))
    && (forall p :: p != Named(stem) && !Scratch(stem, w.names, p) ==> At(v.names, p) == At(w.names, p))
    && (r in {Success(Written), Success(ConditionalWrite.PublishedRecoveryRequired)} ==> TrueCreation(stem, contents, w, v))
    && r != Success(ConditionalWrite.RestoredRecoveryRequired) && LeavesNothing(stem, w, v)
    && (r == Success(Written) ==> Synced(v))
    && (!w.env.foreign ==>
          || At(v.names, Named(stem)) == At(w.names, Named(stem))
          || (Named(stem) !in w.names && Named(stem) in v.names && v.names[Named(stem)].contents == contents))
    && (Calm(w) ==>
          && (Named(stem) !in w.names ==>
                r == Success(Written) && Named(stem) in v.names && v.names[Named(stem)].contents == contents)
          && (Named(stem) in w.names ==> r == Success(ConditionalWrite.Changed)))
  }

  /** The rename onto the live name and the two readings after it. */
  method MoveOntoLive(disk: Disk, stem: string, ghost w0: World, f: ExactPrivateFile)
    returns (boundary: Result<()>, after: Result<(Option<FileToken>, Option<FileToken>)>)
    requires Valid(w0) && Preparing(stem, w0, disk.w) && Holding(stem, w0, disk.w, f)
    modifies disk
    ensures Creating(stem, w0, disk.w, f.token) && Onward(old(disk.w), disk.w)
    ensures SameBut(stem, old(disk.w), disk.w, {f.path}) && (Working(old(disk.w)) ==> after.Success?)
    ensures after.Success? ==> after.value.0 == At(disk.w.names, f.path)
    ensures f.path in disk.w.names ==> At(disk.w.names, f.path) == At(old(disk.w).names, f.path)
    ensures after.Success? && after.value == (None, Some(f.token)) ==>
              exists i: nat, j: nat ::
                && |old(disk.w).history| <= i < j < |disk.w.history|
                && disk.w.history[i] == Renamed(f.path, Named(stem), f.token)
                && disk.w.history[j] == Saw(Named(stem), Some(f.token))
    ensures Calm(old(disk.w)) ==>
              && after.Success? && Calm(disk.w)
              && (Named(stem) !in old(disk.w).names ==>
                    boundary.Success? && after.value == (None, Some(f.token)) && At(disk.w.names, Named(stem)) == Some(f.token))
              && (Named(stem) in old(disk.w).names ==>
                    after.value == (Some(f.token), At(old(disk.w).names, Named(stem))))
  {
    ghost var w1 := disk.w;
    ghost var moved;
    boundary, moved := disk.RenameNoReplace(f.path, Named(stem));
    CreatingMoves(stem, w0, w1, disk.w, f.path, f.token, moved);
    ghost var w2 := disk.w;
    var atSource := disk.TokenIfPresent(f.path);
    CreatingSteady(stem, w0, w2, disk.w, f.token);
    ghost var w3 := disk.w;
    BetweenKeeps(stem, w2, w3, f.path);
    if atSource.Failure? {
      return boundary, Failure(atSource.error);
    }
    var atLive := disk.TokenIfPresent(Named(stem));
    CreatingSteady(stem, w0, w3, disk.w, f.token);
    if atLive.Failure? {
      return boundary, Failure(atLive.error);
    }
    after := Success((atSource.value, atLive.value));
    if after.value == (None, Some(f.token)) {
      assert moved == Some(f.token);
      assert disk.w.history[|w1.history|] == w2.history[|w1.history|] == Renamed(f.path, Named(stem), f.token);
      assert disk.w.history[|w3.history|] == Saw(Named(stem), Some(f.token));
    }
  }

  /** confirm_namespace_boundary after a creation */
  method ConfirmCreated(disk: Disk, stem: string, ghost w0: World, ghost token: FileToken, boundary: Result<()>) returns (r: Result<()>)
    requires Creating(stem, w0, disk.w, token)
    modifies disk
    ensures Creating(stem, w0, disk.w, token) && Onward(old(disk.w), disk.w)
    ensures SameBut(stem, old(disk.w), disk.w, {})
    ensures r.Success? ==> Synced(disk.w)
    ensures disk.w.env.platform.Windows? ==> r == boundary
    ensures Calm(old(disk.w)) && boundary.Success? ==>
              r.Success? && Calm(disk.w) && At(disk.w.names, Named(stem)) == At(old(disk.w).names, Named(stem))
  {
    if disk.w.env.platform.Windows? {
      return boundary;
    }
    ghost var w1 := disk.w;
    r := disk.SyncParent();
    CreatingSteady(stem, w0, w1, disk.w, token);
  }

  /** atomic_write_private_if_unchanged when no live file is expected. */
  method CreateLive(disk: Disk, stem: string, contents: Contents) returns (r: Result<ConditionalWrite>)
    requires Valid(disk.w) && disk.w.env.contested == Named(stem)
    modifies disk
    ensures CreationOutcome(stem, contents, old(disk.w), disk.w, r)
  {
    ghost var w0 := disk.w;
    PreparingBegins(stem, w0);
    var prepared :- PrepareExactPrivateFile(disk, stem, w0, contents);
    var _ :- MakeDurable(disk, stem, w0, prepared);
    r := PublishCreated(disk, stem, contents, w0, prepared);
  }

  method PublishCreated(disk: Disk, stem: string, ghost contents: Contents, ghost w0: World, candidate: ExactPrivateFile)
    returns (r: Result<ConditionalWrite>)
    requires Valid(w0) && Preparing(stem, w0, disk.w) && Holding(stem, w0, disk.w, candidate)
    requires candidate.token.contents == contents && candidate.cleanupOnDrop
    requires Calm(w0) ==> Calm(disk.w)
    requires Working(w0) ==>
               Working(disk.w) && SameBut(stem, w0, disk.w, {candidate.path}) && candidate.path !in w0.names
    modifies disk, candidate
    ensures CreationOutcome(stem, contents, w0, disk.w, r)
  {
    ghost var w1 := disk.w;
    ghost var token := candidate.token;
    var boundary, after := MoveOntoLive(disk, stem, w0, candidate);
    if after.Failure? {
      DropCreated(disk, stem, w0, candidate);
      return Failure(after.error);
    }
    var (sourceAfter, destinationAfter) := after.value;
    if destinationAfter == Some(candidate.token) && sourceAfter.None? {
      candidate.Disarm();
      ghost var w2 := disk.w;
      var confirmed := ConfirmCreated(disk, stem, w0, token, boundary);
      CreatedLater(stem, contents, w0, w1, w2, disk.w, candidate.path, token);
      return Success(if confirmed.Success? then Written else ConditionalWrite.PublishedRecoveryRequired);
    }
    if sourceAfter == Some(candidate.token) {
      DropCreated(disk, stem, w0, candidate);
      if destinationAfter.Some? {
        return Success(ConditionalWrite.Changed);
      }
      return Failure(if boundary.Failure? then boundary.error else Refused);
    }
    candidate.cleanupOnDrop := false;
    return Success(ConditionalWrite.AmbiguousRecoveryRequired);
  }

  lemma CreatedLater(stem: string, contents: Contents, w0: World, w1: World, w2: World, v: World, path: Path, token: FileToken)
    requires w0.history <= w1.history && w1.history <= w2.history && w2.history <= v.history && token.contents == contents
    requires exists i: nat, j: nat ::
               && |w1.history| <= i < j < |w2.history|
               && w2.history[i] == Renamed(path, Named(stem), token)
               && w2.history[j] == Saw(Named(stem), Some(token))
    ensures TrueCreation(stem, contents, w0, v)
  {
  }

  method DropCreated(disk: Disk, stem: string, ghost w0: World, f: ExactPrivateFile)
    requires Valid(w0) && Creating(stem, w0, disk.w, f.token) && Scratch(stem, w0.names, f.path) && Drawn(f.path, disk.w.draws)
    modifies disk
    ensures Creating(stem, w0, disk.w, f.token) && Onward(old(disk.w), disk.w)
    ensures Working(old(disk.w)) && f.cleanupOnDrop && At(old(disk.w).names, f.path) == Some(f.token) ==>
              f.path !in disk.w.names && SameBut(stem, old(disk.w), disk.w, {f.path})
  {
    if f.cleanupOnDrop {
      ghost var w1 := disk.w;
      var removed := RemoveBoundPath(disk, f.path, f.token);
      CreatingDrops(stem, w0, w1, disk.w, f.token, f.path, removed.Success?);
    }
  }

  // ----- the whole protocol ------------------------------------------------

  lemma OutcomeSinceReading(t: Transaction, w0: World, w1: World, v: World, r: Result<ConditionalWrite>)
    requires Between(w0, w1) && w0.env.contested == Named(t.stem) && WriteOutcome(t, w1, v, r)
    ensures WriteOutcome(t, w0, v, r)
  {
    AnswersSince(t, w0, w1, v, r);
  }

  lemma TrueSwapSince(t: Transaction, w0: World, w1: World, v: World)
    requires w0.history <= w1.history && TrueSwap(t, w1, v)
    ensures TrueSwap(t, w0, v)
  {
  }

  lemma TrueCreationSince(stem: string, contents: Contents, w0: World, w1: World, v: World)
    requires w0.history <= w1.history && TrueCreation(stem, contents, w1, v)
    ensures TrueCreation(stem, contents, w0, v)
  {
  }

  lemma CreationSinceReading(stem: string, contents: Contents, w0: World, w1: World, v: World, r: Result<ConditionalWrite>)
    requires Between(w0, w1) && w0.env.contested == Named(stem) && CreationOutcome(stem, contents, w1, v, r)
    ensures CreationOutcome(stem, contents, w0, v, r)
  {
  }

  lemma PreparingSinceReading(stem: string, w0: World, w1: World, v: World)
    requires Between(w0, w1) && w0.env.contested == Named(stem) && Preparing(stem, w1, v)
    ensures Preparing(stem, w0, v)
  {
  }

  /** What any write comes to, from a directory that held no record. */
  ghost predicate IdleOutcome(stem: string, attempts: seq<Attempt>, expected: Option<Contents>, contents: Contents,
                              w: World, v: World, made: Option<Transaction>, r: Result<ConditionalWrite>)
  {
    && Valid(v)
    && (expected.None? ==> made.None? && CreationOutcome(stem, contents, w, v, r))
    && (expected.Some? && made.None? ==> r != Success(Written) && Preparing(stem, w, v) && LeavesNothing(stem, w, v))
    && (made.Some? ==> WriteOutcome(made.value, w, v, r))
    && (Calm(w) && expected.Some? ==>
          && (HoldsContents(w.names, Named(stem), expected.value) && Reserves(stem, attempts, w) ==>
                && made.Some? && made.value.expected == w.names[Named(stem)] && r == Success(Written)
                && CompletedExactly(made.value, w.names, v.names))
          && (!HoldsContents(w.names, Named(stem), expected.value) ==>
                r == Success(ConditionalWrite.Changed) && v.names == w.names))
  }

  predicate HoldsContents(n: Names, p: Path, contents: Contents) {
    p in n && n[p].contents == contents
  }

  lemma IdleSinceReading(stem: string, attempts: seq<Attempt>, expected: Option<Contents>, contents: Contents,
                         w0: World, w1: World, v: World, made: Option<Transaction>, r: Result<ConditionalWrite>)
    requires Valid(w0) && Between(w0, w1) && w0.env.contested == Named(stem)
    requires made.Some? ==> made.value.stem == stem
    requires IdleOutcome(stem, attempts, expected, contents, w1, v, made, r)
    ensures IdleOutcome(stem, attempts, expected, contents, w0, v, made, r)
  {
    if expected.None? {
      CreationSinceReading(stem, contents, w0, w1, v, r);
    } else if made.Some? {
      OutcomeSinceReading(made.value, w0, w1, v, r);
    } else {
      PreparingSinceReading(stem, w0, w1, v);
      LeavesNothingSince(stem, w0, w1, v);
    }
  }

  /** A recovery that failed, from a directory that held no record. */
  lemma IdleRefused(stem: string, attempts: seq<Attempt>, expected: Option<Contents>, contents: Contents,
                    w: World, v: World, r: Result<ConditionalWrite>)
    requires Valid(w) && Valid(v) && Between(w, v) && w.env.contested == Named(stem) && r.Failure? && !Calm(w)
    ensures IdleOutcome(stem, attempts, expected, contents, w, v, None, r)
  {
  }

  /** The live file is not the expected one. */
  lemma IdleChanged(stem: string, attempts: seq<Attempt>, expected: Contents, contents: Contents, w: World, v: World)
    requires Valid(w) && Valid(v) && Between(w, v) && w.env.contested == Named(stem)
    requires Calm(w) ==> !HoldsContents(w.names, Named(stem), expected)
    ensures IdleOutcome(stem, attempts, Some(expected), contents, w, v, None, Success(ConditionalWrite.Changed))
  {
    PreparingBegins(stem, w);
    PreparingBetween(stem, w, w, v);
  }

  lemma IdlePublished(stem: string, attempts: seq<Attempt>, token: FileToken, contents: Contents, w: World, v: World,
                      made: Option<Transaction>, r: Result<ConditionalWrite>)
    requires made.None? ==> r.Failure? && Preparing(stem, w, v) && LeavesNothing(stem, w, v)
    requires made.Some? ==> WriteOutcome(made.value, w, v, r) && made.value.expected == token
    requires !w.env.foreign ==> At(w.names, Named(stem)) == Some(token)
    requires Calm(w) && Reserves(stem, attempts, w) ==>
               made.Some? && r == Success(Written) && CompletedExactly(made.value, w.names, v.names)
    ensures IdleOutcome(stem, attempts, Some(token.contents), contents, w, v, made, r)
  {
  }

  /** No file foreign writers are owed in `w` is one the earlier transaction
      recorded, and none is left under its candidate name. */
  ghost predicate TrulyForeign(earlier: Transaction, w: World) {
    forall f :: f in w.owed ==> f !in earlier.Tokens() && At(w.names, earlier.candidate) != Some(f)
  }

  /** What the recovery before a write did, begun in `w` and ended in `v`. */
  ghost predicate Recovered(earlier: Option<Transaction>, w: World, v: World) {
    if earlier.None? then Between(w, v)
    else WellFormed(w.env, earlier.value) && HasRecord(earlier.value, w.names) && Settled(earlier.value, w, v, true)
  }

  /** After a recovery that succeeded, the files it was told to keep are live. */
  lemma RecoveredOwed(stem: string, earlier: Transaction, w: World, v: World)
    requires Recovered(Some(earlier), w, v) && earlier.stem == stem && earlier.displaced !in v.names
    requires OwedSafe(earlier, w) && TrulyForeign(earlier, v)
    ensures OwedLive(stem, v)
  {
  }

  /** The recovery every write begins with. */
  method RecoverEarlier(disk: Disk, stem: string) returns (r: Result<()>, ghost earlier: Option<Transaction>)
    requires Valid(disk.w) && disk.w.env.contested == Named(stem)
    modifies disk
    ensures Valid(disk.w) && Onward(old(disk.w), disk.w)
    ensures Recovered(earlier, old(disk.w), disk.w) && (earlier.Some? ==> earlier.value.stem == stem)
    ensures r.Success? ==> Named(RecordName(stem)) !in disk.w.names
    ensures r.Success? && earlier.Some? ==> earlier.value.displaced !in disk.w.names
    ensures Named(RecordName(stem)) !in old(disk.w).names ==>
              Between(old(disk.w), disk.w) && (Calm(old(disk.w)) ==> r.Success?)
  {
    ghost var unknown: Transaction := *;
    r, earlier := RecoverInterruptedAuthPublication(disk, stem, unknown, disk.w.names);
  }

  /** atomic_write_private_if_unchanged. `made` is the transaction under which
      an existing live file was to be replaced, once its names were taken;
      `earlier` the one whose record was found first, and `between` the world
      its recovery ended in. */
  method AtomicWritePrivateIfUnchanged(disk: Disk, stem: string, attempts: seq<Attempt>, expected: Option<Contents>, contents: Contents)
    returns (r: Result<ConditionalWrite>, ghost made: Option<Transaction>, ghost earlier: Option<Transaction>, ghost between: World)
    requires Valid(disk.w) && disk.w.env.contested == Named(stem) && |attempts| == UNIQUE_NAME_ATTEMPTS
    modifies disk
    ensures Valid(disk.w) && Onward(old(disk.w), disk.w)
    ensures made.Some? ==>
              && expected.Some? && made.value.expected.contents == expected.value
              && Replaces(disk.w.env, made.value, stem, made.value.expected, contents)
    ensures r == Success(Written) && expected.Some? ==> made.Some? && TrueSwap(made.value, old(disk.w), disk.w)
    ensures r == Success(Written) && expected.None? ==> TrueCreation(stem, contents, old(disk.w), disk.w)
    ensures made.Some? ==> AnswersTruly(made.value, old(disk.w), disk.w, r)
    ensures expected.None? ==>
              && (r == Success(ConditionalWrite.PublishedRecoveryRequired) ==> TrueCreation(stem, contents, old(disk.w), disk.w))
              && r != Success(ConditionalWrite.RestoredRecoveryRequired)
    ensures Named(RecordName(stem)) !in old(disk.w).names ==>
              IdleOutcome(stem, attempts, expected, contents, old(disk.w), disk.w, made, r)
    ensures Onward(old(disk.w), between) && Recovered(earlier, old(disk.w), between)
    ensures WentOn(stem, attempts, expected, contents, between, disk.w, made, r)
    ensures made.Some? && earlier.Some? && OwedSafe(earlier.value, old(disk.w)) && TrulyForeign(earlier.value, between) ==>
              OwedOutcome(made.value, disk.w, r)
  {
    ghost var w0 := disk.w;
    r, made, earlier, between := RecoverThenWrite(disk, stem, attempts, expected, contents);
    if Named(RecordName(stem)) !in w0.names {
      IdleThroughout(stem, attempts, expected, contents, w0, between, disk.w, made, r);
    }
    WrittenThroughout(stem, attempts, expected, contents, w0, between, disk.w, made, r);
    AnsweredThroughout(stem, attempts, expected, contents, w0, between, disk.w, made, r);
    if made.Some? && earlier.Some? {
      OwedThroughout(stem, attempts, expected, contents, earlier.value, w0, between, disk.w, made.value, r);
    }
  }

  lemma WrittenThroughout(stem: string, attempts: seq<Attempt>, expected: Option<Contents>, contents: Contents,
                          w0: World, w1: World, v: World, made: Option<Transaction>, r: Result<ConditionalWrite>)
    requires w0.history <= w1.history && WentOn(stem, attempts, expected, contents, w1, v, made, r)
    ensures r == Success(Written) && expected.Some? ==> made.Some? && TrueSwap(made.value, w0, v)
    ensures r == Success(Written) && expected.None? ==> TrueCreation(stem, contents, w0, v)
  {
    WrittenSince(stem, expected, contents, w0, w1, v, made, r);
  }

  lemma AnsweredThroughout(stem: string, attempts: seq<Attempt>, expected: Option<Contents>, contents: Contents,
                           w0: World, w1: World, v: World, made: Option<Transaction>, r: Result<ConditionalWrite>)
    requires w0.history <= w1.history && WentOn(stem, attempts, expected, contents, w1, v, made, r)
    ensures made.Some? ==> AnswersTruly(made.value, w0, v, r)
    ensures expected.None? ==>
              && (r == Success(ConditionalWrite.PublishedRecoveryRequired) ==> TrueCreation(stem, contents, w0, v))
              && r != Success(ConditionalWrite.RestoredRecoveryRequired)
  {
    if made.Some? {
      AnswersSince(made.value, w0, w1, v, r);
    } else if expected.None? && r == Success(ConditionalWrite.PublishedRecoveryRequired) {
      TrueCreationSince(stem, contents, w0, w1, v);
    }
  }

  lemma OwedThroughout(stem: string, attempts: seq<Attempt>, expected: Option<Contents>, contents: Contents, earlier: Transaction,
                       w0: World, w1: World, v: World, made: Transaction, r: Result<ConditionalWrite>)
    requires WentOn(stem, attempts, expected, contents, w1, v, Some(made), r) && made.stem == stem
    requires Recovered(Some(earlier), w0, w1) && earlier.stem == stem && earlier.displaced !in w1.names
    ensures OwedSafe(earlier, w0) && TrulyForeign(earlier, w1) ==> OwedOutcome(made, v, r)
  {
    if OwedSafe(earlier, w0) && TrulyForeign(earlier, w1) {
      RecoveredOwed(stem, earlier, w0, w1);
    }
  }

  /** The write was refused because recovery failed in `w`, or went on from there. */
  ghost predicate WentOn(stem: string, attempts: seq<Attempt>, expected: Option<Contents>, contents: Contents,
                         w: World, v: World, made: Option<Transaction>, r: Result<ConditionalWrite>)
  {
    || (r.Failure? && made.None? && v == w)
    || (Named(RecordName(stem)) !in w.names && IdleOutcome(stem, attempts, expected, contents, w, v, made, r))
  }

  method RecoverThenWrite(disk: Disk, stem: string, attempts: seq<Attempt>, expected: Option<Contents>, contents: Contents)
    returns (r: Result<ConditionalWrite>, ghost made: Option<Transaction>, ghost earlier: Option<Transaction>, ghost between: World)
    requires Valid(disk.w) && disk.w.env.contested == Named(stem) && |attempts| == UNIQUE_NAME_ATTEMPTS
    modifies disk
    ensures Valid(disk.w) && Valid(between) && Onward(old(disk.w), between) && Onward(between, disk.w)
    ensures made.Some? ==>
              && expected.Some? && made.value.expected.contents == expected.value
              && Replaces(disk.w.env, made.value, stem, made.value.expected, contents)
    ensures Recovered(earlier, old(disk.w), between) && (earlier.Some? ==> earlier.value.stem == stem)
    ensures made.Some? && earlier.Some? ==> earlier.value.displaced !in between.names
    ensures WentOn(stem, attempts, expected, contents, between, disk.w, made, r)
    ensures Named(RecordName(stem)) !in old(disk.w).names ==>
              && Between(old(disk.w), between)
              && (Calm(old(disk.w)) ==> IdleOutcome(stem, attempts, expected, contents, between, disk.w, made, r))
  {
    made := None;
    var recovered;
    recovered, earlier := RecoverEarlier(disk, stem);
    between := disk.w;
    if recovered.Failure? {
      r := Failure(recovered.error);
    } else {
      r, made := WriteRecovered(disk, stem, attempts, expected, contents);
    }
  }

  lemma IdleThroughout(stem: string, attempts: seq<Attempt>, expected: Option<Contents>, contents: Contents,
                       w0: World, w1: World, v: World, made: Option<Transaction>, r: Result<ConditionalWrite>)
    requires Valid(w0) && Valid(v) && Between(w0, w1) && w0.env.contested == Named(stem)
    requires made.Some? ==> made.value.stem == stem
    requires WentOn(stem, attempts, expected, contents, w1, v, made, r)
    requires Calm(w0) ==> IdleOutcome(stem, attempts, expected, contents, w1, v, made, r)
    ensures IdleOutcome(stem, attempts, expected, contents, w0, v, made, r)
  {
    if IdleOutcome(stem, attempts, expected, contents, w1, v, made, r) {
      IdleSinceReading(stem, attempts, expected, contents, w0, w1, v, made, r);
    } else {
      IdleRefused(stem, attempts, expected, contents, w0, v, r);
    }
  }

  lemma WrittenSince(stem: string, expected: Option<Contents>, contents: Contents, w0: World, w1: World, v: World,
                     made: Option<Transaction>, r: Result<ConditionalWrite>)
    requires w0.history <= w1.history && (r == Success(Written) && expected.Some? ==> made.Some?)
    requires r == Success(Written) ==> if expected.None? then TrueCreation(stem, contents, w1, v) else TrueSwap(made.value, w1, v)
    ensures r == Success(Written) ==> if expected.None? then TrueCreation(stem, contents, w0, v) else TrueSwap(made.value, w0, v)
  {
    if r == Success(Written) {
      if expected.None? {
        TrueCreationSince(stem, contents, w0, w1, v);
      } else {
        TrueSwapSince(made.value, w0, w1, v);
      }
    }
  }

  /** atomic_write_private_if_unchanged after recovery */
  method WriteRecovered(disk: Disk, stem: string, attempts: seq<Attempt>, expected: Option<Contents>, contents: Contents)
    returns (r: Result<ConditionalWrite>, ghost made: Option<Transaction>)
    requires Valid(disk.w) && disk.w.env.contested == Named(stem) && |attempts| == UNIQUE_NAME_ATTEMPTS
    requires Named(RecordName(stem)) !in disk.w.names
    modifies disk
    ensures Onward(old(disk.w), disk.w)
    ensures made.Some? ==>
              && expected.Some? && made.value.expected.contents == expected.value
              && Replaces(disk.w.env, made.value, stem, made.value.expected, contents)
    ensures IdleOutcome(stem, attempts, expected, contents, old(disk.w), disk.w, made, r)
  {
    if expected.None? {
      made := None;
      r := CreateLive(disk, stem, contents);
    } else {
      r, made := WriteExisting(disk, stem, attempts, expected.value, contents);
    }
  }

  /** The live file, read while no record is there. */
  method ReadIdle(disk: Disk, stem: string) returns (live: Result<Option<FileToken>>)
    requires Valid(disk.w) && disk.w.env.contested == Named(stem) && Named(RecordName(stem)) !in disk.w.names
    modifies disk
    ensures Valid(disk.w) && Between(old(disk.w), disk.w) && Named(RecordName(stem)) !in disk.w.names
    ensures live.Success? ==> live.value == At(disk.w.names, Named(stem))
    ensures live.Success? && live.value.Some? ==> live.value.value.identity < disk.w.nextIdentity
    ensures Calm(old(disk.w)) ==> live.Success?
  {
    ghost var w0 := disk.w;
    live := disk.TokenIfPresent(Named(stem));
    PrivateNamesUnmanaged(stem, "publication");
    assert At(disk.w.names, Named(RecordName(stem))) == At(w0.names, Named(RecordName(stem)));
  }

  /** atomic_write_private_if_unchanged after recovery, when a live file is expected. */
  method WriteExisting(disk: Disk, stem: string, attempts: seq<Attempt>, expected: Contents, contents: Contents)
    returns (r: Result<ConditionalWrite>, ghost made: Option<Transaction>)
    requires Valid(disk.w) && disk.w.env.contested == Named(stem) && |attempts| == UNIQUE_NAME_ATTEMPTS
    requires Named(RecordName(stem)) !in disk.w.names
    modifies disk
    ensures Onward(old(disk.w), disk.w)
    ensures made.Some? ==>
              made.value.expected.contents == expected && Replaces(disk.w.env, made.value, stem, made.value.expected, contents)
    ensures IdleOutcome(stem, attempts, Some(expected), contents, old(disk.w), disk.w, made, r)
  {
    ghost var w0 := disk.w;
    var live := ReadIdle(disk, stem);
    if live.Failure? {
      IdleRefused(stem, attempts, Some(expected), contents, w0, disk.w, Failure(live.error));
      return Failure(live.error), None;
    }
    if live.value.None? || !MatchesBytes(live.value.value, expected) {
      IdleChanged(stem, attempts, expected, contents, w0, disk.w);
      return Success(ConditionalWrite.Changed), None;
    }
    ghost var w1 := disk.w;
    r, made := PublishIdle(disk, stem, attempts, live.value.value, contents);
    IdleSinceReading(stem, attempts, Some(expected), contents, w0, w1, disk.w, made, r);
  }

  method PublishIdle(disk: Disk, stem: string, attempts: seq<Attempt>, expected: FileToken, contents: Contents)
    returns (r: Result<ConditionalWrite>, ghost made: Option<Transaction>)
    requires Valid(disk.w) && disk.w.env.contested == Named(stem) && |attempts| == UNIQUE_NAME_ATTEMPTS
    requires Named(RecordName(stem)) !in disk.w.names && At(disk.w.names, Named(stem)) == Some(expected)
    requires expected.identity < disk.w.nextIdentity
    modifies disk
    ensures Onward(old(disk.w), disk.w)
    ensures made.Some? ==> Replaces(disk.w.env, made.value, stem, expected, contents)
    ensures IdleOutcome(stem, attempts, Some(expected.contents), contents, old(disk.w), disk.w, made, r)
  {
    ghost var w1 := disk.w;
    r, made := PublishExisting(disk, stem, attempts, expected, contents);
    IdlePublished(stem, attempts, expected, contents, w1, disk.w, made, r);
  }
}
