/** Crash recovery (src/auth.rs, recover_interrupted_auth_publication), and why
    it converges however often it is itself interrupted. */
module Recovery {
  import opened Namespace
  import opened BackupNames
  import opened Retention
  import opened Transactions
  import opened Phases
  import opened Settlement
  import opened Records

  /** read_publication_record: the record and the token it was read under. */
  method ReadPublicationRecord(disk: Disk, stem: string) returns (r: Result<Option<(PublicationRecord, FileToken)>>)
    requires Valid(disk.w) && disk.w.env.contested == Named(stem)
    modifies disk
    ensures Valid(disk.w) && Between(old(disk.w), disk.w) && OnlySaw(old(disk.w), disk.w)
    ensures r.Success? && r.value.None? ==> Named(RecordName(stem)) !in disk.w.names
    ensures r.Success? && r.value.Some? ==>
              && At(disk.w.names, Named(RecordName(stem))) == Some(r.value.value.1)
              && r.value.value.1.contents == Encoded(r.value.value.0)
    ensures !disk.w.env.faults && !old(disk.w).stopped ==>
              match At(old(disk.w).names, Named(RecordName(stem)))
              case None => r == Success(None)
              case Some(f) => f.contents.Encoded? ==> r == Success(Some((f.contents.record, f)))
  {
    ghost var w0 := disk.w;
    var path := Named(RecordName(stem));
    PrivateNamesUnmanaged(stem, "publication");
    var before :- disk.TokenIfPresent(path);
    ghost var w1 := disk.w;
    assert At(w1.names, path) == At(w0.names, path);
    if before.None? {
      return Success(None);
    }
    var after := disk.TokenIfPresent(path);
    BetweenTwice(w0, w1, disk.w);
    assert At(disk.w.names, path) == At(w0.names, path);
    if after.Failure? {
      return Failure(after.error);
    }
    if after.value != before {
      return Failure(Refused);
    }
    match before.value.contents
    case Raw(_) => return Failure(Refused);
    case Encoded(record) => return Success(Some((record, before.value)));
  }

  /** `t` is the transaction its own record names. */
  ghost predicate Describes(env: Surroundings, t: Transaction) {
    && env.contested == t.Live() && t.record == Named(RecordName(t.stem))
    && t.recordToken.contents.Encoded?
    && ParsePublicationRecord(env.platform, t.stem, t.recordToken.contents.record, t.recordToken) == Success(t)
  }

  /** A settlement that began after some readings began with them. */
  lemma ReadThenSettled(t: Transaction, w0: World, w1: World, w: World)
    requires WellFormed(w0.env, t) && Valid(w0) && Between(w0, w1) && OnlySaw(w0, w1) && Settled(t, w1, w, true)
    ensures Settled(t, w0, w, true)
  {
    StemIsUnmanaged(t.stem);
    forall p: Path
      ensures Outranked(t.stem, WithBackup(t, w1.names), p) <==> Outranked(t.stem, WithBackup(t, w0.names), p)
    {
      forall q | KeyOf(t.stem, q).Some?
        ensures q in WithBackup(t, w1.names) <==> q in WithBackup(t, w0.names)
      {
        assert At(w1.names, q) == At(w0.names, q);
      }
      assert Above(t.stem, WithBackup(t, w1.names), p) == Above(t.stem, WithBackup(t, w0.names), p);
    }
    forall p | p != t.Live() && p != t.displaced && p != t.candidate && Drawn(p, w0.draws)
      ensures Kept(t, w0.names, w.names, true, p)
    {
      assert At(w1.names, p) == At(w0.names, p) && Drawn(p, w1.draws);
      assert Kept(t, w1.names, w.names, true, p);
    }
    forall i | |w0.history| <= i < |w.history|
      ensures FrameEvent(t, w0.names, true, w.history[i])
    {
      if i < |w1.history| {
        assert w.history[i] == w1.history[i];
      } else {
        FrameEventAgrees(t, w0, w1, w.history[i]);
      }
    }
    if OwedSafe(t, w0) {
      assert At(w1.names, t.displaced) == At(w0.names, t.displaced) && At(w1.names, t.candidate) == At(w0.names, t.candidate);
    }
  }

  lemma FrameEventAgrees(t: Transaction, w0: World, w1: World, e: Event)
    requires WellFormed(w0.env, t) && Between(w0, w1) && FrameEvent(t, w1.names, true, e)
    requires forall p: Path ::
               Outranked(t.stem, WithBackup(t, w1.names), p) <==> Outranked(t.stem, WithBackup(t, w0.names), p)
    ensures FrameEvent(t, w0.names, true, e)
  {
    StemIsUnmanaged(t.stem);
    if e.Unlinked? && RetentionEvent(t.stem, WithBackup(t, w1.names), e) {
      var a :| a in WithBackup(t, w1.names) && Outranked(t.stem, WithBackup(t, w1.names), a)
               && WithBackup(t, w1.names)[a] == e.file;
      assert a != t.Live();
      assert At(w1.names, a) == At(w0.names, a);
      assert a in WithBackup(t, w0.names) && WithBackup(t, w0.names)[a] == e.file;
      assert Outranked(t.stem, WithBackup(t, w0.names), a);
    }
  }

  /** What recovery does to an undisturbed directory of `t`. */
  ghost predicate RecoveryOutcome(t: Transaction, m: Names, w: World, v: World, r: Result<()>) {
    !w.env.foreign && Sound(t, m, w) ==>
      && Sound(t, m, v)
      && (HasRecord(t, w.names) && OldSide(t, m, w.names) ==>
            OldSide(t, m, v.names) && (t.record in v.names || RestoredOld(t, v.names)))
      && (HasRecord(t, w.names) && NewSide(t, m, w.names) ==> NewSide(t, m, v.names))
      && (!HasRecord(t, w.names) ==> v.names == w.names)
      && (r.Success? ==> t.record !in v.names)
      && (Calm(w) && SameContents(t.backupToken, t.expected) ==>
            r.Success? && (HasRecord(t, w.names) && NewSide(t, m, w.names) ==> BackupExact(t, m, v.names)))
  }

  /** What recovery does to any undisturbed directory under the record of `t`:
      what its classification says, as far as it gets. */
  ghost predicate ResolvedAsClassified(t: Transaction, w: World, v: World, r: Result<()>) {
    !w.env.foreign && HasRecord(t, w.names) ==>
      var decided := VerdictAt(w.env, t, w.names);
      && Progress(t, w.names, v.names, decided) && (!decided.DisplacedForeign? ==> LiveLeft(t, w, v))
      && (Calm(w) && SameContents(t.backupToken, t.expected) ==>
            && (r.Success? <==> CalmSettlement(t, w.names, decided, Unavailable) in {Published, LiveUnchanged})
            && (decided in {CompletePublished, CompleteSuperseded} ==> BackupExact(t, w.names, v.names)))
  }

  /** A recovery that only read. */
  lemma RecoveredByReading(t: Transaction, m: Names, w0: World, w: World, r: Result<()>)
    requires Between(w0, w)
    requires r.Success? ==> t.record !in w.names
    requires !w0.env.foreign && Sound(t, m, w0) && Calm(w0) ==> r.Success?
    requires Calm(w0) ==> !HasRecord(t, w0.names)
    ensures RecoveryOutcome(t, m, w0, w, r) && ResolvedAsClassified(t, w0, w, r)
  {
  }

  /** A directory under another transaction's record is not one of `t`. */
  lemma RecoveredAnother(t: Transaction, m: Names, w0: World, w: World, r: Result<()>)
    requires t.record in w0.names && !HasRecord(t, w0.names)
    ensures RecoveryOutcome(t, m, w0, w, r) && ResolvedAsClassified(t, w0, w, r)
  {
  }

  /** A recovery that read the record of `t` and settled it. */
  lemma RecoveredBySettling(t: Transaction, m: Names, w0: World, w1: World, w: World,
                            settled: Result<PublicationSettlement>, verdict: Option<Verdict>, r: Result<()>)
    requires Between(w0, w1) && HasRecord(t, w1.names)
    requires NewSideOutcome(t, m, w1, w, settled) && OldSideOutcome(t, m, w1, w, settled)
    requires CleanWhenSettled(t, w1, w, verdict, settled)
    requires r.Success? <==> settled in {Success(Published), Success(LiveUnchanged)}
    ensures RecoveryOutcome(t, m, w0, w, r)
  {
  }

  /** The transaction a readable record names, if there is one. */
  method FindTransaction(disk: Disk, stem: string, ghost t: Transaction) returns (r: Result<Option<Transaction>>)
    requires Valid(disk.w) && disk.w.env.contested == Named(stem)
    modifies disk
    ensures Valid(disk.w) && Between(old(disk.w), disk.w) && OnlySaw(old(disk.w), disk.w)
    ensures At(disk.w.names, Named(RecordName(stem))) == At(old(disk.w).names, Named(RecordName(stem)))
    ensures r == Success(None) ==> Named(RecordName(stem)) !in disk.w.names
    ensures r.Success? && r.value.Some? ==>
              && WellFormed(disk.w.env, r.value.value) && r.value.value.stem == stem
              && r.value.value.record == Named(RecordName(stem))
              && HasRecord(r.value.value, disk.w.names)
    ensures Describes(old(disk.w).env, t) && t.stem == stem && HasRecord(t, old(disk.w).names) && r.Success? ==>
              r.value == Some(t)
    ensures (Describes(old(disk.w).env, t) && t.stem == stem && !disk.w.env.faults && !old(disk.w).stopped
             && (t.record in old(disk.w).names ==> HasRecord(t, old(disk.w).names)))
            ==> r.Success?
    ensures !disk.w.env.faults && !old(disk.w).stopped && Named(RecordName(stem)) !in old(disk.w).names ==> r.Success?
  {
    ghost var w0 := disk.w;
    var found := ReadPublicationRecord(disk, stem);
    RecordUntouched(stem, w0, disk.w);
    if found.Failure? {
      return Failure(found.error);
    }
    if found.value.None? {
      return Success(None);
    }
    var (record, token) := found.value.value;
    RecordAcceptedIff(w0.env, stem, record, token);
    var parsed := ParsePublicationRecord(disk.w.env.platform, stem, record, token);
    if parsed.Failure? {
      return Failure(parsed.error);
    }
    return Success(Some(parsed.value));
  }

  /** recover_interrupted_auth_publication. `parsed` is the transaction a
      readable record named, if there was one. */
  method RecoverInterruptedAuthPublication(disk: Disk, stem: string, ghost t: Transaction, ghost m: Names)
    returns (r: Result<()>, ghost parsed: Option<Transaction>)
    requires Valid(disk.w) && disk.w.env.contested == Named(stem)
    modifies disk
    ensures parsed.None? ==> Valid(disk.w) && Between(old(disk.w), disk.w) && OnlySaw(old(disk.w), disk.w)
    ensures parsed.Some? ==>
              && WellFormed(disk.w.env, parsed.value) && parsed.value.stem == stem
              && HasRecord(parsed.value, old(disk.w).names)
              && Settled(parsed.value, old(disk.w), disk.w, true)
    ensures r.Success? ==> Named(RecordName(stem)) !in disk.w.names
    ensures r.Success? && parsed.Some? ==> parsed.value.displaced !in disk.w.names
    ensures Named(RecordName(stem)) !in old(disk.w).names ==>
              parsed.None? && (!disk.w.env.faults && !old(disk.w).stopped ==> r.Success?)
    ensures Describes(old(disk.w).env, t) && t.stem == stem ==>
              RecoveryOutcome(t, m, old(disk.w), disk.w, r) && ResolvedAsClassified(t, old(disk.w), disk.w, r)
  {
    ghost var w0 := disk.w;
    ghost var known := Describes(w0.env, t) && t.stem == stem;
    var found := FindTransaction(disk, stem, t);
    parsed := None;
    if found.Success? && found.value.Some? {
      parsed := found.value;
      r := Resolve(disk, found.value.value, m, w0);
      if known && !HasRecord(t, w0.names) {
        RecoveredAnother(t, m, w0, disk.w, r);
      }
      return;
    }
    r := if found.Failure? then Failure(found.error) else Success(());
    if known {
      RecoveredByReading(t, m, w0, disk.w, r);
    }
  }

  lemma RecordUntouched(stem: string, w0: World, w: World)
    requires Between(w0, w) && w0.env.contested == Named(stem)
    ensures At(w.names, Named(RecordName(stem))) == At(w0.names, Named(RecordName(stem)))
  {
  }

  /** The settlement recovery runs, without the witness of an open handle. */
  method Resolve(disk: Disk, t: Transaction, ghost m: Names, ghost w0: World) returns (r: Result<()>)
    requires Valid(w0) && Valid(disk.w) && WellFormed(w0.env, t) && HasRecord(t, disk.w.names)
    requires Between(w0, disk.w) && OnlySaw(w0, disk.w)
    modifies disk
    ensures Settled(t, w0, disk.w, true)
    ensures r.Success? ==> t.record !in disk.w.names && t.displaced !in disk.w.names
    ensures RecoveryOutcome(t, m, w0, disk.w, r) && ResolvedAsClassified(t, w0, disk.w, r)
  {
    ghost var w1 := disk.w;
    var settled;
    ghost var verdict;
    settled, verdict := SettleAuthPublication(disk, t, m, Unavailable);
    ReadThenSettled(t, w0, w1, disk.w);
    if settled.Failure? {
      r := Failure(settled.error);
    } else if settled.value in {Published, LiveUnchanged} {
      r := Success(());
    } else {
      r := Failure(Refused);
    }
    RecoveredBySettling(t, m, w0, w1, disk.w, settled, verdict, r);
    ResolvedBySettling(t, m, w0, w1, disk.w, settled, verdict, r);
  }

  lemma ResolvedBySettling(t: Transaction, m: Names, w0: World, w1: World, w: World,
                           settled: Result<PublicationSettlement>, verdict: Option<Verdict>, r: Result<()>)
    requires Between(w0, w1) && HasRecord(t, w1.names)
    requires settled.Success? <==> verdict.Some?
    requires settled.Success? ==> DispatchOutcome(t, m, w1, w, verdict.value, Unavailable, settled.value)
    requires settled.Success? && !w1.env.foreign ==> verdict.value == VerdictAt(w1.env, t, w1.names)
    requires settled.Failure? ==> Watched(t, m, w1, w) && !Calm(w1)
    requires r.Success? <==> settled in {Success(Published), Success(LiveUnchanged)}
    ensures ResolvedAsClassified(t, w0, w, r)
  {
  }

  // ----- convergence -------------------------------------------------------

  /** The data of every file the transaction records has reached the disk. */
  predicate DataOnDisk(t: Transaction, w: World) {
    && t.expected.identity in w.flushed && t.candidateToken.identity in w.flushed
    && t.backupToken.identity in w.flushed && t.recordToken.identity in w.flushed
  }

  /** Tearing unflushed data moves no name and touches no recorded file. */
  lemma TornKeepsSides(t: Transaction, m: Names, w: World, s: Names, n: Names)
    requires DataOnDisk(t, w) && TornFrom(s, n, w.flushed)
    ensures OldSide(t, m, s) ==> OldSide(t, m, n)
    ensures NewSide(t, m, s) ==> NewSide(t, m, n)
  {
    forall p: Path, f: File | f in t.Tokens()
      ensures At(s, p) == Some(f) ==> At(n, p) == Some(f)
    {
      assert p in s ==> p in n;
    }
    forall p: Path
      ensures p in n <==> p in s
    {
      assert p in n.Keys <==> p in s.Keys;
    }
  }

  /** After a process crash or a power loss, the started-again world is Sound. */
  lemma RestartKeepsSound(t: Transaction, m: Names, w: World, v: World, powerLoss: bool)
    requires Sound(t, m, w) && Valid(w) && v.env == w.env.(faults := v.env.faults)
    requires !powerLoss ==> v.names == w.names && v.survivors == w.survivors
    requires powerLoss ==> w.env.platform.Unix? && DataOnDisk(t, w)
    requires powerLoss ==> AfterPowerLoss(w, v.names) && v.survivors == {v.names}
    ensures Sound(t, m, v)
  {
    if powerLoss {
      SurvivorHasSide(t, m, w, v.names);
    }
  }

  /** Whatever a power loss leaves of a Sound directory is on one of the sides. */
  lemma SurvivorHasSide(t: Transaction, m: Names, w: World, n: Names)
    requires Sound(t, m, w) && Valid(w) && w.env.platform.Unix? && DataOnDisk(t, w) && AfterPowerLoss(w, n)
    ensures OldSide(t, m, n) || NewSide(t, m, n)
  {
    var s :| s in w.survivors && TornFrom(s, n, w.flushed);
    TornKeepsSides(t, m, w, s, n);
    assert OldSide(t, m, s) || NewSide(t, m, s);
  }

  /** Write-ahead durability: whatever a power loss leaves of an undisturbed
      publication, the old bytes are in it, and a live new credential has its
      record or its backup. The one exception is a completed publication whose
      new backup retention already removed, as ranking below three others. */
  lemma PowerLossIsWriteAhead(t: Transaction, m: Names, w: World, n: Names)
    requires Sound(t, m, w) && Valid(w) && w.env.platform.Unix? && SameContents(t.backupToken, t.expected)
    requires DataOnDisk(t, w) && AfterPowerLoss(w, n)
    ensures WriteAhead(t, n) <==> !(CompletedNew(t, m, n) && At(n, t.backup) != Some(t.backupToken))
    ensures !Outranked(t.stem, WithBackup(t, m), t.backup) ==> WriteAhead(t, n)
  {
    SurvivorHasSide(t, m, w, n);
    SidesAreWriteAhead(t, m, n);
  }

  /** Where a directory has been taken by any number of interrupted recoveries. */
  ghost predicate Converging(t: Transaction, m: Names, w0: World, w: World, powerLost: bool) {
    && Valid(w) && !w.env.foreign && Sound(t, m, w)
    && Describes(w.env, t)
    && w.env.platform == w0.env.platform && w.env.contested == w0.env.contested
    && w0.flushed <= w.flushed
    && (!powerLost && HasRecord(t, w0.names) && OldSide(t, m, w0.names) ==>
          OldSide(t, m, w.names) && (t.record in w.names || RestoredOld(t, w.names)))
    && (!powerLost && NewSide(t, m, w0.names) ==> NewSide(t, m, w.names))
    && (!powerLost ==> (Leaked(t, w.names) <==> Leaked(t, w0.names)))
  }

  lemma ConvergingRestarts(t: Transaction, m: Names, w0: World, w: World, v: World, powerLost: bool, powerLoss: bool)
    requires Converging(t, m, w0, w, powerLost) && Valid(v)
    requires v.env == w.env.(faults := v.env.faults) && v.flushed == w.flushed
    requires !powerLoss ==> v.names == w.names && v.survivors == w.survivors
    requires powerLoss ==> w.env.platform.Unix? && DataOnDisk(t, w)
    requires powerLoss ==> AfterPowerLoss(w, v.names) && v.survivors == {v.names}
    ensures Converging(t, m, w0, v, powerLost || powerLoss)
  {
    RestartKeepsSound(t, m, w, v, powerLoss);
  }

  lemma ConvergingRecovers(t: Transaction, m: Names, w0: World, w: World, v: World, powerLost: bool, r: Result<()>)
    requires Converging(t, m, w0, w, powerLost) && Valid(v) && Onward(w, v)
    requires RecoveryOutcome(t, m, w, v, r)
    ensures Converging(t, m, w0, v, powerLost)
  {
    RecoveryKeepsLeaked(t, m, w, v, r);
  }

  /** Recovery, finished or cut short, neither leaves role files without their
      record nor finds any. */
  lemma RecoveryKeepsLeaked(t: Transaction, m: Names, w: World, v: World, r: Result<()>)
    requires !w.env.foreign && Sound(t, m, w) && RecoveryOutcome(t, m, w, v, r)
    ensures Leaked(t, v.names) <==> Leaked(t, w.names)
    ensures Leaked(t, w.names) ==> v.names == w.names
  {
  }

  /** Nothing is left to recover and exactly one of the two credentials is live:
      the new one, with its backup unless three others outrank it, or the old
      one with none made. */
  ghost predicate Converged(t: Transaction, m: Names, n: Names) {
    || CompletedNew(t, m, n)
    || (At(n, t.Live()) == Some(t.expected) && t.record !in n && t.backup !in n)
  }

  lemma ConvergesAtLast(t: Transaction, m: Names, w0: World, w: World, v: World, powerLost: bool, r: Result<()>)
    requires Converging(t, m, w0, w, powerLost) && RecoveryOutcome(t, m, w, v, r)
    requires Calm(w) && SameContents(t.backupToken, t.expected)
    ensures r.Success? && Converged(t, m, v.names) && CleanUnlessLeaked(t, m, w.names, v.names)
  {
    RecoveryKeepsLeaked(t, m, w, v, r);
    assert Sound(t, m, v) && t.record !in v.names;
    assert OldSide(t, m, v.names) || NewSide(t, m, v.names);
  }

  /** Every transaction name is gone exactly if the last recovery, begun in `n`,
      found no role file without its record; what it found then stays for good. */
  ghost predicate CleanUnlessLeaked(t: Transaction, m: Names, n: Names, n': Names) {
    && (RestoredOld(t, n') || CompletedNew(t, m, n') <==> !Leaked(t, n))
    && (Leaked(t, n) ==> n' == n)
  }

  /** Crash convergence: from any directory an undisturbed publication passes
      through, recovery that is cut short any number of times, by process crashes
      or power losses, finally ends settled. Every transaction name is gone at
      the end exactly if `last`, where the last recovery began, was not leaked;
      without power loss that is so exactly if the first directory was not. When
      the process only crashed after the record was visible, it ends on the side
      it began on. */
  method RecoverAfterInterruptions(disk: Disk, ghost t: Transaction, ghost m: Names, stem: string, powerLosses: seq<bool>)
    returns (r: Result<()>, ghost last: Names)
    requires Valid(disk.w) && Describes(disk.w.env, t) && t.stem == stem && !disk.w.env.foreign
    requires Sound(t, m, disk.w) && SameContents(t.backupToken, t.expected)
    requires true in powerLosses ==> disk.w.env.platform.Unix? && DataOnDisk(t, disk.w)
    modifies disk
    ensures r.Success? && Converged(t, m, disk.w.names) && CleanUnlessLeaked(t, m, last, disk.w.names)
    ensures true !in powerLosses ==> (Leaked(t, last) <==> Leaked(t, old(disk.w).names))
    ensures true !in powerLosses && HasRecord(t, old(disk.w).names) && OldSide(t, m, old(disk.w).names) ==>
              RestoredOld(t, disk.w.names)
    ensures true !in powerLosses && NewSide(t, m, old(disk.w).names) ==> CompletedNew(t, m, disk.w.names)
  {
    ghost var w0 := disk.w;
    for i := 0 to |powerLosses|
      invariant Converging(t, m, w0, disk.w, true in powerLosses[..i])
    {
      assert powerLosses[..i + 1] == powerLosses[..i] + [powerLosses[i]];
      r := RecoverOnce(disk, t, m, stem, powerLosses[i], true, w0, true in powerLosses[..i]);
    }
    assert powerLosses[..|powerLosses|] == powerLosses;
    last := disk.w.names;
    r := RecoverOnce(disk, t, m, stem, false, false, w0, true in powerLosses);
  }

  /** Start again after a crash or a power loss, and recover. */
  method RecoverOnce(disk: Disk, ghost t: Transaction, ghost m: Names, stem: string, powerLoss: bool, faults: bool,
                     ghost w0: World, ghost powerLost: bool)
    returns (r: Result<()>)
    requires Converging(t, m, w0, disk.w, powerLost) && t.stem == stem
    requires powerLoss ==> disk.w.env.platform.Unix? && DataOnDisk(t, disk.w)
    modifies disk
    ensures Converging(t, m, w0, disk.w, powerLost || powerLoss)
    ensures !faults && SameContents(t.backupToken, t.expected) ==>
              && r.Success? && Converged(t, m, disk.w.names)
              && (!powerLoss ==> CleanUnlessLeaked(t, m, old(disk.w).names, disk.w.names))
  {
    ghost var w1 := disk.w;
    disk.Restart(powerLoss, faults);
    ConvergingRestarts(t, m, w0, w1, disk.w, powerLost, powerLoss);
    ghost var w2 := disk.w;
    ghost var parsed;
    r, parsed := RecoverInterruptedAuthPublication(disk, stem, t, m);
    ConvergingRecovers(t, m, w0, w2, disk.w, powerLost || powerLoss, r);
    if !faults && SameContents(t.backupToken, t.expected) {
      ConvergesAtLast(t, m, w0, w2, disk.w, powerLost || powerLoss, r);
    }
  }
}
