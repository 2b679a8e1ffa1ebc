/** A write from its first step to the last recovery (src/auth.rs): one attempt
    that may stop anywhere, then any number of interrupted recoveries. */
module Convergence {
  import opened Namespace
  import opened BackupNames
  import opened Transactions
  import opened Phases
  import opened Settlement
  import opened Records
  import opened Recovery
  import opened Staging
  import opened Publication
  import opened PartialReplace

  /** No publication is under way and the live file is `f`, whatever a power
      loss may leave. */
  ghost predicate Resting(stem: string, f: File, w: World) {
    && Valid(w) && !w.env.foreign && w.env.contested == Named(stem) && f.identity in w.flushed
    && At(w.names, Named(stem)) == Some(f) && Named(RecordName(stem)) !in w.names
    && (w.env.platform.Unix? ==>
          forall s :: s in w.survivors ==> At(s, Named(stem)) == Some(f) && Named(RecordName(stem)) !in s)
  }

  lemma RestingRestarts(stem: string, f: File, w: World, v: World, powerLoss: bool)
    requires Resting(stem, f, w) && Valid(v) && v.env == w.env.(faults := v.env.faults) && v.flushed == w.flushed
    requires !powerLoss ==> v.names == w.names && v.survivors == w.survivors
    requires powerLoss ==> w.env.platform.Unix? && AfterPowerLoss(w, v.names) && v.survivors == {v.names}
    ensures Resting(stem, f, v)
  {
  }

  /** What one attempt of a write that ended in `w1`, and any recovery since,
      has come to. */
  ghost predicate Underway(made: Option<Transaction>, stem: string, f: File, w0: World, w1: World, w: World, powerLost: bool) {
    if made.None? then Resting(stem, f, w)
    else
      && made.value.stem == stem && SameContents(made.value.backupToken, made.value.expected)
      && (if Named(stem) in w1.names
          then Converging(made.value, w0.names, w1, w, powerLost) && DataOnDisk(made.value, w)
          else Stranded(made.value, w1, w))
  }

  /** What a recovery that nobody cuts short comes to, begun in `w` and ended in `v`. */
  ghost predicate Ended(made: Option<Transaction>, stem: string, w0: World, w1: World, w: Names, v: Names, r: Result<()>) {
    && (made.None? || Named(stem) in w1.names ==> r.Success?)
    && (made.Some? && Named(stem) in w1.names ==>
          Converged(made.value, w0.names, v) && CleanUnlessLeaked(made.value, w0.names, w, v))
    && (made.Some? && Named(stem) !in w1.names ==>
          (OldBytesKept(made.value, v) <==> BytesSurvive(made.value, w)) && CandidateLeft(made.value, w, v))
  }

  /** Start again after a crash or a power loss, and recover. */
  method RestartAndRecover(disk: Disk, stem: string, powerLoss: bool, faults: bool, ghost made: Option<Transaction>,
                           ghost f: File, ghost w0: World, ghost w1: World, ghost powerLost: bool)
    returns (r: Result<()>)
    requires Underway(made, stem, f, w0, w1, disk.w, powerLost) && (powerLoss ==> disk.w.env.platform.Unix?)
    modifies disk
    ensures Underway(made, stem, f, w0, w1, disk.w, powerLost || powerLoss)
    ensures disk.w.env.platform == old(disk.w).env.platform
    ensures !faults && !powerLoss ==> Ended(made, stem, w0, w1, old(disk.w).names, disk.w.names, r)
  {
    ghost var t: Transaction := *;
    if made.Some? {
      t := made.value;
    }
    ghost var w2 := disk.w;
    disk.Restart(powerLoss, faults);
    ghost var w3 := disk.w;
    UnderwayRestarts(made, stem, f, w0, w1, w2, w3, powerLost, powerLoss);
    ghost var parsed;
    r, parsed := RecoverInterruptedAuthPublication(disk, stem, t, w0.names);
    if made.Some? {
      UnderwayRecovers(t, stem, f, w0, w1, w3, disk.w, powerLost || powerLoss, r);
    }
  }

  lemma UnderwayRestarts(made: Option<Transaction>, stem: string, f: File, w0: World, w1: World, w: World, v: World,
                         powerLost: bool, powerLoss: bool)
    requires Underway(made, stem, f, w0, w1, w, powerLost) && (powerLoss ==> w.env.platform.Unix?)
    requires Valid(v) && v.env == w.env.(faults := v.env.faults) && v.flushed == w.flushed
    requires !powerLoss ==> v.names == w.names && v.survivors == w.survivors
    requires powerLoss ==> AfterPowerLoss(w, v.names) && v.survivors == {v.names}
    ensures Underway(made, stem, f, w0, w1, v, powerLost || powerLoss)
  {
    if made.None? {
      RestingRestarts(stem, f, w, v, powerLoss);
    } else if Named(stem) in w1.names {
      ConvergingRestarts(made.value, w0.names, w1, w, v, powerLost, powerLoss);
    }
  }

  lemma UnderwayRecovers(t: Transaction, stem: string, f: File, w0: World, w1: World, w: World, v: World, powerLost: bool,
                         r: Result<()>)
    requires Underway(Some(t), stem, f, w0, w1, w, powerLost) && Valid(v) && Onward(w, v)
    requires RecoveryOutcome(t, w0.names, w, v, r) && ResolvedAsClassified(t, w, v, r)
    requires t.record !in w.names ==> v.names == w.names && (Calm(w) ==> r.Success?)
    requires r.Success? ==> t.record !in v.names
    ensures Underway(Some(t), stem, f, w0, w1, v, powerLost)
    ensures Calm(w) ==> Ended(Some(t), stem, w0, w1, w.names, v.names, r)
  {
    if Named(stem) in w1.names {
      ConvergingRecovers(t, w0.names, w1, w, v, powerLost, r);
      if Calm(w) {
        ConvergesAtLast(t, w0.names, w1, w, v, powerLost, r);
      }
    } else {
      RecordAcceptedIff(w.env, stem, t.recordToken.contents.record, t.recordToken);
      StrandedRecovers(t, w1, w, v, r);
      if Calm(w) {
        StrandedSettles(t, w, v, r);
      }
    }
  }

  /** End to end, without foreign writers: a conditional write is started on a
      resting directory; it may stop after any step, leaving `left`, and each of
      any number of recoveries may again be cut short by a crash or, on Unix, a
      power loss. The last one begins in `last` and runs undisturbed.

      If nothing was published, the very old file is live. If a file was live
      when the write stopped, the publication converged: the record is gone and
      exactly the old or exactly the new file is live, the new one with its
      backup unless three others outrank it. Every transaction name is gone
      exactly if `last` was not leaked, which without power loss is so exactly if
      `left` was not; and then the new one stays live, and the old one, once
      recorded, is left alone. Only Windows may leave no live file; then there is
      none at the end, and the old bytes are kept exactly if they survive `last`. */
  method WriteAndRecover(disk: Disk, stem: string, attempts: seq<Attempt>, expected: Contents, contents: Contents,
                         powerLosses: seq<bool>)
    returns (r: Result<()>, ghost made: Option<Transaction>, ghost left: Names, ghost last: Names)
    requires Valid(disk.w) && Named(stem) in disk.w.names && |attempts| == UNIQUE_NAME_ATTEMPTS
    requires Resting(stem, disk.w.names[Named(stem)], disk.w) && (disk.w.env.platform.Unix? ==> Quiet(stem, disk.w))
    requires true in powerLosses ==> disk.w.env.platform.Unix?
    modifies disk
    ensures made.None? ==> r.Success? && At(disk.w.names, Named(stem)) == At(old(disk.w).names, Named(stem))
    ensures made.Some? ==>
              && Some(made.value.expected) == At(old(disk.w).names, Named(stem))
              && made.value.expected.contents == expected && made.value.candidateToken.contents == contents
              && made.value.backupToken.contents == expected
    ensures made.Some? && Named(stem) in left ==>
              && r.Success? && Converged(made.value, old(disk.w).names, disk.w.names)
              && CleanUnlessLeaked(made.value, old(disk.w).names, last, disk.w.names)
              && (true !in powerLosses ==> (Leaked(made.value, last) <==> Leaked(made.value, left)))
    ensures made.Some? && true !in powerLosses ==>
              && (At(left, Named(stem)) == Some(made.value.candidateToken) ==>
                    CompletedNew(made.value, old(disk.w).names, disk.w.names))
              && (At(left, Named(stem)) == Some(made.value.expected) && HasRecord(made.value, left) ==>
                    RestoredOld(made.value, disk.w.names))
    ensures made.Some? && Named(stem) !in left ==>
              && disk.w.env.platform.Windows? && Named(stem) !in disk.w.names
              && (OldBytesKept(made.value, disk.w.names) <==> BytesSurvive(made.value, last))
              && CandidateLeft(made.value, last, disk.w.names)
  {
    ghost var w0 := disk.w;
    ghost var f := disk.w.names[Named(stem)];
    var written;
    ghost var earlier, between;
    written, made, earlier, between := AtomicWritePrivateIfUnchanged(disk, stem, attempts, Some(expected), contents);
    ghost var w1 := disk.w;
    left := w1.names;
    WriteUnderway(stem, attempts, expected, contents, w0, w1, made, written, f);
    r, last := RecoverRepeatedly(disk, stem, powerLosses, made, f, w0, w1);
  }

  /** Recoveries cut short, and a last one that is not. */
  method RecoverRepeatedly(disk: Disk, stem: string, powerLosses: seq<bool>, ghost made: Option<Transaction>,
                           ghost f: File, ghost w0: World, ghost w1: World)
    returns (r: Result<()>, ghost last: Names)
    requires Underway(made, stem, f, w0, w1, disk.w, false)
    requires true in powerLosses ==> disk.w.env.platform.Unix?
    modifies disk
    ensures Underway(made, stem, f, w0, w1, disk.w, true in powerLosses)
    ensures Ended(made, stem, w0, w1, last, disk.w.names, r)
    ensures made.Some? && Named(stem) in w1.names && true !in powerLosses ==>
              (Leaked(made.value, last) <==> Leaked(made.value, w1.names))
    ensures disk.w.env.platform == old(disk.w).env.platform
  {
    ghost var platform := disk.w.env.platform;
    for i := 0 to |powerLosses|
      invariant Underway(made, stem, f, w0, w1, disk.w, true in powerLosses[..i])
      invariant disk.w.env.platform == platform
    {
      assert powerLosses[..i + 1] == powerLosses[..i] + [powerLosses[i]];
      r := RestartAndRecover(disk, stem, powerLosses[i], true, made, f, w0, w1, true in powerLosses[..i]);
    }
    assert powerLosses[..|powerLosses|] == powerLosses;
    last := disk.w.names;
    r := RestartAndRecover(disk, stem, false, false, made, f, w0, w1, true in powerLosses);
  }

  lemma WriteUnderway(stem: string, attempts: seq<Attempt>, expected: Contents, contents: Contents, w0: World, w1: World,
                      made: Option<Transaction>, r: Result<ConditionalWrite>, f: File)
    requires Resting(stem, f, w0) && (w0.env.platform.Unix? ==> Quiet(stem, w0))
    requires IdleOutcome(stem, attempts, Some(expected), contents, w0, w1, made, r) && Onward(w0, w1)
    requires made.Some? ==> Replaces(w1.env, made.value, stem, made.value.expected, contents)
    ensures Underway(made, stem, f, w0, w1, w1, false)
    ensures made.Some? ==> made.value.expected == f
    ensures made.Some? && Named(stem) in w1.names ==> Sound(made.value, w0.names, w1)
  {
    if made.None? {
      assert At(w1.names, Named(RecordName(stem))) == At(w0.names, Named(RecordName(stem)));
    } else if Named(stem) !in w1.names {
      assert LiveMissing(made.value, w0.names, w1.names);
      assert OnlyDisplacement(made.value, w1.names);
    }
  }
}
