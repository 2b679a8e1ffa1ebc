/** The undisturbed directories without a live file (src/auth.rs on Windows):
    ReplaceFileW moved the live file aside and then failed to move the candidate
    in. No recovery brings a live file back, and one that is cut short between
    removing the displaced file and promoting its copy loses the old bytes. */
module PartialReplace {
  import opened Namespace
  import opened Retention
  import opened Transactions
  import opened Phases
  import opened Settlement
  import opened Records
  import opened Recovery
  import opened Publication
  import opened Examples

  /** The displaced file is still there, and so is everything else. */
  predicate OnlyDisplacement(t: Transaction, n: Names) {
    && t.Live() !in n && At(n, t.displaced) == Some(t.expected) && At(n, t.candidate) == Some(t.candidateToken)
    && StageWaits(t, n) && HasRecord(t, n)
  }

  /** The displaced file is gone and its copy was not promoted: recovery takes
      this for a publication that never happened. */
  predicate Abandoned(t: Transaction, n: Names) {
    && t.Live() !in n && t.displaced !in n && t.backup !in n
    && (t.candidate in n ==> At(n, t.candidate) == Some(t.candidateToken))
    && (t.backupStage in n ==> At(n, t.backupStage) == Some(t.backupToken) && t.candidate in n && t.record in n)
    && (t.record in n ==> HasRecord(t, n))
  }

  /** The displaced file is gone and its copy has the backup name. */
  predicate Rescued(t: Transaction, n: Names) {
    && t.Live() !in n && t.displaced !in n && BackupPromoted(t, n)
    && At(n, t.candidate) == Some(t.candidateToken) && (t.record in n ==> HasRecord(t, n))
  }

  predicate Missing(t: Transaction, n: Names) {
    OnlyDisplacement(t, n) || Abandoned(t, n) || Rescued(t, n)
  }

  /** What an abandoned or rescued directory stays. */
  ghost predicate StaysAs(t: Transaction, n0: Names, n: Names) {
    && (Abandoned(t, n0) ==> Abandoned(t, n))
    && (Rescued(t, n0) ==> RolesSame(t, n0, n))
  }

  /** Recovery takes the missing live file for a later writer's doing, then for
      an exchange that never took place, or gives up. */
  lemma MissingIsClassified(env: Surroundings, t: Transaction, n: Names)
    requires WellFormed(env, t) && env.platform.Windows? && Missing(t, n) && HasRecord(t, n)
    ensures VerdictAt(env, t, n) in {CompleteSuperseded, AbortUnpublished, OnlyRecordLeft, Verdict.Ambiguous}
    ensures OnlyDisplacement(t, n) <==> VerdictAt(env, t, n) == CompleteSuperseded
    ensures Rescued(t, n) <==> VerdictAt(env, t, n) == Verdict.Ambiguous
  {
  }

  /** A recovery that got so far leaves no live file and no way back. */
  lemma MissingStaysMissing(env: Surroundings, t: Transaction, n: Names, n': Names)
    requires WellFormed(env, t) && env.platform.Windows? && Missing(t, n) && HasRecord(t, n)
    requires Progress(t, n, n', VerdictAt(env, t, n)) && t.Live() !in n'
    ensures Missing(t, n') && StaysAs(t, n, n')
  {
    MissingIsClassified(env, t, n);
  }

  /** One settlement, finished or cut short, from any directory an undisturbed
      publication can leave under its record: it ends with one of the two
      credentials live exactly when one was live before. */
  method SettleWithOrWithoutLive(disk: Disk, t: Transaction, ghost m: Names) returns (r: Result<PublicationSettlement>)
    requires WellFormed(disk.w.env, t) && Valid(disk.w) && !disk.w.env.foreign && HasRecord(t, disk.w.names)
    requires Sound(t, m, disk.w) || (Missing(t, disk.w.names) && disk.w.env.platform.Windows?)
    modifies disk
    ensures At(disk.w.names, t.Live()) in {Some(t.expected), Some(t.candidateToken)} <==> t.Live() in old(disk.w).names
    ensures t.Live() !in old(disk.w).names ==> Missing(t, disk.w.names) && StaysAs(t, old(disk.w).names, disk.w.names)
  {
    ghost var w0 := disk.w;
    ghost var verdict;
    r, verdict := SettleAuthPublication(disk, t, m, Unavailable);
    if t.Live() !in w0.names {
      MissingIsClassified(w0.env, t, w0.names);
      MissingStaysMissing(w0.env, t, w0.names, disk.w.names);
    } else {
      assert OnOldSide(t, m, w0) || OnNewSide(t, m, w0);
    }
  }

  /** Where interrupted recoveries have taken a directory without a live file. */
  ghost predicate Stranded(t: Transaction, w0: World, w: World) {
    && Valid(w) && !w.env.foreign && w.env.platform.Windows? && Describes(w.env, t)
    && Missing(t, w.names) && StaysAs(t, w0.names, w.names)
  }

  lemma StrandedRecovers(t: Transaction, w0: World, w: World, v: World, r: Result<()>)
    requires Stranded(t, w0, w) && Valid(v) && v.env == w.env && WellFormed(w.env, t)
    requires ResolvedAsClassified(t, w, v, r) && (t.record !in w.names ==> v.names == w.names)
    ensures Stranded(t, w0, v)
  {
    if HasRecord(t, w.names) {
      MissingIsClassified(w.env, t, w.names);
      MissingStaysMissing(w.env, t, w.names, v.names);
    }
  }

  /** Whether a recovery nobody cuts short keeps the old bytes. */
  ghost predicate BytesSurvive(t: Transaction, n: Names) {
    t.backup in n || (t.displaced in n && !Outranked(t.stem, WithBackup(t, n), t.backup))
  }

  /** What it leaves under the private names: never a staged copy, and the
      candidate unless the publication was taken for one that never happened. */
  predicate CandidateLeft(t: Transaction, n: Names, n': Names) {
    && t.displaced !in n' && t.backupStage !in n'
    && (t.candidate in n' <==> t.candidate in n && (t.displaced in n || t.backup in n || t.record !in n))
  }

  /** Such a recovery succeeds unless it is stuck with a promoted backup. */
  lemma StrandedSettles(t: Transaction, w: World, v: World, r: Result<()>)
    requires Stranded(t, w, w) && WellFormed(w.env, t) && Calm(w) && SameContents(t.backupToken, t.expected)
    requires ResolvedAsClassified(t, w, v, r) && (t.record !in w.names ==> v.names == w.names && r.Success?)
    requires r.Success? ==> t.record !in v.names
    ensures OldBytesKept(t, v.names) <==> BytesSurvive(t, w.names)
    ensures r.Success? <==> !(t.backup in w.names && t.record in w.names)
    ensures CandidateLeft(t, w.names, v.names)
  {
    if HasRecord(t, w.names) {
      MissingIsClassified(w.env, t, w.names);
      MissingStaysMissing(w.env, t, w.names, v.names);
    }
  }

  /** Start again after a crash, and recover. */
  method RecoverStranded(disk: Disk, ghost t: Transaction, ghost m: Names, stem: string, faults: bool, ghost w0: World)
    returns (r: Result<()>)
    requires Stranded(t, w0, disk.w) && t.stem == stem && SameContents(t.backupToken, t.expected)
    modifies disk
    ensures Stranded(t, w0, disk.w) && disk.w.env.faults == faults
    ensures r.Success? ==> t.record !in disk.w.names
    ensures !faults ==>
              && (OldBytesKept(t, disk.w.names) <==> BytesSurvive(t, old(disk.w).names))
              && (r.Success? <==> !(t.backup in old(disk.w).names && t.record in old(disk.w).names))
              && CandidateLeft(t, old(disk.w).names, disk.w.names)
  {
    RecordAcceptedIff(disk.w.env, stem, t.recordToken.contents.record, t.recordToken);
    disk.Restart(false, faults);
    ghost var w1 := disk.w;
    ghost var parsed;
    r, parsed := RecoverInterruptedAuthPublication(disk, stem, t, m);
    StrandedRecovers(t, w0, w1, disk.w, r);
    if !faults {
      StrandedSettles(t, w1, disk.w, r);
    }
  }

  /** From any directory without a live file, recovery that is cut short any
      number of times and then runs undisturbed ends with none. `last` is the
      directory the last recovery began in. The old bytes are kept if and only
      if the copy had been promoted by then, or the displaced file was still
      there and its backup is not outranked. */
  method RecoverWithoutLive(disk: Disk, ghost t: Transaction, ghost m: Names, stem: string, cuts: nat)
    returns (r: Result<()>, ghost last: Names)
    requires Valid(disk.w) && Describes(disk.w.env, t) && t.stem == stem && !disk.w.env.foreign
    requires disk.w.env.platform.Windows? && Missing(t, disk.w.names) && SameContents(t.backupToken, t.expected)
    modifies disk
    ensures Missing(t, disk.w.names) && Missing(t, last)
    ensures StaysAs(t, old(disk.w).names, last) && StaysAs(t, old(disk.w).names, disk.w.names)
    ensures OldBytesKept(t, disk.w.names) <==> BytesSurvive(t, last)
    ensures r.Success? <==> !(t.backup in last && t.record in last)
    ensures CandidateLeft(t, last, disk.w.names)
    ensures cuts == 0 ==> last == old(disk.w).names
  {
    ghost var w0 := disk.w;
    for i := 0 to cuts
      invariant Stranded(t, w0, disk.w) && (i == 0 ==> disk.w == w0)
    {
      r := RecoverStranded(disk, t, m, stem, true, w0);
    }
    last := disk.w.names;
    r := RecoverStranded(disk, t, m, stem, false, w0);
  }

  /** The run that loses everything, by the steps themselves: a recovery finds
      the live file only displaced, removes the displaced file and is cut short
      there; the next one reports success. */
  method LoseEveryCopy(disk: Disk, t: Transaction, ghost m: Names, stem: string) returns (r: Result<()>)
    requires Valid(disk.w) && Describes(disk.w.env, t) && t.stem == stem && Calm(disk.w)
    requires disk.w.env.platform.Windows? && OnlyDisplacement(t, disk.w.names) && SameContents(t.backupToken, t.expected)
    modifies disk
    ensures r.Success? && t.Live() !in disk.w.names && Vacated(t, disk.w.names) && !OldBytesKept(t, disk.w.names)
  {
    ghost var w0 := disk.w;
    RecordAcceptedIff(disk.w.env, stem, t.recordToken.contents.record, t.recordToken);
    var decided := ReadAndClassify(disk, t, m, w0);
    MissingIsClassified(w0.env, t, w0.names);
    assert decided == Success(CompleteSuperseded);
    ghost var w1 := disk.w;
    var dropped := DropDisplaced(disk, t, m, w0);
    assert Abandoned(t, disk.w.names);
    r := RecoverStranded(disk, t, m, stem, false, disk.w);
  }

  /** From every directory an undisturbed publication can leave under its
      record, any number of interrupted recoveries and a last one end with one
      of the two credentials live exactly when one was live before the first:
      nothing brings a missing one back. */
  method RecoverWithOrWithoutLive(disk: Disk, ghost t: Transaction, ghost m: Names, stem: string, cuts: nat)
    returns (r: Result<()>)
    requires Valid(disk.w) && Describes(disk.w.env, t) && t.stem == stem && !disk.w.env.foreign
    requires Sound(t, m, disk.w) || (disk.w.env.platform.Windows? && Missing(t, disk.w.names))
    requires SameContents(t.backupToken, t.expected)
    modifies disk
    ensures At(disk.w.names, t.Live()) in {Some(t.expected), Some(t.candidateToken)} <==> t.Live() in old(disk.w).names
    ensures t.Live() !in old(disk.w).names ==> t.Live() !in disk.w.names
  {
    ghost var last;
    if Named(stem) in disk.w.names {
      r, last := RecoverAfterInterruptions(disk, t, m, stem, seq(cuts, _ => false));
    } else {
      r, last := RecoverWithoutLive(disk, t, m, stem, cuts);
    }
  }

  // ----- a concrete run ------------------------------------------------------

  /** The directory right before the exchange of `t`. */
  function Ready(t: Transaction): Names {
    map[t.Live() := t.expected, t.candidate := t.candidateToken, t.backupStage := t.backupToken, t.record := t.recordToken]
  }

  /** A concrete run: everything is ready for the exchange and the exchange only
      displaces. Recovery would complete a publication that put nothing under
      the live name. Cut short right after it removed the displaced file, it is
      followed by one that takes the publication back, and no file is left. */
  lemma PartialReplaceLosesLive()
    ensures
      var t := Example(Windows);
      var n := Apply(Ready(t), Displace(t.Live(), t.displaced));
      var n1 := n - {t.displaced};
      && WellFormed(Env(Windows), t) && OldSide(t, Ready(t), Ready(t)) && LiveMissing(t, Ready(t), n)
      && VerdictAt(Env(Windows), t, n) == CompleteSuperseded && Completing(t, n, n1)
      && VerdictAt(Env(Windows), t, n1) == AbortUnpublished && TakingBack(t, n1, map[])
      && !LiveMissing(t, Ready(t), n1) && !OldSide(t, Ready(t), n1) && !NewSide(t, Ready(t), n1)
      && n1 - {t.backupStage, t.candidate, t.record} == map[]
  {
    var t := Example(Windows);
    ExampleIsWellFormed(Windows);
    PartialReplaceFollows(Env(Windows), t);
  }

  lemma PartialReplaceFollows(env: Surroundings, t: Transaction)
    requires WellFormed(env, t) && env.platform.Windows? && t.expected != t.candidateToken
    ensures
      var n := Apply(Ready(t), Displace(t.Live(), t.displaced));
      var n1 := n - {t.displaced};
      && OldSide(t, Ready(t), Ready(t)) && LiveMissing(t, Ready(t), n)
      && VerdictAt(env, t, n) == CompleteSuperseded && Completing(t, n, n1)
      && VerdictAt(env, t, n1) == AbortUnpublished && TakingBack(t, n1, map[])
      && !LiveMissing(t, Ready(t), n1) && !OldSide(t, Ready(t), n1) && !NewSide(t, Ready(t), n1)
      && n1 - {t.backupStage, t.candidate, t.record} == map[]
  {
  }
}
