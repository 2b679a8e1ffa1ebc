/** The directories an undisturbed publication passes through from the moment
    its record is visible, at any crash and at any power loss. */
module Phases {
  import opened Namespace
  import opened BoundPath
  import opened Retention
  import opened Transactions

  /** The managed backups other than the transaction's own are those of `m`. */
  ghost predicate SameSiblings(t: Transaction, m: Names, n: Names) {
    forall p :: KeyOf(t.stem, p).Some? && p != t.backup ==> (p in n <==> p in m)
  }

  predicate HasRecord(t: Transaction, n: Names) {
    At(n, t.record) == Some(t.recordToken)
  }

  /** The old credential is live and nothing was published. */
  ghost predicate OldSide(t: Transaction, m: Names, n: Names) {
    && At(n, t.Live()) == Some(t.expected)
    && (t.candidate in n ==> At(n, t.candidate) == Some(t.candidateToken))
    && (t.displaced != t.candidate ==> t.displaced !in n)
    && (t.backupStage in n ==> At(n, t.backupStage) == Some(t.backupToken))
    && t.backup !in n
    && (t.record in n ==> HasRecord(t, n))
    && SameSiblings(t, m, n)
  }

  /** The new credential is live: the old one is displaced or its copy is
      staged or kept, under the record until the copy is in its final place. */
  ghost predicate NewSide(t: Transaction, m: Names, n: Names) {
    && At(n, t.Live()) == Some(t.candidateToken)
    && (t.displaced != t.candidate ==> t.candidate !in n)
    && (t.record in n ==>
          && HasRecord(t, n) && SameSiblings(t, m, n)
          && (|| (At(n, t.displaced) == Some(t.expected) && StageWaits(t, n))
              || (t.displaced !in n && StageWaits(t, n))
              || (t.displaced !in n && BackupPromoted(t, n))))
    && (t.record !in n ==>
          && t.displaced !in n && t.backupStage !in n
          && (!Outranked(t.stem, WithBackup(t, m), t.backup) ==> At(n, t.backup) == Some(t.backupToken)))
  }

  predicate StageWaits(t: Transaction, n: Names) {
    At(n, t.backupStage) == Some(t.backupToken) && t.backup !in n
  }

  predicate BackupPromoted(t: Transaction, n: Names) {
    t.backupStage !in n && At(n, t.backup) == Some(t.backupToken)
  }

  /** The old credential is back and every transaction name is gone. */
  predicate RestoredOld(t: Transaction, n: Names) {
    && At(n, t.Live()) == Some(t.expected)
    && t.candidate !in n && t.displaced !in n && t.backupStage !in n && t.backup !in n && t.record !in n
  }

  /** No record is left, but a file under a private name of the transaction is. */
  predicate Leaked(t: Transaction, n: Names) {
    t.record !in n && (t.candidate in n || t.backupStage in n)
  }

  /** The new credential is live, every transaction name is gone, and its backup
      is in place unless three later backups outranked it. */
  ghost predicate CompletedNew(t: Transaction, m: Names, n: Names) {
    && At(n, t.Live()) == Some(t.candidateToken)
    && t.candidate !in n && t.displaced !in n && t.backupStage !in n && t.record !in n
    && (!Outranked(t.stem, WithBackup(t, m), t.backup) ==> At(n, t.backup) == Some(t.backupToken))
  }

  /** What holds of an undisturbed directory: it is on one side, and whatever a
      power loss may leave is on that side too, or on the old side while the
      exchange may not have reached the disk. */
  ghost predicate Sound(t: Transaction, m: Names, w: World) {
    && t.expected != t.candidateToken
    && (OldSide(t, m, w.names) || NewSide(t, m, w.names))
    && (w.env.platform.Unix? ==>
          && (OldSide(t, m, w.names) ==> forall s :: s in w.survivors ==> OldSide(t, m, s))
          && (NewSide(t, m, w.names) ==>
                forall s :: s in w.survivors ==> NewSide(t, m, s) || (t.record in w.names && OldSide(t, m, s))))
  }

  /** Some name of the transaction holds the old bytes. */
  predicate OldBytesKept(t: Transaction, n: Names) {
    || HoldsBytes(n, t.Live(), t.expected) || HoldsBytes(n, t.displaced, t.expected)
    || HoldsBytes(n, t.backupStage, t.expected) || HoldsBytes(n, t.backup, t.expected)
  }

  /** Write-ahead: the old bytes are kept somewhere, and a live new credential
      has its record or its backup. */
  predicate WriteAhead(t: Transaction, n: Names) {
    && OldBytesKept(t, n)
    && (At(n, t.Live()) == Some(t.candidateToken) ==> HasRecord(t, n) || At(n, t.backup) == Some(t.backupToken))
  }

  predicate HoldsBytes(n: Names, p: Path, f: File) {
    p in n && n[p].contents == f.contents
  }

  /** Each side keeps the write-ahead rule, except a completed publication whose
      backup retention took, and that only happens to an outranked one. */
  lemma SidesAreWriteAhead(t: Transaction, m: Names, n: Names)
    requires OldSide(t, m, n) || NewSide(t, m, n)
    requires t.expected != t.candidateToken && SameContents(t.backupToken, t.expected)
    ensures WriteAhead(t, n) <==> !(CompletedNew(t, m, n) && At(n, t.backup) != Some(t.backupToken))
    ensures !Outranked(t.stem, WithBackup(t, m), t.backup) ==> WriteAhead(t, n)
  {
  }

  /** Completed with retention run to its end, the rule holds exactly if fewer
      than three managed backups rank above the new one. */
  lemma CompletedIsWriteAheadIff(t: Transaction, m: Names, n: Names)
    requires CompletedExactly(t, m, n) && SameContents(t.backupToken, t.expected)
    ensures WriteAhead(t, n) <==> !Outranked(t.stem, WithBackup(t, m), t.backup)
  {
  }

  lemma OldSideDrops(env: Surroundings, t: Transaction, m: Names, n: Names, s: Names, path: Path, draws: nat)
    requires WellFormed(env, t) && OldSide(t, m, n) && MayLack(n, s, path, draws)
    requires path in {t.candidate, t.backupStage, t.record}
    ensures OldSide(t, m, s)
  {
    assert forall p: Path :: p != path && p.Named? ==> At(s, p) == At(n, p);
    forall p | KeyOf(t.stem, p).Some? && p != t.backup
      ensures p in s <==> p in m
    {
      assert At(s, p) == At(n, p);
    }
  }

  lemma NewSideDropsDisplaced(env: Surroundings, t: Transaction, m: Names, n: Names, s: Names, draws: nat)
    requires WellFormed(env, t) && NewSide(t, m, n) && HasRecord(t, n) && MayLack(n, s, t.displaced, draws)
    requires At(n, t.displaced) == Some(t.expected)
    ensures NewSide(t, m, s) && HasRecord(t, s)
  {
    assert forall p: Path :: p != t.displaced && p.Named? ==> At(s, p) == At(n, p);
    forall p | KeyOf(t.stem, p).Some? && p != t.backup
      ensures p in s <==> p in m
    {
      assert At(s, p) == At(n, p);
    }
  }

  lemma NewSidePromotes(env: Surroundings, t: Transaction, m: Names, n: Names)
    requires WellFormed(env, t) && NewSide(t, m, n) && HasRecord(t, n)
    requires t.displaced !in n && StageWaits(t, n)
    ensures NewSide(t, m, Apply(n, Rename(t.backupStage, t.backup)))
    ensures HasRecord(t, Apply(n, Rename(t.backupStage, t.backup)))
  {
  }

  lemma NewSideDropsRecord(env: Surroundings, t: Transaction, m: Names, n: Names, s: Names, draws: nat)
    requires WellFormed(env, t) && NewSide(t, m, n) && HasRecord(t, n) && MayLack(n, s, t.record, draws)
    requires t.displaced !in n && BackupPromoted(t, n)
    ensures NewSide(t, m, s)
    ensures t.record !in s ==> CompletedNew(t, m, s) && SameSiblings(t, m, s) && At(s, t.backup) == Some(t.backupToken)
  {
    assert forall p: Path :: p != t.record && p.Named? ==> At(s, p) == At(n, p);
    forall p | KeyOf(t.stem, p).Some? && p != t.backup
      ensures p in s <==> p in m
    {
      assert At(s, p) == At(n, p);
    }
  }

  lemma CompletedPruned(env: Surroundings, t: Transaction, m: Names, n: Names, s: Names, draws: nat)
    requires WellFormed(env, t) && CompletedNew(t, m, n) && SameSiblings(t, m, n)
    requires At(n, t.backup) == Some(t.backupToken) && Pruned(t.stem, n, s, draws)
    ensures CompletedNew(t, m, s) && NewSide(t, m, s)
  {
    StemIsUnmanaged(t.stem);
    assert Above(t.stem, n, t.backup) == Above(t.stem, WithBackup(t, m), t.backup);
    assert forall p: Path :: p.Named? && !Outranked(t.stem, n, p) ==> At(s, p) == At(n, p);
  }

  /** The backup is in place, or gone exactly because three later ones outrank it. */
  ghost predicate BackupExact(t: Transaction, m: Names, n: Names) {
    if Outranked(t.stem, WithBackup(t, m), t.backup) then t.backup !in n else At(n, t.backup) == Some(t.backupToken)
  }

  ghost predicate CompletedExactly(t: Transaction, m: Names, n: Names) {
    CompletedNew(t, m, n) && BackupExact(t, m, n)
  }

  /** Ranking depends on the sibling backups only. */
  lemma SiblingsRankAlike(t: Transaction, m: Names, n: Names, p: Path)
    requires SameSiblings(t, m, n)
    ensures Outranked(t.stem, WithBackup(t, m), p) <==> Outranked(t.stem, WithBackup(t, n), p)
  {
    forall q | KeyOf(t.stem, q).Some?
      ensures q in WithBackup(t, m) <==> q in WithBackup(t, n)
    {
    }
    assert Above(t.stem, WithBackup(t, m), p) == Above(t.stem, WithBackup(t, n), p);
  }

  function VerdictAt(env: Surroundings, t: Transaction, n: Names): Verdict {
    Classify(env.platform, t, At(n, t.Live()), At(n, t.candidate), At(n, t.displaced), At(n, t.backupStage), At(n, t.backup))
  }

  /** On the new side a settlement completes the publication; on the old side
      it takes it back. */
  lemma SidesAreClassified(env: Surroundings, t: Transaction, m: Names, n: Names)
    requires WellFormed(env, t) && t.expected != t.candidateToken && HasRecord(t, n)
    ensures NewSide(t, m, n) ==> VerdictAt(env, t, n) == CompletePublished
    ensures OldSide(t, m, n) ==> VerdictAt(env, t, n) in {AbortUnpublished, OnlyRecordLeft, AbortIntact}
  {
  }
}
