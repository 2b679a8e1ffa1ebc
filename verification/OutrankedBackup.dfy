/** The one exception to the write-ahead rule (src/auth.rs): when three managed
    backups rank above the new one, for instance after the clock was set back,
    the retention that follows the removal of the record takes the new backup,
    and no name holds the old bytes. */
module OutrankedBackup {
  import opened Namespace
  import opened BackupNames
  import opened Retention
  import opened Transactions
  import opened Phases
  import opened Settlement
  import opened Staging
  import opened Publication
  import opened Examples

  /** A settlement nobody disturbs, begun with the new credential live, ends
      within the rule exactly if fewer than three backups rank above the new one. */
  method SettleNewSide(disk: Disk, t: Transaction, ghost m: Names)
    requires WellFormed(disk.w.env, t) && Valid(disk.w) && OnNewSide(t, m, disk.w) && Calm(disk.w)
    requires SameContents(t.backupToken, t.expected)
    modifies disk
    ensures CompletedExactly(t, m, disk.w.names)
    ensures WriteAhead(t, disk.w.names) <==> !Outranked(t.stem, WithBackup(t, m), t.backup)
  {
    ghost var verdict;
    var r;
    r, verdict := SettleAuthPublication(disk, t, m, Unavailable);
    CompletedIsWriteAheadIff(t, m, disk.w.names);
  }

  /** The same for a whole write that nobody disturbs. */
  lemma WrittenIsWriteAheadIff(stem: string, attempts: seq<Attempt>, expected: Contents, contents: Contents,
                               w: World, v: World, made: Option<Transaction>, r: Result<ConditionalWrite>)
    requires IdleOutcome(stem, attempts, Some(expected), contents, w, v, made, r) && Calm(w)
    requires HoldsContents(w.names, Named(stem), expected) && Reserves(stem, attempts, w)
    requires made.Some? ==> Replaces(v.env, made.value, stem, made.value.expected, contents)
    ensures made.Some? && r == Success(Written)
    ensures WriteAhead(made.value, v.names) <==> !Outranked(stem, WithBackup(made.value, w.names), made.value.backup)
  {
    CompletedIsWriteAheadIff(made.value, w.names, v.names);
  }

  // ----- a concrete run ------------------------------------------------------

  function Backup(stamp: nat): Path {
    Named(BackupName(STEM, Decimal(stamp), NONCE))
  }

  /** Right after the exchange, beside the backups `later`. */
  function Displacing(t: Transaction, later: Names): Names {
    Final(t, later)[t.displaced := t.expected][t.backupStage := t.backupToken][t.record := t.recordToken]
  }

  /** After the settlement: the new credential and those backups. */
  function Final(t: Transaction, later: Names): Names {
    later[t.Live() := t.candidateToken]
  }

  function Later(): Names {
    map[Backup(8) := File(5, Raw([5])), Backup(9) := File(6, Raw([6])), Backup(10) := File(7, Raw([7]))]
  }

  lemma BackupKey(stamp: nat)
    requires stamp < U128_LIMIT
    ensures KeyOf(STEM, Backup(stamp)) == Some(SortKey(stamp, NONCE)) && Backup(stamp) != Named(STEM)
  {
    assert ValidNonce(NONCE);
    PrintedHasKey(STEM, stamp, NONCE);
    StemIsUnmanaged(STEM);
  }

  /** Backups that rank above the new one, three or more of them. */
  predicate RankAbove(t: Transaction, later: Names) {
    && |later.Keys| >= MAX_BACKUPS
    && forall p :: p in later ==>
         KeyOf(t.stem, p).Some? && KeyOf(t.stem, t.backup).Some?
         && KeyLess(KeyOf(t.stem, t.backup).value, KeyOf(t.stem, p).value)
  }

  lemma LaterOutrank(t: Transaction, later: Names, n: Names)
    requires RankAbove(t, later) && KeyOf(t.stem, t.backup).Some? && later.Keys <= n.Keys
    ensures Outranked(t.stem, WithBackup(t, n), t.backup)
  {
    var above := Above(t.stem, WithBackup(t, n), t.backup);
    assert later.Keys <= above;
    SubsetCardinality(later.Keys, above);
  }

  lemma NamesOfTheRun(env: Surroundings, t: Transaction, later: Names)
    requires WellFormed(env, t) && env.platform.Unix?
    requires t.Live() !in later && t.displaced !in later && t.backupStage !in later && t.record !in later && t.backup !in later
    ensures
      var n := Displacing(t, later);
      var n' := Final(t, later);
      && At(n, t.Live()) == At(n', t.Live()) == Some(t.candidateToken)
      && At(n, t.displaced) == Some(t.expected) && StageWaits(t, n) && HasRecord(t, n)
      && t.displaced !in n' && t.backupStage !in n' && t.record !in n' && t.backup !in n'
  {
  }

  /** A settlement completes such a publication, retention takes the new backup,
      and what is left breaks the rule. */
  lemma LaterBackupsTakeTheNewOne(env: Surroundings, t: Transaction, later: Names)
    requires WellFormed(env, t) && env.platform.Unix? && t.expected != t.candidateToken && RankAbove(t, later)
    requires SameContents(t.backupToken, t.expected) && t.backup !in later
    ensures
      var n := Displacing(t, later);
      && NewSide(t, n, n) && HasRecord(t, n) && WriteAhead(t, n) && VerdictAt(env, t, n) == CompletePublished
      && Outranked(t.stem, WithBackup(t, n), t.backup)
      && CompletedExactly(t, n, Final(t, later)) && !WriteAhead(t, Final(t, later))
  {
    StemIsUnmanaged(t.stem);
    NamesOfTheRun(env, t, later);
    var n, n' := Displacing(t, later), Final(t, later);
    assert Outranked(t.stem, WithBackup(t, n), t.backup) by {
      LaterOutrank(t, later, n);
    }
    assert NewSide(t, n, n);
    CompletedIsWriteAheadIff(t, n, n');
    SidesAreWriteAhead(t, n, n);
  }

  lemma LaterRankAbove(t: Transaction, a: Path, b: Path, c: Path, later: Names, nonce: string)
    requires KeyOf(t.stem, t.backup) == Some(SortKey(7, nonce)) && KeyOf(t.stem, a) == Some(SortKey(8, nonce))
    requires KeyOf(t.stem, b) == Some(SortKey(9, nonce)) && KeyOf(t.stem, c) == Some(SortKey(10, nonce))
    requires later.Keys == {a, b, c}
    ensures RankAbove(t, later) && t.backup !in later
  {
    ThreeApart(a, b, c);
    forall p | p in later
      ensures KeyOf(t.stem, p).Some? && KeyOf(t.stem, p).value.stamp > 7
    {
      assert p in {a, b, c};
    }
  }

  lemma ThreeApart(a: Path, b: Path, c: Path)
    requires a != b && b != c && a != c
    ensures |{a, b, c}| == 3
  {
  }

  lemma ExampleIsOutranked()
    ensures RankAbove(Example(Unix), Later()) && Example(Unix).backup !in Later()
  {
    ExampleIsWellFormed(Unix);
    BackupKey(7);
    BackupKey(8);
    BackupKey(9);
    BackupKey(10);
    LaterRankAbove(Example(Unix), Backup(8), Backup(9), Backup(10), Later(), NONCE);
  }

  /** A run that ends outside the rule: published beside `later`, settled, and
      then no file at all holds the old bytes. */
  ghost predicate LosesOldBytes(env: Surroundings, t: Transaction, later: Names) {
    var n, n' := Displacing(t, later), Final(t, later);
    && WellFormed(env, t) && NewSide(t, n, n) && VerdictAt(env, t, n) == CompletePublished
    && CompletedExactly(t, n, n') && !WriteAhead(t, n')
    && forall p :: p in n' ==> n'[p].contents != t.expected.contents
  }

  lemma LaterBackupsLoseOldBytes(env: Surroundings, t: Transaction, later: Names)
    requires WellFormed(env, t) && env.platform.Unix? && t.expected != t.candidateToken && RankAbove(t, later)
    requires SameContents(t.backupToken, t.expected) && t.backup !in later
    requires t.candidateToken.contents != t.expected.contents
    requires forall p :: p in later ==> later[p].contents != t.expected.contents
    ensures LosesOldBytes(env, t, later)
  {
    LaterBackupsTakeTheNewOne(env, t, later);
  }

  lemma ExampleBytes()
    ensures
      var t := Example(Unix);
      && t.expected == OLD && t.candidateToken == NEW && t.backupToken == COPY
      && forall p :: p in Later() ==> Later()[p].contents != OLD.contents
  {
  }

  /** A concrete run: the new backup's stamp is 7, three others have 8, 9 and 10. */
  lemma OldBytesLost()
    ensures exists t, later :: t == Example(Unix) && later == Later() && LosesOldBytes(Env(Unix), t, later)
  {
    ExampleIsWellFormed(Unix);
    ExampleIsOutranked();
    ExampleBytes();
    OldBytesLostFor(Example(Unix), Later());
  }

  lemma OldBytesLostFor(t: Transaction, later: Names)
    requires WellFormed(Env(Unix), t) && RankAbove(t, later) && t.backup !in later
    requires t.expected == OLD && t.candidateToken == NEW && t.backupToken == COPY
    requires forall p :: p in later ==> later[p].contents != OLD.contents
    ensures LosesOldBytes(Env(Unix), t, later)
  {
    LaterBackupsLoseOldBytes(Env(Unix), t, later);
  }
}
