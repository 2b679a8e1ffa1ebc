/** Directories a power loss may leave in which role files have lost their
    record (src/auth.rs): recovery finds no record, returns at once, and nobody
    ever looks at those files again. */
module LeakedRoles {
  import opened Namespace
  import opened Retention
  import opened Transactions
  import opened Phases
  import opened Recovery
  import opened Examples

  /** The data of every recorded file has reached the disk, and the directory
      is `names` with `survivors` for a power loss to choose from. */
  function Flushed(env: Surroundings, t: Transaction, names: Names, survivors: set<Names>): World {
    World(env, names, survivors,
          {t.expected.identity, t.candidateToken.identity, t.backupToken.identity, t.recordToken.identity},
          {}, [], 2, 5, false)
  }

  /** Everything is staged and synced; the record waits under a random name. */
  function Staged(t: Transaction, random: Path): Names {
    map[t.Live() := t.expected, t.candidate := t.candidateToken, t.backupStage := t.backupToken, random := t.recordToken]
  }

  /** The record was just renamed to its name, and the directory not yet synced. */
  function Recorded(env: Surroundings, t: Transaction, random: Path): World {
    var op := Rename(random, t.record);
    Flushed(env, t, Apply(Staged(t, random), op), Surviving({Staged(t, random)}, op))
  }

  /** A power loss right then takes the record's name back, and no removal is
      needed: the candidate and the copy are left without their record. */
  lemma RecordNameReverts(env: Surroundings, t: Transaction, random: Path)
    requires WellFormed(env, t) && env.platform.Unix? && t.expected != t.candidateToken && random.Staged?
    ensures
      var w := Recorded(env, t, random);
      && Sound(t, Staged(t, random), w) && HasRecord(t, w.names) && DataOnDisk(t, w)
      && AfterPowerLoss(w, Staged(t, random)) && Leaked(t, Staged(t, random)) && !Leaked(t, w.names)
  {
    var n := Staged(t, random);
    var w := Recorded(env, t, random);
    StemIsUnmanaged(t.stem);
    assert OldSide(t, n, n) && OldSide(t, n, w.names);
    assert n in w.survivors && TornFrom(n, n, w.flushed);
  }

  /** The copy is gone for good; candidate and record are left to take back. */
  function TakingBackBegun(t: Transaction): Names {
    map[t.Live() := t.expected, t.candidate := t.candidateToken, t.record := t.recordToken]
  }

  /** A recovery quarantined the candidate under `q`, unlinked it, and was cut
      short before any sync of the directory succeeded. */
  function CandidateUnlinked(env: Surroundings, t: Transaction, q: Path): World {
    var quarantine, unlink := Rename(t.candidate, q), Remove(q);
    Flushed(env, t, Apply(Apply(TakingBackBegun(t), quarantine), unlink),
            Surviving(Surviving({TakingBackBegun(t)}, quarantine), unlink))
  }

  /** The next one found only the record left, and quarantined it under `q'`. */
  function RecordQuarantined(env: Surroundings, t: Transaction, q: Path, q': Path): World {
    var w := CandidateUnlinked(env, t, q);
    var op := Rename(t.record, q');
    Flushed(env, t, Apply(w.names, op), Surviving(w.survivors, op))
  }

  /** A directory of such a take-back, whatever became of the private files. */
  predicate HalfTaken(t: Transaction, n: Names) {
    && At(n, t.Live()) == Some(t.expected)
    && (t.candidate in n ==> At(n, t.candidate) == Some(t.candidateToken))
    && (t.record in n ==> At(n, t.record) == Some(t.recordToken))
    && forall p :: p in n && p.Named? ==> p in {t.Live(), t.candidate, t.record}
  }

  lemma HalfTakenIsOldSide(env: Surroundings, t: Transaction, n: Names)
    requires WellFormed(env, t) && env.platform.Unix? && HalfTaken(t, n)
    ensures OldSide(t, TakingBackBegun(t), n)
  {
    StemIsUnmanaged(t.stem);
  }

  /** The steps of the two recoveries. */
  predicate TakesBack(t: Transaction, op: Op) {
    match op
    case Rename(a, b) => a in {t.candidate, t.record} && b.Quarantine?
    case Remove(p) => p.Quarantine?
    case _ => false
  }

  lemma StaysHalfTaken(env: Surroundings, t: Transaction, survivors: set<Names>, op: Op)
    requires WellFormed(env, t) && TakesBack(t, op) && forall s :: s in survivors ==> HalfTaken(t, s)
    ensures forall s :: s in survivors ==> HalfTaken(t, Apply(s, op))
    ensures forall s :: s in Surviving(survivors, op) ==> HalfTaken(t, s)
  {
    forall s | s in survivors
      ensures HalfTaken(t, Apply(s, op))
    {
      StepStaysHalfTaken(env, t, s, op);
    }
  }

  lemma StepStaysHalfTaken(env: Surroundings, t: Transaction, n: Names, op: Op)
    requires WellFormed(env, t) && TakesBack(t, op) && HalfTaken(t, n)
    ensures HalfTaken(t, Apply(n, op))
  {
  }

  /** Such a world is Sound. */
  lemma HalfTakenIsSound(env: Surroundings, t: Transaction, w: World)
    requires WellFormed(env, t) && env.platform.Unix? && w.env == env && t.expected != t.candidateToken
    requires HalfTaken(t, w.names) && forall s :: s in w.survivors ==> HalfTaken(t, s)
    ensures Sound(t, TakingBackBegun(t), w)
  {
    HalfTakenIsOldSide(env, t, w.names);
    forall s | s in w.survivors
      ensures OldSide(t, TakingBackBegun(t), s)
    {
      HalfTakenIsOldSide(env, t, s);
    }
  }

  lemma RecoveriesStaySound(env: Surroundings, t: Transaction, q: Path, q': Path)
    requires WellFormed(env, t) && env.platform.Unix? && t.expected != t.candidateToken && q.Quarantine? && q'.Quarantine?
    ensures Sound(t, TakingBackBegun(t), CandidateUnlinked(env, t, q))
    ensures Sound(t, TakingBackBegun(t), RecordQuarantined(env, t, q, q'))
  {
    var m := TakingBackBegun(t);
    var quarantine, unlink, op := Rename(t.candidate, q), Remove(q), Rename(t.record, q');
    var s1 := Surviving({m}, quarantine);
    var s2 := Surviving(s1, unlink);
    StaysHalfTaken(env, t, {m}, quarantine);
    StaysHalfTaken(env, t, s1, unlink);
    assert Apply(m, quarantine) in s1 && Apply(Apply(m, quarantine), unlink) in s2;
    HalfTakenIsSound(env, t, CandidateUnlinked(env, t, q));
    StaysHalfTaken(env, t, s2, op);
    HalfTakenIsSound(env, t, RecordQuarantined(env, t, q, q'));
  }

  /** A power loss then may bring the candidate back and keep the record away. */
  lemma RemovalComesBack(env: Surroundings, t: Transaction, q: Path, q': Path)
    requires WellFormed(env, t) && env.platform.Unix? && t.expected != t.candidateToken
    requires q.Quarantine? && q'.Quarantine? && q != q'
    ensures
      var m := TakingBackBegun(t);
      var w, w' := CandidateUnlinked(env, t, q), RecordQuarantined(env, t, q, q');
      var n := Apply(m, Rename(t.record, q'));
      && Sound(t, m, w) && VerdictAt(env, t, w.names) == OnlyRecordLeft && HasRecord(t, w.names)
      && Sound(t, m, w') && DataOnDisk(t, w') && !Leaked(t, w'.names)
      && AfterPowerLoss(w', n) && Leaked(t, n)
  {
    var m := TakingBackBegun(t);
    var w, w' := CandidateUnlinked(env, t, q), RecordQuarantined(env, t, q, q');
    RecoveriesStaySound(env, t, q, q');
    CandidateIsGone(env, t, q, q');
    var n := Apply(m, Rename(t.record, q'));
    assert m in Surviving({m}, Rename(t.candidate, q)) && m in w.survivors;
    assert n in w'.survivors && TornFrom(n, n, w'.flushed);
  }

  lemma CandidateIsGone(env: Surroundings, t: Transaction, q: Path, q': Path)
    requires WellFormed(env, t) && env.platform.Unix? && t.expected != t.candidateToken && q.Quarantine? && q'.Quarantine?
    ensures
      var w, w' := CandidateUnlinked(env, t, q), RecordQuarantined(env, t, q, q');
      var n := Apply(TakingBackBegun(t), Rename(t.record, q'));
      && VerdictAt(env, t, w.names) == OnlyRecordLeft && HasRecord(t, w.names)
      && !Leaked(t, w'.names) && Leaked(t, n)
  {
    var w := CandidateUnlinked(env, t, q).names;
    assert At(w, t.Live()) == Some(t.expected) && At(w, t.record) == Some(t.recordToken);
    assert t.candidate !in w && t.backupStage !in w && t.backup !in w;
    var w' := RecordQuarantined(env, t, q, q').names;
    assert t.candidate !in w' && t.backupStage !in w';
    var n := Apply(TakingBackBegun(t), Rename(t.record, q'));
    assert t.record !in n && t.candidate in n;
  }

  /** Both runs for a transaction with concrete names and files. */
  lemma RoleFilesLeak()
    ensures exists t :: t == Example(Unix)
              && AfterPowerLoss(Recorded(Env(Unix), t, Path.Staged(0)), Staged(t, Path.Staged(0)))
              && Leaked(t, Staged(t, Path.Staged(0)))
    ensures exists t :: t == Example(Unix)
              && AfterPowerLoss(RecordQuarantined(Env(Unix), t, Quarantine(0), Quarantine(1)),
                                Apply(TakingBackBegun(t), Rename(t.record, Quarantine(1))))
              && Leaked(t, Apply(TakingBackBegun(t), Rename(t.record, Quarantine(1))))
  {
    var t := Example(Unix);
    ExampleIsWellFormed(Unix);
    RecordNameReverts(Env(Unix), t, Path.Staged(0));
    RemovalComesBack(Env(Unix), t, Quarantine(0), Quarantine(1));
  }
}
