/** One auth publication (src/auth.rs): its six paths and four recorded tokens,
    the decision taken about five observed tokens, and the frame within which
    any settlement of it stays, whoever else writes the live file. */
module Transactions {
  import opened Namespace
  import opened BoundPath
  import opened Retention

  /** ParsedAuthPublication with the live path. On Unix `displaced` is the
      candidate path; Windows names a separate file. */
  datatype Transaction = Transaction(
    stem: string,
    candidate: Path,
    displaced: Path,
    backupStage: Path,
    backup: Path,
    record: Path,
    expected: FileToken,
    candidateToken: FileToken,
    backupToken: FileToken,
    recordToken: FileToken)
  {
    function Live(): Path {
      Named(stem)
    }

    predicate OwnPath(p: Path) {
      p == candidate || p == displaced || p == backupStage || p == record
    }

    /** The tokens recorded for the file at `p`. */
    function Recorded(p: Path): set<FileToken> {
      (if p == candidate then {candidateToken} else {})
      + (if p == displaced then {expected} else {})
      + (if p == backupStage then {backupToken} else {})
      + (if p == record then {recordToken} else {})
    }

    function Tokens(): set<FileToken> {
      {expected, candidateToken, backupToken, recordToken}
    }
  }

  /** The path checks of parse_publication_record. */
  predicate PathsDisjoint(platform: Platform, t: Transaction) {
    && t.candidate != t.Live() && t.displaced != t.Live() && t.backupStage != t.Live() && t.backup != t.Live()
    && t.candidate != t.record && t.displaced != t.record && t.backupStage != t.record && t.backup != t.record
    && t.backupStage != t.candidate && t.backupStage != t.displaced
    && t.backup != t.candidate && t.backup != t.displaced && t.backup != t.backupStage
    && (t.candidate == t.displaced <==> platform.Unix?)
  }

  predicate WellFormed(env: Surroundings, t: Transaction) {
    && env.contested == t.Live()
    && PathsDisjoint(env.platform, t)
    && t.record != t.Live()
    && t.candidate.Named? && t.displaced.Named? && t.backupStage.Named? && t.backup.Named? && t.record.Named?
    && KeyOf(t.stem, t.backup).Some?
    && KeyOf(t.stem, t.candidate).None? && KeyOf(t.stem, t.displaced).None?
    && KeyOf(t.stem, t.backupStage).None? && KeyOf(t.stem, t.record).None?
  }

  datatype PublicationSettlement =
    | Published
    | LiveUnchanged
    | PublishedRecoveryRequired
    | RestoredRecoveryRequired
    | AmbiguousRecoveryRequired

  datatype Witness = Unavailable | Unchanged | Changed(observed: FileToken) | Unreadable

  /** What settle_auth_publication decides to do about five observed tokens. */
  datatype Verdict =
    | CompletePublished       // the candidate is live: finish its backup
    | DisplacedForeign(foreign: FileToken)  // the exchange displaced somebody else's file
    | PreservePublished       // the candidate is live beside artifacts that do not match
    | CompleteSuperseded      // published, then replaced by a later writer: finish the backup
    | AbortUnpublished        // never published: remove the candidate and the stage
    | OnlyRecordLeft
    | AbortIntact             // the original is live and only the stage is left
    | Ambiguous

  function Classify(platform: Platform, t: Transaction, live: Option<FileToken>, candidate: Option<FileToken>,
                    displaced: Option<FileToken>, stage: Option<FileToken>, backup: Option<FileToken>): Verdict
  {
    var waiting := stage == Some(t.backupToken) && backup.None?;
    var retained := stage.None? && backup == Some(t.backupToken);
    var ready := waiting || retained;
    if live == Some(t.candidateToken) then
      if ready && (displaced == Some(t.expected) || displaced.None?) then CompletePublished
      else if waiting && displaced.Some? && displaced.value != t.expected && displaced.value != t.candidateToken
      then DisplacedForeign(displaced.value)
      else PreservePublished
    else if displaced == Some(t.expected) && ready then CompleteSuperseded
    else if candidate == Some(t.candidateToken) && (platform.Windows? ==> displaced.None?)
            && !retained && (stage.None? || stage == Some(t.backupToken)) then AbortUnpublished
    else if candidate.None? && displaced.None? && stage.None? && backup.None? then OnlyRecordLeft
    else if live == Some(t.expected) && candidate.None? && displaced.None? && waiting then AbortIntact
    else Ambiguous
  }

  // ----- the frame -------------------------------------------------------

  /** The directory retention ranks: the new backup is in it. */
  function WithBackup(t: Transaction, n: Names): Names {
    n[t.backup := t.backupToken]
  }

  /** One step a settlement of `t` may take in a directory that held `n0` when
      it began: quarantine the recorded file of a role and delete it, promote
      the staged backup, give a foreign file back its live name and, once
      `retaining`, retire an outranked backup. */
  ghost predicate FrameEvent(t: Transaction, n0: Names, retaining: bool, e: Event) {
    match e
    case Saw(_, _) => true
    case Renamed(a, b, f) =>
      || (b.Quarantine? && f in t.Recorded(a))
      || (a.Quarantine? && t.OwnPath(b))
      || (a == t.backupStage && b == t.backup && f == t.backupToken)
      || (retaining && RetentionEvent(t.stem, WithBackup(t, n0), e))
    case Unlinked(p, f) =>
      || (p.Quarantine? && f in t.Tokens())
      || (retaining && RetentionEvent(t.stem, WithBackup(t, n0), e))
    case Swapped(a, b, fromDisplaced, _) =>
      a == t.displaced && b == t.Live() && fromDisplaced != t.expected && fromDisplaced != t.candidateToken
    case Replaced(a, b, c, placed, _) =>
      a == t.displaced && b == t.Live() && c == t.candidate && placed != t.expected && placed != t.candidateToken
    case OnlyDisplaced(a, b, _) => a == t.Live() && b == t.candidate
    case _ => false
  }

  /** The step is none of those that put a file on the live name or take one off it. */
  predicate LeavesLive(e: Event) {
    !e.Swapped? && !e.Replaced? && !e.OnlyDisplaced?
  }

  ghost predicate AllLeaveLive(w: World, v: World) {
    forall i :: |w.history| <= i < |v.history| ==> LeavesLive(v.history[i])
  }

  /** A name is vacated only of a file recorded for it (or by retention), and
      only the backup name is newly occupied, by the staged backup. */
  ghost predicate Kept(t: Transaction, n0: Names, n: Names, retaining: bool, p: Path) {
    || At(n, p) == At(n0, p)
    || (p !in n && p in n0 && n0[p] in t.Recorded(p))
    || (p == t.backup && p !in n0 && At(n, p) == Some(t.backupToken))
    || (retaining && p !in n && Outranked(t.stem, WithBackup(t, n0), p))
  }

  /** The namespace a settlement may leave behind, live name apart. */
  ghost predicate StateFrame(t: Transaction, n0: Names, n: Names, retaining: bool, draws: nat) {
    forall p :: p != t.Live() && Drawn(p, draws) ==> Kept(t, n0, n, retaining, p)
  }

  /** How far a settlement of `t` begun in `w0` may have gone while the live
      name was left to others. */
  ghost predicate Settling(t: Transaction, w0: World, w: World, retaining: bool) {
    && Valid(w) && Onward(w0, w)
    && StateFrame(t, w0.names, w.names, retaining, w0.draws)
    && Accounted(w0, w, t.Live())
    && (forall i :: |w0.history| <= i < |w.history| ==> FrameEvent(t, w0.names, retaining, w.history[i]))
    && AllLeaveLive(w0, w)
    && (!w0.env.foreign ==> At(w.names, t.Live()) == At(w0.names, t.Live()) && w.owed == w0.owed)
  }

  /** A reading, a sync, or an act of others. */
  lemma SettlingSteady(t: Transaction, w0: World, w: World, v: World)
    requires WellFormed(w0.env, t) && Settling(t, w0, w, false)
    requires Valid(v) && Onward(w, v) && OnlySaw(w, v)
    requires Elsewhere(w.names, v.names, {t.Live()}) && Accounted(w, v, t.Live())
    requires !w.env.foreign ==> v.names == w.names && v.owed == w.owed
    ensures Settling(t, w0, v, false)
  {
  }

  lemma SettlingDrops(t: Transaction, w0: World, w: World, v: World, path: Path, token: FileToken, dropped: bool)
    requires WellFormed(w0.env, t) && Settling(t, w0, w, false)
    requires t.OwnPath(path) && token in t.Recorded(path)
    requires DropEffect(w, v, path, token, dropped)
    ensures Settling(t, w0, v, false)
  {
    forall p | p != t.Live() && Drawn(p, w0.draws)
      ensures Kept(t, w0.names, v.names, false, p)
    {
      assert Kept(t, w0.names, w.names, false, p);
      assert p != path ==> At(v.names, p) == At(w.names, p);
    }
    forall i | |w0.history| <= i < |v.history|
      ensures FrameEvent(t, w0.names, false, v.history[i])
    {
      if i < |w.history| {
        assert v.history[i] == w.history[i];
      } else {
        assert DropEvent(path, token, v.history[i]);
      }
    }
  }

  lemma SettlingPromotes(t: Transaction, w0: World, w: World, v: World, moved: Option<File>)
    requires WellFormed(w0.env, t) && Settling(t, w0, w, false) && Valid(v)
    requires RenameEffect(w, v, t.backupStage, t.backup, moved)
    requires At(w.names, t.backupStage) == Some(t.backupToken) && t.backup !in w.names
    ensures Settling(t, w0, v, false)
  {
  }

  /** Retention ranks the same backups whether asked now or when the settlement began. */
  lemma RankingAgrees(t: Transaction, w0: World, w: World, p: Path)
    requires WellFormed(w0.env, t) && Valid(w0) && Settling(t, w0, w, false)
    requires At(w.names, t.backup) == Some(t.backupToken)
    ensures Outranked(t.stem, w.names, p) <==> Outranked(t.stem, WithBackup(t, w0.names), p)
  {
    StemIsUnmanaged(t.stem);
    forall q | KeyOf(t.stem, q).Some?
      ensures q in w.names <==> q in WithBackup(t, w0.names)
    {
      assert Drawn(q, w0.draws) && q != t.Live();
      assert Kept(t, w0.names, w.names, false, q);
    }
    assert Above(t.stem, w.names, p) == Above(t.stem, WithBackup(t, w0.names), p);
  }

  lemma SettlingRetains(t: Transaction, w0: World, w: World, v: World)
    requires WellFormed(w0.env, t) && Valid(w0) && Settling(t, w0, w, false)
    requires At(w.names, t.backup) == Some(t.backupToken)
    requires Retaining(t.stem, w, v)
    ensures Settling(t, w0, v, true)
  {
    forall p | p != t.Live() && Drawn(p, w0.draws)
      ensures Kept(t, w0.names, v.names, true, p)
    {
      RankingAgrees(t, w0, w, p);
      assert Kept(t, w0.names, w.names, false, p);
    }
    forall i | |w0.history| <= i < |v.history|
      ensures FrameEvent(t, w0.names, true, v.history[i])
    {
      if i < |w.history| {
        assert v.history[i] == w.history[i];
        assert FrameEvent(t, w0.names, false, w.history[i]);
      } else {
        RetentionEventAgrees(t, w0, w, v.history[i]);
      }
    }
    StemIsUnmanaged(t.stem);
  }

  lemma RetentionEventAgrees(t: Transaction, w0: World, w: World, e: Event)
    requires WellFormed(w0.env, t) && Valid(w0) && Settling(t, w0, w, false)
    requires At(w.names, t.backup) == Some(t.backupToken)
    requires RetentionEvent(t.stem, w.names, e)
    ensures RetentionEvent(t.stem, WithBackup(t, w0.names), e)
  {
    match e
    case Renamed(a, b, _) =>
      RankingAgrees(t, w0, w, a);
      RankingAgrees(t, w0, w, b);
    case Unlinked(_, f) =>
      var a :| a in w.names && Outranked(t.stem, w.names, a) && w.names[a] == f;
      OutrankedThen(t, w0, w, a);
    case _ =>
  }

  /** A backup retention may take now was one already when the settlement began. */
  lemma OutrankedThen(t: Transaction, w0: World, w: World, a: Path)
    requires WellFormed(w0.env, t) && Valid(w0) && Settling(t, w0, w, false)
    requires At(w.names, t.backup) == Some(t.backupToken) && a in w.names && Outranked(t.stem, w.names, a)
    ensures Outranked(t.stem, WithBackup(t, w0.names), a) && At(WithBackup(t, w0.names), a) == Some(w.names[a])
  {
    RankingAgrees(t, w0, w, a);
    StemIsUnmanaged(t.stem);
    assert Kept(t, w0.names, w.names, false, a);
  }

  lemma SettlingFinishes(t: Transaction, w0: World, w: World)
    requires WellFormed(w0.env, t) && Settling(t, w0, w, false)
    ensures Settling(t, w0, w, true)
  {
  }

  lemma SettlingBegins(t: Transaction, w0: World)
    requires WellFormed(w0.env, t) && Valid(w0)
    ensures Settling(t, w0, w0, false)
  {
  }

  // ----- a settlement that may also give the live name back ----------------

  /** Every file a foreign writer is owed, the recorded ones apart, is live or
      still displaced. */
  ghost predicate OwedSafe(t: Transaction, w: World) {
    forall f :: f in w.owed ==>
      || f in t.Tokens() || At(w.names, t.Live()) == Some(f)
      || At(w.names, t.displaced) == Some(f) || At(w.names, t.candidate) == Some(f)
  }

  /** How far any settlement of `t` begun in `w0` may have gone. */
  ghost predicate Settled(t: Transaction, w0: World, w: World, retaining: bool) {
    && Valid(w) && Onward(w0, w)
    && (forall p :: p != t.Live() && p != t.displaced && p != t.candidate && Drawn(p, w0.draws) ==>
          Kept(t, w0.names, w.names, retaining, p))
    && (forall i :: |w0.history| <= i < |w.history| ==> FrameEvent(t, w0.names, retaining, w.history[i]))
    && (OwedSafe(t, w0) ==> OwedSafe(t, w))
  }

  lemma SettlingIsSettled(t: Transaction, w0: World, w: World, retaining: bool)
    requires WellFormed(w0.env, t) && Valid(w0) && Settling(t, w0, w, retaining)
    ensures Settled(t, w0, w, retaining)
  {
  }

  lemma SettledThenSettling(t: Transaction, w0: World, w: World, v: World)
    requires WellFormed(w0.env, t) && Valid(w0) && Settled(t, w0, w, false) && Settling(t, w, v, false)
    ensures Settled(t, w0, v, false)
  {
    SettlingIsSettled(t, w, v, false);
    forall p | p != t.Live() && p != t.displaced && p != t.candidate && Drawn(p, w0.draws)
      ensures Kept(t, w0.names, v.names, false, p)
    {
      assert Drawn(p, w.draws);
      assert Kept(t, w0.names, w.names, false, p) && Kept(t, w.names, v.names, false, p);
    }
    forall i | |w0.history| <= i < |v.history|
      ensures FrameEvent(t, w0.names, false, v.history[i])
    {
      if i < |w.history| {
        assert v.history[i] == w.history[i];
      } else {
        assert FrameEvent(t, w.names, false, v.history[i]);
      }
    }
  }

  lemma SettledRetains(t: Transaction, w0: World, w: World)
    requires Settled(t, w0, w, false)
    ensures Settled(t, w0, w, true)
  {
  }

  /** The exchange that hands a displaced foreign file its live name back. */
  lemma SwapBackIsSettled(t: Transaction, w0: World, w: World, v: World, swapped: Option<(File, File)>)
    requires WellFormed(w0.env, t) && Valid(w0) && Valid(v) && Settling(t, w0, w, false)
    requires ExchangeEffect(w, v, t.displaced, t.Live(), swapped) && w0.env.platform.Unix?
    requires t.displaced in w.names && w.names[t.displaced] != t.expected && w.names[t.displaced] != t.candidateToken
    ensures Settled(t, w0, v, false)
  {
    SettlingIsSettled(t, w0, w, false);
    forall p | p != t.Live() && p != t.displaced && p != t.candidate && Drawn(p, w0.draws)
      ensures Kept(t, w0.names, v.names, false, p)
    {
      assert Kept(t, w0.names, w.names, false, p) && At(v.names, p) == At(w.names, p);
    }
    if OwedSafe(t, w) {
      SwapBackOwed(t, w, v, swapped);
    }
    forall i | |w0.history| <= i < |v.history|
      ensures FrameEvent(t, w0.names, false, v.history[i])
    {
      if i < |w.history| {
        assert v.history[i] == w.history[i];
      }
    }
  }

  lemma SwapBackOwed(t: Transaction, w: World, v: World, swapped: Option<(File, File)>)
    requires WellFormed(w.env, t) && w.env.platform.Unix? && OwedSafe(t, w)
    requires ExchangeEffect(w, v, t.displaced, t.Live(), swapped)
    ensures OwedSafe(t, v)
  {
    assert swapped.None? ==> At(v.names, t.displaced) == At(w.names, t.displaced);
  }

  lemma ReplaceBackOwed(t: Transaction, w: World, v: World, o: ReplaceOutcome)
    requires WellFormed(w.env, t) && w.env.platform.Windows? && OwedSafe(t, w)
    requires ReplaceEffect(w, v, t.displaced, t.Live(), t.candidate, o)
    requires t.candidate !in w.names
    ensures OwedSafe(t, v)
  {
  }

  lemma ReplaceBackIsSettled(t: Transaction, w0: World, w: World, v: World, o: ReplaceOutcome)
    requires WellFormed(w0.env, t) && Valid(w0) && Valid(v) && Settling(t, w0, w, false)
    requires ReplaceEffect(w, v, t.displaced, t.Live(), t.candidate, o) && w0.env.platform.Windows?
    requires t.displaced in w.names && w.names[t.displaced] != t.expected && w.names[t.displaced] != t.candidateToken
    requires t.candidate !in w.names
    ensures Settled(t, w0, v, false)
  {
    SettlingIsSettled(t, w0, w, false);
    if OwedSafe(t, w) {
      ReplaceBackOwed(t, w, v, o);
    }
    forall p | p != t.Live() && p != t.displaced && p != t.candidate && Drawn(p, w0.draws)
      ensures Kept(t, w0.names, v.names, false, p)
    {
      assert Kept(t, w0.names, w.names, false, p) && At(v.names, p) == At(w.names, p);
    }
    forall i | |w0.history| <= i < |v.history|
      ensures FrameEvent(t, w0.names, false, v.history[i])
    {
      if i < |w.history| {
        assert v.history[i] == w.history[i];
      }
    }
  }
}
