/** The publication record (src/auth.rs): which transaction a record names, and
    why the printed names of one transaction never coincide. */
module Records {
  import opened Namespace
  import opened BackupNames
  import opened Retention
  import opened Transactions

  const RECORD_VERSION := 1

  /** parse_publication_record: the transaction a record of `stem` names. */
  function ParsePublicationRecord(platform: Platform, stem: string, record: PublicationRecord, recordToken: FileToken)
    : (r: Result<Transaction>)
  {
    if record.version != RECORD_VERSION || !ValidNonce(record.nonce)
       || ValidateBackupStamp(record.backupStamp).None? then Failure(Refused)
    else
      var t := Printed(platform, stem, record, recordToken);
      if PathsDisjoint(platform, t) then Success(t) else Failure(Refused)
  }

  function Printed(platform: Platform, stem: string, record: PublicationRecord, recordToken: FileToken): Transaction {
    var candidate := Named(RoleName(stem, "candidate", record.nonce));
    Transaction(
      stem,
      candidate,
      if platform.Unix? then candidate else Named(RoleName(stem, "displaced", record.nonce)),
      Named(RoleName(stem, "backup", record.nonce)),
      Named(BackupName(stem, record.backupStamp, record.nonce)),
      Named(RecordName(stem)),
      record.expected, record.candidate, record.backup, recordToken)
  }

  /** A private name differs from every backup name right after the stem. */
  lemma PrivateNamesUnmanaged(stem: string, suffix: string)
    ensures ManagedBackupSortKey(stem, PrivateName(stem, suffix)).None?
    ensures PrivateName(stem, suffix) != stem
  {
    var name := PrivateName(stem, suffix);
    assert name[|stem| + 1] == '.';
    assert |name| > |stem|;
    if ManagedBackupSortKey(stem, name).Some? {
      var key := ManagedBackupSortKey(stem, name).value;
      KeyInvertsBackupName(stem, name, key.stamp, key.nonce);
      assert BackupName(stem, Decimal(key.stamp), key.nonce)[|stem| + 1] == 'b';
    }
  }

  lemma PrivateNamesInjective(stem: string, x: string, y: string)
    requires PrivateName(stem, x) == PrivateName(stem, y)
    ensures x == y
  {
    var at := |"." + stem + ".codex-switch-"|;
    assert PrivateName(stem, x)[at..] == x && PrivateName(stem, y)[at..] == y;
  }

  /** The first letters keep the roles of one transaction apart. */
  lemma RolesDiffer(stem: string, x: string, y: string)
    requires x != "" && y != "" && x[0] != y[0]
    ensures PrivateName(stem, x) != PrivateName(stem, y)
  {
    if PrivateName(stem, x) == PrivateName(stem, y) {
      PrivateNamesInjective(stem, x, y);
    }
  }

  /** The overlap refusal never fires on printed names: every record with a
      valid version, nonce and stamp names a well-formed transaction. */
  lemma PrintedIsWellFormed(env: Surroundings, stem: string, record: PublicationRecord, recordToken: FileToken)
    requires env.contested == Named(stem)
    requires ValidNonce(record.nonce) && ValidateBackupStamp(record.backupStamp).Some?
    ensures WellFormed(env, Printed(env.platform, stem, record, recordToken))
  {
    var candidate := "candidate" + "-" + record.nonce;
    var displaced := "displaced" + "-" + record.nonce;
    var backup := "backup" + "-" + record.nonce;
    RolesDiffer(stem, candidate, displaced);
    RolesDiffer(stem, candidate, backup);
    RolesDiffer(stem, displaced, backup);
    RolesDiffer(stem, candidate, "publication");
    RolesDiffer(stem, displaced, "publication");
    RolesDiffer(stem, backup, "publication");
    PrivateNamesUnmanaged(stem, candidate);
    PrivateNamesUnmanaged(stem, displaced);
    PrivateNamesUnmanaged(stem, backup);
    PrivateNamesUnmanaged(stem, "publication");
    BackupIsManaged(stem, record.backupStamp, record.nonce);
  }

  lemma BackupIsManaged(stem: string, stamp: string, nonce: string)
    requires ValidNonce(nonce) && ValidateBackupStamp(stamp).Some?
    ensures ManagedBackupSortKey(stem, BackupName(stem, stamp, nonce)).Some?
    ensures BackupName(stem, stamp, nonce) != stem
  {
    var value := ValidateBackupStamp(stamp).value;
    StampIsCanonicalDecimal(stamp, value);
    KeyInvertsBackupName(stem, BackupName(stem, stamp, nonce), value, nonce);
    StemIsUnmanaged(stem);
  }

  /** A record is accepted exactly when its version, nonce and stamp are valid. */
  lemma RecordAcceptedIff(env: Surroundings, stem: string, record: PublicationRecord, recordToken: FileToken)
    requires env.contested == Named(stem)
    ensures ParsePublicationRecord(env.platform, stem, record, recordToken).Success?
       <==> record.version == RECORD_VERSION && ValidNonce(record.nonce) && ValidateBackupStamp(record.backupStamp).Some?
    ensures ParsePublicationRecord(env.platform, stem, record, recordToken).Success? ==>
              WellFormed(env, ParsePublicationRecord(env.platform, stem, record, recordToken).value)
  {
    if ValidNonce(record.nonce) && ValidateBackupStamp(record.backupStamp).Some? {
      PrintedIsWellFormed(env, stem, record, recordToken);
    }
  }
}
