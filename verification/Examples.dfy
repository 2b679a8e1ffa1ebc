/** A transaction with concrete names and files, for the runs that show where a
    guarantee ends. */
module Examples {
  import opened Namespace
  import opened BackupNames
  import opened Transactions
  import opened Records

  const STEM := "auth.json"
  const NONCE := "0123456789abcdef0123456789abcdef"
  const OLD := File(1, Raw([1]))
  const NEW := File(2, Raw([2]))
  const COPY := File(3, Raw([1]))

  function Example(platform: Platform): Transaction {
    var record := PublicationRecord(RECORD_VERSION, NONCE, "7", OLD, NEW, COPY);
    Printed(platform, STEM, record, File(4, Encoded(record)))
  }

  function Env(platform: Platform): Surroundings {
    Surroundings(Named(STEM), false, true, platform)
  }

  lemma ExampleIsWellFormed(platform: Platform)
    ensures WellFormed(Env(platform), Example(platform))
    ensures Example(platform).backup == Named(BackupName(STEM, Decimal(7), NONCE))
  {
    assert Decimal(7) == "7";
    StampIsCanonicalDecimal("7", 7);
    assert ValidNonce(NONCE);
    var record := PublicationRecord(RECORD_VERSION, NONCE, "7", OLD, NEW, COPY);
    PrintedIsWellFormed(Env(platform), STEM, record, File(4, Encoded(record)));
  }
}
