/** The names of an auth publication (src/auth.rs): the role files of one
    transaction, and the managed backups that are ranked for retention. */
module BackupNames {
  import opened Namespace

  const U128_LIMIT: nat := 0x1_0000_0000_0000_0000_0000_0000_0000_0000

  predicate IsDigit(c: char) {
    '0' <= c <= '9'
  }

  predicate IsNonceChar(c: char) {
    IsDigit(c) || 'a' <= c <= 'f'
  }

  /** validate_transaction_nonce */
  predicate ValidNonce(nonce: string) {
    |nonce| == 32 && forall i :: 0 <= i < |nonce| ==> IsNonceChar(nonce[i])
  }

  /** Sixteen bytes in small hexadecimal. */
  lemma ValidNonceIff(nonce: string)
    ensures ValidNonce(nonce) <==> |nonce| == 32 && forall c :: c in nonce ==> c in "0123456789abcdef"
  {
    assert forall c :: IsNonceChar(c) <==> c in "0123456789abcdef";
    assert forall i :: 0 <= i < |nonce| ==> nonce[i] in nonce;
  }

  predicate AllDigits(s: string) {
    forall i :: 0 <= i < |s| ==> IsDigit(s[i])
  }

  /** u128 Display */
  function Decimal(n: nat): string {
    if n < 10 then ['0' + n as char] else Decimal(n / 10) + ['0' + (n % 10) as char]
  }

  /** Positional reading of a digit string. */
  function ReadDigits(s: string): nat
    requires AllDigits(s)
  {
    if s == "" then 0 else 10 * ReadDigits(s[..|s| - 1]) + (s[|s| - 1] - '0') as nat
  }

  /** validate_backup_stamp: digits only, within u128, in canonical form. */
  function ValidateBackupStamp(stamp: string): Option<nat> {
    if stamp == "" || !AllDigits(stamp) then None
    else
      var parsed := ReadDigits(stamp);
      if parsed >= U128_LIMIT || Decimal(parsed) != stamp then None else Some(parsed)
  }

  /** The file name backup_path_for_transaction prints. */
  function BackupName(stem: string, stamp: string, nonce: string): string {
    stem + ".bak." + stamp + "-" + nonce
  }

  /** The dot-prefixed private names beside the live file. */
  function PrivateName(stem: string, suffix: string): string {
    "." + stem + ".codex-switch-" + suffix
  }

  function RoleName(stem: string, role: string, nonce: string): string {
    PrivateName(stem, role + "-" + nonce)
  }

  function RecordName(stem: string): string {
    PrivateName(stem, "publication")
  }

  function StripPrefix(s: string, prefix: string): Option<string> {
    if |prefix| <= |s| && s[..|prefix|] == prefix then Some(s[|prefix|..]) else None
  }

  function SplitOnce(s: string, separator: char): Option<(string, string)> {
    if s == "" then None
    else if s[0] == separator then Some(("", s[1..]))
    else
      match SplitOnce(s[1..], separator)
      case None => None
      case Some(parts) => Some(([s[0]] + parts.0, parts.1))
  }

  datatype SortKey = SortKey(stamp: nat, nonce: string)

  /** managed_backup_sort_key */
  function ManagedBackupSortKey(stem: string, name: string): Option<SortKey> {
    match StripPrefix(name, stem)
    case None => None
    case Some(rest) =>
      match StripPrefix(rest, ".bak.")
      case None => None
      case Some(suffix) =>
        match SplitOnce(suffix, '-')
        case None => None
        case Some(parts) =>
          match ValidateBackupStamp(parts.0)
          case None => None
          case Some(stamp) => if ValidNonce(parts.1) then Some(SortKey(stamp, parts.1)) else None
  }

  lemma {:induction false} DecimalReadsBack(n: nat)
    ensures Decimal(n) != "" && AllDigits(Decimal(n)) && ReadDigits(Decimal(n)) == n
  {
    if n >= 10 {
      DecimalReadsBack(n / 10);
      var s := Decimal(n);
      assert s[..|s| - 1] == Decimal(n / 10);
    } else {
      assert Decimal(n)[..0] == "";
    }
  }

  /** The accepted stamps are exactly the canonical decimals of u128 values. */
  lemma StampIsCanonicalDecimal(stamp: string, value: nat)
    ensures ValidateBackupStamp(stamp) == Some(value) <==> value < U128_LIMIT && stamp == Decimal(value)
  {
    DecimalReadsBack(value);
  }

  lemma {:induction false} SplitAtFirst(head: string, separator: char, tail: string)
    requires forall i :: 0 <= i < |head| ==> head[i] != separator
    ensures SplitOnce(head + [separator] + tail, separator) == Some((head, tail))
  {
    var s := head + [separator] + tail;
    if head == "" {
      assert s[1..] == tail;
    } else {
      assert s[1..] == head[1..] + [separator] + tail;
      SplitAtFirst(head[1..], separator, tail);
      assert [head[0]] + head[1..] == head;
    }
  }

  lemma {:induction false} SplitJoins(s: string, separator: char)
    ensures SplitOnce(s, separator).Some? ==>
              s == SplitOnce(s, separator).value.0 + [separator] + SplitOnce(s, separator).value.1
  {
    if s != "" && s[0] != separator {
      SplitJoins(s[1..], separator);
      assert s == [s[0]] + s[1..];
    }
  }

  /** A key is returned exactly for the names that backups are given, and it
      gives back the stamp and nonce that were printed. */
  lemma KeyInvertsBackupName(stem: string, name: string, stamp: nat, nonce: string)
    ensures ManagedBackupSortKey(stem, name) == Some(SortKey(stamp, nonce))
       <==> stamp < U128_LIMIT && ValidNonce(nonce) && name == BackupName(stem, Decimal(stamp), nonce)
  {
    if stamp < U128_LIMIT && ValidNonce(nonce) && name == BackupName(stem, Decimal(stamp), nonce) {
      PrintedHasKey(stem, stamp, nonce);
    }
    if ManagedBackupSortKey(stem, name) == Some(SortKey(stamp, nonce)) {
      KeyedIsPrinted(stem, name, stamp, nonce);
    }
  }

  lemma PrefixStripped(prefix: string, rest: string)
    ensures StripPrefix(prefix + rest, prefix) == Some(rest)
  {
  }

  lemma PrintedHasKey(stem: string, stamp: nat, nonce: string)
    requires stamp < U128_LIMIT && ValidNonce(nonce)
    ensures ManagedBackupSortKey(stem, BackupName(stem, Decimal(stamp), nonce)) == Some(SortKey(stamp, nonce))
  {
    var suffix := Decimal(stamp) + ['-'] + nonce;
    assert BackupName(stem, Decimal(stamp), nonce) == stem + (".bak." + suffix);
    PrefixStripped(stem, ".bak." + suffix);
    PrefixStripped(".bak.", suffix);
    DecimalReadsBack(stamp);
    SplitAtFirst(Decimal(stamp), '-', nonce);
    StampIsCanonicalDecimal(Decimal(stamp), stamp);
  }

  lemma KeyedIsPrinted(stem: string, name: string, stamp: nat, nonce: string)
    requires ManagedBackupSortKey(stem, name) == Some(SortKey(stamp, nonce))
    ensures stamp < U128_LIMIT && ValidNonce(nonce) && name == BackupName(stem, Decimal(stamp), nonce)
  {
    var rest := StripPrefix(name, stem).value;
    var suffix := StripPrefix(rest, ".bak.").value;
    SplitJoins(suffix, '-');
    var parts := SplitOnce(suffix, '-').value;
    StampIsCanonicalDecimal(parts.0, stamp);
    assert suffix == Decimal(stamp) + "-" + nonce;
    assert name == stem + rest && rest == ".bak." + suffix;
    assert stem + (".bak." + (Decimal(stamp) + "-" + nonce)) == stem + ".bak." + Decimal(stamp) + "-" + nonce;
  }
}
