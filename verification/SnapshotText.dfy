/** The text form of a registry snapshot (src/installer_registry.rs), in which
    the installer keeps the value it has to restore. */
module SnapshotText {
  import opened Namespace
  import opened BackupNames
  import opened UserPath

  const U32_LIMIT: nat := 0x1_0000_0000

  function HexDigit(n: int): char
    requires 0 <= n < 16
  {
    if n < 10 then '0' + n as char else 'a' + (n - 10) as char
  }

  /** hex::decode accepts both cases. */
  function HexValue(c: char): (r: Option<int>)
    ensures r.Some? ==> 0 <= r.value < 16
  {
    if '0' <= c <= '9' then Some((c - '0') as int)
    else if 'a' <= c <= 'f' then Some((c - 'a') as int + 10)
    else if 'A' <= c <= 'F' then Some((c - 'A') as int + 10)
    else None
  }

  function HexEncode(bytes: seq<Byte>): (r: string)
    ensures |r| == 2 * |bytes|
  {
    if bytes == [] then "" else [HexDigit(bytes[0] / 16), HexDigit(bytes[0] % 16)] + HexEncode(bytes[1..])
  }

  function HexDecode(text: string): Option<seq<Byte>> {
    if text == "" then Some([])
    else if |text| == 1 then None
    else
      match (HexValue(text[0]), HexValue(text[1]), HexDecode(text[2..]))
      case (Some(high), Some(low), Some(rest)) =>
        var byte := 16 * high + low;
        if 0 <= byte < 0x100 then Some([byte] + rest) else None
      case _ => None
  }

  /** str::parse for a 32-bit number: digits, perhaps after a plus sign. */
  function ParseU32(text: string): Option<nat> {
    var digits := if text != "" && text[0] == '+' then text[1..] else text;
    if digits == "" || !AllDigits(digits) || ReadDigits(digits) >= U32_LIMIT then None else Some(ReadDigits(digits))
  }

  /** RegistrySnapshot::encode */
  function Encode(s: RegistrySnapshot): string {
    match s
    case Absent => "absent"
    case Present(valueType, bytes) => "v1" + [':'] + (Decimal(valueType) + [':'] + HexEncode(bytes))
  }

  /** RegistrySnapshot::decode */
  function Decode(text: string): Result<RegistrySnapshot> {
    if text == "absent" then Success(Absent)
    else
      match SplitOnce(text, ':')
      case None => Failure(Refused)
      case Some((version, fields)) =>
        if version != "v1" then Failure(Refused)
        else
          match SplitOnce(fields, ':')
          case None => Failure(Refused)
          case Some((number, digits)) =>
            match (ParseU32(number), HexDecode(digits))
            case (Some(valueType), Some(bytes)) =>
              if Supported(valueType, bytes) then Success(Present(valueType, bytes)) else Failure(Refused)
            case _ => Failure(Refused)
  }

  lemma {:induction false} HexRoundTrip(bytes: seq<Byte>)
    ensures HexDecode(HexEncode(bytes)) == Some(bytes)
  {
    if bytes != [] {
      HexRoundTrip(bytes[1..]);
      assert HexEncode(bytes)[2..] == HexEncode(bytes[1..]);
      assert HexValue(HexDigit(bytes[0] / 16)) == Some(bytes[0] / 16);
      assert HexValue(HexDigit(bytes[0] % 16)) == Some(bytes[0] % 16);
      assert bytes == [bytes[0]] + bytes[1..];
    }
  }

  /** Hexadecimal digits with small letters. */
  function Lowered(text: string): string {
    seq(|text|, i requires 0 <= i < |text| => if 'A' <= text[i] <= 'F' then text[i] - 'A' + 'a' else text[i])
  }

  lemma HexValueIff(c: char, n: int)
    requires 0 <= n < 16
    ensures HexValue(c) == Some(n) <==> Lowered([c]) == [HexDigit(n)]
  {
    assert Lowered([c])[0] == if 'A' <= c <= 'F' then c - 'A' + 'a' else c;
  }

  /** Exactly the hexadecimal text of some bytes is decoded, to these bytes,
      whatever the case of its letters. */
  lemma {:induction false} HexDecodeIff(text: string, bytes: seq<Byte>)
    ensures HexDecode(text) == Some(bytes) <==> Lowered(text) == HexEncode(bytes)
    decreases |text|
  {
    if |text| >= 2 && bytes != [] {
      var rest := bytes[1..];
      HexDecodeIff(text[2..], rest);
      HexValueIff(text[0], bytes[0] / 16);
      HexValueIff(text[1], bytes[0] % 16);
      LoweredSplits(text);
      HexPairs(text, bytes);
      assert HexEncode(bytes) == [HexDigit(bytes[0] / 16)] + [HexDigit(bytes[0] % 16)] + HexEncode(rest);
      SamePieces(Lowered([text[0]]), Lowered([text[1]]), Lowered(text[2..]),
                 [HexDigit(bytes[0] / 16)], [HexDigit(bytes[0] % 16)], HexEncode(rest));
    }
  }

  lemma SamePieces(a: string, b: string, c: string, x: string, y: string, z: string)
    requires |a| == |x| && |b| == |y|
    ensures a + b + c == x + y + z <==> a == x && b == y && c == z
  {
    if a + b + c == x + y + z {
      assert a == (a + b + c)[..|a|] && x == (x + y + z)[..|a|];
      assert b == (a + b + c)[|a|..|a| + |b|] && y == (x + y + z)[|a|..|a| + |b|];
      assert c == (a + b + c)[|a| + |b|..] && z == (x + y + z)[|a| + |b|..];
    }
  }

  lemma LoweredSplits(text: string)
    requires |text| >= 2
    ensures Lowered(text) == Lowered([text[0]]) + Lowered([text[1]]) + Lowered(text[2..])
  {
  }

  /** The first two digits are those of the first byte. */
  lemma HexPairs(text: string, bytes: seq<Byte>)
    requires |text| >= 2 && bytes != []
    ensures HexDecode(text) == Some(bytes)
       <==> && HexValue(text[0]) == Some(bytes[0] / 16) && HexValue(text[1]) == Some(bytes[0] % 16)
            && HexDecode(text[2..]) == Some(bytes[1..])
  {
    var high, low, rest := HexValue(text[0]), HexValue(text[1]), HexDecode(text[2..]);
    if high.Some? && low.Some? && rest.Some? {
      var decoded := [(16 * high.value + low.value) as Byte] + rest.value;
      assert HexDecode(text) == Some(decoded) && decoded[1..] == rest.value;
      assert bytes == [bytes[0]] + bytes[1..];
    }
  }

  /** Exactly decimal numbers below 2^32 are parsed, after a plus sign if any. */
  lemma ParseU32Iff(text: string, n: nat)
    ensures ParseU32(text) == Some(n)
       <==> n < U32_LIMIT && exists digits :: (text == digits || text == "+" + digits) && Number(digits, n)
  {
    var digits := if text != "" && text[0] == '+' then text[1..] else text;
    assert text == digits || text == "+" + digits;
    forall other | (text == other || text == "+" + other) && Number(other, n)
      ensures other == digits
    {
      assert other[0] in other;
      assert text == "+" + other ==> text[1..] == other;
    }
    assert ParseU32(text) == Some(n) ==> Number(digits, n);
  }

  predicate Number(digits: string, n: nat) {
    digits != "" && AllDigits(digits) && ReadDigits(digits) == n
  }

  /** v1, the number of the type and the bytes in hexadecimal */
  predicate SnapshotForm(text: string, number: string, digits: string, valueType: nat, bytes: seq<Byte>) {
    && text == "v1" + [':'] + (number + [':'] + digits)
    && ParseU32(number) == Some(valueType) && Lowered(digits) == HexEncode(bytes)
  }

  /** Exactly the texts of supported values in this form are read, to these
      values; an absent value has one text. */
  lemma DecodeIff(text: string, valueType: nat, bytes: seq<Byte>)
    ensures Decode(text) == Success(Absent) <==> text == "absent"
    ensures Decode(text) == Success(Present(valueType, bytes))
       <==> Supported(valueType, bytes) && exists number, digits :: SnapshotForm(text, number, digits, valueType, bytes)
  {
    forall number, digits | SnapshotForm(text, number, digits, valueType, bytes)
      ensures Decode(text) == Success(Present(valueType, bytes)) <==> Supported(valueType, bytes)
    {
      assert ':' !in number by {
        ParseU32Iff(number, valueType);
      }
      SplitAtFirst(number, ':', digits);
      SplitAtFirst("v1", ':', number + [':'] + digits);
      HexDecodeIff(digits, bytes);
      assert text[0] == 'v';
    }
    if Decode(text) == Success(Present(valueType, bytes)) {
      SplitJoins(text, ':');
      var fields := SplitOnce(text, ':').value.1;
      SplitJoins(fields, ':');
      var (number, digits) := SplitOnce(fields, ':').value;
      HexDecodeIff(digits, bytes);
      assert SnapshotForm(text, number, digits, valueType, bytes);
    }
  }

  /** A snapshot is read back exactly when the registry code supports its value. */
  lemma SnapshotRoundTrip(s: RegistrySnapshot)
    requires s.Present? ==> s.valueType < U32_LIMIT
    ensures Decode(Encode(s)) == Success(s) <==> s.Absent? || Supported(s.valueType, s.bytes)
    ensures s.Present? && !Supported(s.valueType, s.bytes) ==> Decode(Encode(s)).Failure?
  {
    if s.Present? {
      var number, digits := Decimal(s.valueType), HexEncode(s.bytes);
      DecimalReadsBack(s.valueType);
      HexRoundTrip(s.bytes);
      SplitAtFirst(number, ':', digits);
      SplitAtFirst("v1", ':', number + [':'] + digits);
      assert Encode(s) == "v1" + [':'] + (number + [':'] + digits);
      assert Encode(s)[0] == 'v';
    }
  }
}
