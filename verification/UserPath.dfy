/** The raw User PATH edit (src/installer_registry.rs): a registry string of
    UTF-16 units whose `;`-separated segments are appended or filtered, with
    every other unit left as it was. */
module UserPath {
  import opened Namespace

  type Unit = x: int | 0 <= x < 0x1_0000
  type Byte = x: int | 0 <= x < 0x100
  type Units = seq<Unit>

  const SEPARATOR: Unit := 59
  const REG_SZ: nat := 1
  const REG_EXPAND_SZ: nat := 2
  const MAX_COMPARED: nat := 0x7fff_ffff

  datatype RegistrySnapshot = Absent | Present(valueType: nat, bytes: seq<Byte>)

  // ----- units and bytes ---------------------------------------------------

  /** raw_bytes: little-endian */
  function RawBytes(units: Units): (r: seq<Byte>)
    ensures |r| == 2 * |units|
  {
    if units == [] then [] else [units[0] % 0x100, units[0] / 0x100] + RawBytes(units[1..])
  }

  /** The units of an even number of bytes; an odd last byte is left out. */
  function UnitsOf(bytes: seq<Byte>): Units {
    if |bytes| < 2 then [] else [bytes[0] as int + 0x100 * bytes[1] as int] + UnitsOf(bytes[2..])
  }

  lemma {:induction false} UnitsOfRawBytes(units: Units)
    ensures UnitsOf(RawBytes(units)) == units
  {
    if units != [] {
      UnitsOfRawBytes(units[1..]);
      assert RawBytes(units)[2..] == RawBytes(units[1..]);
    }
  }

  /** The low byte of each unit comes first. */
  lemma {:induction false} RawBytesAreLittleEndian(units: Units, i: nat)
    requires i < |units|
    ensures RawBytes(units)[2 * i] == units[i] % 0x100 && RawBytes(units)[2 * i + 1] == units[i] / 0x100
  {
    if i > 0 {
      RawBytesAreLittleEndian(units[1..], i - 1);
    }
  }

  lemma {:induction false} RawBytesOfUnits(bytes: seq<Byte>)
    requires |bytes| % 2 == 0
    ensures RawBytes(UnitsOf(bytes)) == bytes
  {
    if bytes != [] {
      RawBytesOfUnits(bytes[2..]);
      var units := UnitsOf(bytes);
      assert units[1..] == UnitsOf(bytes[2..]);
      assert units[0] % 0x100 == bytes[0] && units[0] / 0x100 == bytes[1];
      assert bytes == [bytes[0], bytes[1]] + bytes[2..];
    }
  }

  predicate IsHigh(u: Unit) {
    0xD800 <= u < 0xDC00
  }

  predicate IsLow(u: Unit) {
    0xDC00 <= u < 0xE000
  }

  /** String::from_utf16 succeeds: surrogates come in pairs. */
  predicate ValidUtf16(s: Units) {
    if s == [] then true
    else if IsHigh(s[0]) then |s| >= 2 && IsLow(s[1]) && ValidUtf16(s[2..])
    else !IsLow(s[0]) && ValidUtf16(s[1..])
  }

  /** A Unicode scalar value */
  type Scalar = x: int | 0 <= x < 0xD800 || 0xE000 <= x < 0x11_0000

  function Utf16Of(c: Scalar): Units {
    if c < 0x1_0000 then [c] else [0xD800 + (c - 0x1_0000) / 0x400, 0xDC00 + (c - 0x1_0000) % 0x400]
  }

  function Utf16(text: seq<Scalar>): Units {
    if text == [] then [] else Utf16Of(text[0]) + Utf16(text[1..])
  }

  lemma {:induction false} EncodedIsValid(text: seq<Scalar>)
    ensures ValidUtf16(Utf16(text))
  {
    if text != [] {
      EncodedIsValid(text[1..]);
      var s := Utf16(text);
      assert s[|Utf16Of(text[0])|..] == Utf16(text[1..]);
    }
  }

  lemma {:induction false} ValidIsEncoded(s: Units) returns (text: seq<Scalar>)
    requires ValidUtf16(s)
    ensures Utf16(text) == s
  {
    if s == [] {
      text := [];
    } else if IsHigh(s[0]) {
      var rest := ValidIsEncoded(s[2..]);
      var high: int, low: int := s[0], s[1];
      var c: Scalar := 0x1_0000 + (high - 0xD800) * 0x400 + (low - 0xDC00);
      text := [c] + rest;
      assert Utf16Of(c) == [s[0], s[1]] && text[1..] == rest;
      assert s == [s[0], s[1]] + s[2..];
    } else {
      var rest := ValidIsEncoded(s[1..]);
      text := [s[0]] + rest;
      assert text[1..] == rest;
      assert s == [s[0]] + s[1..];
    }
  }

  /** Exactly the encodings of Unicode text are valid. */
  lemma ValidIffEncoded(s: Units)
    ensures ValidUtf16(s) <==> exists text :: Utf16(text) == s
  {
    if ValidUtf16(s) {
      var text := ValidIsEncoded(s);
      assert Utf16(text) == s;
    }
    forall text | Utf16(text) == s
      ensures ValidUtf16(s)
    {
      EncodedIsValid(text);
    }
  }

  function FirstNul(units: Units): (r: nat)
    ensures r <= |units|
    ensures r < |units| ==> units[r] == 0
    ensures forall i :: 0 <= i < r ==> units[i] != 0
  {
    if units == [] || units[0] == 0 then 0 else 1 + FirstNul(units[1..])
  }

  function Content(bytes: seq<Byte>): Units {
    var units := UnitsOf(bytes);
    units[..FirstNul(units)]
  }

  function Suffix(bytes: seq<Byte>): Units {
    var units := UnitsOf(bytes);
    units[FirstNul(units)..]
  }

  /** validate_supported_value */
  predicate Supported(valueType: nat, bytes: seq<Byte>) {
    && valueType in {REG_SZ, REG_EXPAND_SZ}
    && |bytes| % 2 == 0
    && (forall i :: 0 <= i < |Suffix(bytes)| ==> Suffix(bytes)[i] == 0)
    && ValidUtf16(Content(bytes))
  }

  predicate NulFree(s: Units) {
    forall i :: 0 <= i < |s| ==> s[i] != 0
  }

  /** A NUL suffix is found again behind any NUL-free content. */
  lemma ContentAndSuffix(content: Units, suffix: Units)
    requires NulFree(content) && suffix != [] && suffix[0] == 0
    ensures Content(RawBytes(content + suffix)) == content && Suffix(RawBytes(content + suffix)) == suffix
  {
    var units := content + suffix;
    UnitsOfRawBytes(units);
    assert units[|content|] == 0;
    assert forall i :: 0 <= i < |content| ==> units[i] == content[i] != 0;
  }

  /** Valid UTF-16 without NULs, then any number of NULs. */
  predicate IsText(bytes: seq<Byte>, content: Units, nuls: Units) {
    && bytes == RawBytes(content + nuls) && ValidUtf16(content) && NulFree(content)
    && forall i :: 0 <= i < |nuls| ==> nuls[i] == 0
  }

  lemma TextParts(bytes: seq<Byte>, content: Units, nuls: Units)
    requires IsText(bytes, content, nuls)
    ensures Content(bytes) == content && Suffix(bytes) == nuls
  {
    UnitsOfRawBytes(content + nuls);
    if nuls == [] {
      assert content + nuls == content;
    } else {
      ContentAndSuffix(content, nuls);
    }
  }

  /** A value is supported exactly when it is such a text of one of two types. */
  lemma SupportedIff(valueType: nat, bytes: seq<Byte>)
    ensures Supported(valueType, bytes)
       <==> (valueType == REG_SZ || valueType == REG_EXPAND_SZ) && exists content, nuls :: IsText(bytes, content, nuls)
  {
    if Supported(valueType, bytes) {
      RawBytesOfUnits(bytes);
      assert UnitsOf(bytes) == Content(bytes) + Suffix(bytes);
      assert IsText(bytes, Content(bytes), Suffix(bytes));
    }
    if content, nuls :| IsText(bytes, content, nuls) {
      TextParts(bytes, content, nuls);
    }
  }

  // ----- segments ----------------------------------------------------------

  /** content.split on the separator */
  function Split(s: Units): (r: seq<Units>)
    ensures |r| >= 1
  {
    if s == [] then [[]]
    else
      var rest := Split(s[1..]);
      if s[0] == SEPARATOR then [[]] + rest else [[s[0]] + rest[0]] + rest[1..]
  }

  function Join(parts: seq<Units>): Units
    requires |parts| >= 1
  {
    if |parts| == 1 then parts[0] else parts[0] + [SEPARATOR] + Join(parts[1..])
  }

  predicate SeparatorFree(s: Units) {
    forall i :: 0 <= i < |s| ==> s[i] != SEPARATOR
  }

  lemma {:induction false} SplitPartsAreFree(s: Units)
    ensures forall i :: 0 <= i < |Split(s)| ==> SeparatorFree(Split(s)[i])
  {
    if s != [] {
      SplitPartsAreFree(s[1..]);
    }
  }

  /** Splitting and joining undo each other. */
  lemma {:induction false} JoinOfSplit(s: Units)
    ensures Join(Split(s)) == s
  {
    if s != [] {
      var rest := Split(s[1..]);
      JoinOfSplit(s[1..]);
      assert s == [s[0]] + s[1..];
      if s[0] == SEPARATOR {
        assert Split(s)[1..] == rest;
      } else if |rest| > 1 {
        assert Split(s)[1..] == rest[1..];
      }
    }
  }

  lemma {:induction false} SplitOfFree(s: Units)
    requires SeparatorFree(s)
    ensures Split(s) == [s]
  {
    if s != [] {
      SplitOfFree(s[1..]);
      assert s == [s[0]] + s[1..];
    }
  }

  /** A separator cuts cleanly. */
  lemma {:induction false} SplitOfConcat(a: Units, b: Units)
    ensures Split(a + [SEPARATOR] + b) == Split(a) + Split(b)
  {
    var s := a + [SEPARATOR] + b;
    if a == [] {
      assert s[1..] == b;
    } else {
      assert s[1..] == a[1..] + [SEPARATOR] + b;
      SplitOfConcat(a[1..], b);
    }
  }

  lemma {:induction false} SplitOfJoin(parts: seq<Units>)
    requires |parts| >= 1 && forall i :: 0 <= i < |parts| ==> SeparatorFree(parts[i])
    ensures Split(Join(parts)) == parts
  {
    SplitOfFree(parts[0]);
    if |parts| > 1 {
      SplitOfJoin(parts[1..]);
      SplitOfConcat(parts[0], Join(parts[1..]));
    }
  }

  /** ordinal_path_equal: equal once each unit is folded to upper case. */
  predicate OrdinalPathEqual(upper: Unit -> Unit, left: Units, right: Units) {
    |left| == |right| && forall i :: 0 <= i < |left| ==> upper(left[i]) == upper(right[i])
  }

  /** The segments that do not match the entry, in order. */
  function Unmatched(upper: Unit -> Unit, parts: seq<Units>, entry: Units): seq<Units> {
    if parts == [] then []
    else if OrdinalPathEqual(upper, parts[0], entry) then Unmatched(upper, parts[1..], entry)
    else [parts[0]] + Unmatched(upper, parts[1..], entry)
  }

  predicate Matches(upper: Unit -> Unit, content: Units, entry: Units) {
    exists i :: 0 <= i < |Split(content)| && OrdinalPathEqual(upper, Split(content)[i], entry)
  }

  lemma {:induction false} UnmatchedAll(upper: Unit -> Unit, parts: seq<Units>, entry: Units)
    ensures (forall i :: 0 <= i < |parts| ==> !OrdinalPathEqual(upper, parts[i], entry)) ==> Unmatched(upper, parts, entry) == parts
    ensures forall i :: 0 <= i < |Unmatched(upper, parts, entry)| ==>
              !OrdinalPathEqual(upper, Unmatched(upper, parts, entry)[i], entry) && Unmatched(upper, parts, entry)[i] in parts
  {
    if parts != [] {
      UnmatchedAll(upper, parts[1..], entry);
      assert parts == [parts[0]] + parts[1..];
    }
  }

  lemma {:induction false} UnmatchedOfConcat(upper: Unit -> Unit, a: seq<Units>, b: seq<Units>, entry: Units)
    ensures Unmatched(upper, a + b, entry) == Unmatched(upper, a, entry) + Unmatched(upper, b, entry)
  {
    if a == [] {
      assert a + b == b;
    } else {
      assert (a + b)[1..] == a[1..] + b;
      UnmatchedOfConcat(upper, a[1..], b, entry);
    }
  }

  // ----- the edit ----------------------------------------------------------

  /** An entry the installer accepts; a Rust string is valid UTF-16. */
  predicate UsableEntry(entry: Units) {
    entry != [] && SeparatorFree(entry) && NulFree(entry)
  }

  /** Adding an entry: one more segment, or the only one. */
  function Added(content: Units, entry: Units): Units {
    if content == [] then entry else content + [SEPARATOR] + entry
  }

  /** transform_entry on a value that can be edited */
  function Transformed(upper: Unit -> Unit, current: RegistrySnapshot, entry: Units, add: bool): RegistrySnapshot {
    match current
    case Absent => if add then Present(REG_EXPAND_SZ, RawBytes(entry + [0])) else Absent
    case Present(valueType, bytes) =>
      var content, suffix := Content(bytes), Suffix(bytes);
      if add == Matches(upper, content, entry) then current
      else if add then Present(valueType, RawBytes(Added(content, entry) + suffix))
      else
        var kept := Unmatched(upper, Split(content), entry);
        if kept == [] then Absent else Present(valueType, RawBytes(Join(kept) + suffix))
  }

  /** The value is absent, or a terminated string the registry may hold. */
  predicate Editable(current: RegistrySnapshot) {
    current.Present? ==> Supported(current.valueType, current.bytes) && Suffix(current.bytes) != []
  }

  lemma {:induction false} ValidAcrossSeparator(a: Units, b: Units)
    ensures ValidUtf16(a + [SEPARATOR] + b) <==> ValidUtf16(a) && ValidUtf16(b)
    decreases |a|
  {
    var s := a + [SEPARATOR] + b;
    if a == [] {
      assert s[1..] == b;
    } else if IsHigh(a[0]) && |a| >= 2 {
      assert s[2..] == a[2..] + [SEPARATOR] + b;
      ValidAcrossSeparator(a[2..], b);
    } else {
      assert s[1..] == a[1..] + [SEPARATOR] + b;
      ValidAcrossSeparator(a[1..], b);
    }
  }

  /** A joined value is valid, or free of NULs, exactly when its segments are. */
  lemma {:induction false} JoinIsSegmentwise(parts: seq<Units>)
    requires |parts| >= 1
    ensures ValidUtf16(Join(parts)) <==> forall i :: 0 <= i < |parts| ==> ValidUtf16(parts[i])
    ensures NulFree(Join(parts)) <==> forall i :: 0 <= i < |parts| ==> NulFree(parts[i])
  {
    if |parts| > 1 {
      var rest := parts[1..];
      JoinIsSegmentwise(rest);
      ValidAcrossSeparator(parts[0], Join(rest));
      NulFreeAcrossSeparator(parts[0], Join(rest));
      assert (forall i :: 0 <= i < |parts| ==> ValidUtf16(parts[i]))
        <==> ValidUtf16(parts[0]) && forall i :: 0 <= i < |rest| ==> ValidUtf16(rest[i]) by {
        assert forall i :: 0 <= i < |rest| ==> rest[i] == parts[i + 1];
        assert forall i :: 0 < i < |parts| ==> parts[i] == rest[i - 1];
      }
      assert (forall i :: 0 <= i < |parts| ==> NulFree(parts[i]))
        <==> NulFree(parts[0]) && forall i :: 0 <= i < |rest| ==> NulFree(rest[i]) by {
        assert forall i :: 0 <= i < |rest| ==> rest[i] == parts[i + 1];
        assert forall i :: 0 < i < |parts| ==> parts[i] == rest[i - 1];
      }
    }
  }

  lemma NulFreeAcrossSeparator(a: Units, b: Units)
    ensures NulFree(a + [SEPARATOR] + b) <==> NulFree(a) && NulFree(b)
  {
    var s := a + [SEPARATOR] + b;
    assert forall i :: 0 <= i < |a| ==> s[i] == a[i];
    assert forall i :: 0 <= i < |b| ==> s[|a| + 1 + i] == b[i];
  }

  /** The segments of an edited value: one appended, or the matching ones gone. */
  function EditedSegments(upper: Unit -> Unit, content: Units, entry: Units, add: bool): seq<Units> {
    if add then (if content == [] then [entry] else Split(content) + [entry])
    else Unmatched(upper, Split(content), entry)
  }

  /** An edit that applies: its content is valid, NUL-free and splits into
      exactly the edited segments. */
  lemma EditedContent(upper: Unit -> Unit, content: Units, entry: Units, add: bool)
    requires ValidUtf16(content) && NulFree(content) && UsableEntry(entry) && ValidUtf16(entry)
    requires EditedSegments(upper, content, entry, add) != []
    ensures
      var parts := EditedSegments(upper, content, entry, add);
      && ValidUtf16(Join(parts)) && NulFree(Join(parts)) && Split(Join(parts)) == parts
      && (add ==> Join(parts) == Added(content, entry))
  {
    var parts := EditedSegments(upper, content, entry, add);
    var before := Split(content);
    SplitPartsAreFree(content);
    JoinOfSplit(content);
    JoinIsSegmentwise(before);
    UnmatchedAll(upper, before, entry);
    forall i | 0 <= i < |parts|
      ensures ValidUtf16(parts[i]) && NulFree(parts[i]) && SeparatorFree(parts[i])
    {
      assert parts[i] == entry || parts[i] in before;
    }
    JoinIsSegmentwise(parts);
    SplitOfJoin(parts);
    if add {
      AppendedJoins(content, entry);
    }
  }

  lemma AppendedJoins(content: Units, entry: Units)
    requires UsableEntry(entry)
    ensures content != [] ==> Join(Split(content) + [entry]) == Added(content, entry)
  {
    if content != [] {
      SplitOfFree(entry);
      SplitOfConcat(content, entry);
      JoinOfSplit(Added(content, entry));
    }
  }

  /** What an edit does to a present value, in one place: the type and the NUL
      suffix stay, the result is editable again, and its segments are the edited
      ones. */
  lemma TransformEditsSegments(upper: Unit -> Unit, current: RegistrySnapshot, entry: Units, add: bool)
    requires current.Present? && Editable(current) && UsableEntry(entry) && ValidUtf16(entry)
    ensures
      var after := Transformed(upper, current, entry, add);
      var parts := EditedSegments(upper, Content(current.bytes), entry, add);
      if add == Matches(upper, Content(current.bytes), entry) then after == current
      else if parts == [] then after.Absent?
      else && after.Present? && Editable(after)
           && after.valueType == current.valueType && Suffix(after.bytes) == Suffix(current.bytes)
           && Content(after.bytes) == Join(parts) && Split(Content(after.bytes)) == parts
  {
    var content, suffix := Content(current.bytes), Suffix(current.bytes);
    var parts := EditedSegments(upper, content, entry, add);
    if add != Matches(upper, content, entry) && parts != [] {
      EditedContent(upper, content, entry, add);
      ContentAndSuffix(Join(parts), suffix);
    }
  }

  /** A segment with the case of every unit folded. */
  function Folded(upper: Unit -> Unit, s: Units): Units {
    seq(|s|, i requires 0 <= i < |s| => upper(s[i]))
  }

  lemma EqualOnceFolded(upper: Unit -> Unit, left: Units, right: Units)
    ensures OrdinalPathEqual(upper, left, right) <==> Folded(upper, left) == Folded(upper, right)
  {
    if Folded(upper, left) == Folded(upper, right) {
      forall i | 0 <= i < |left|
        ensures upper(left[i]) == upper(right[i])
      {
        assert Folded(upper, left)[i] == Folded(upper, right)[i];
      }
    }
  }

  /** A segment is matched exactly when it differs from the entry by the fold
      alone: adding then changes nothing, removing takes away these segments and
      no other. */
  lemma EditsByFold(upper: Unit -> Unit, current: RegistrySnapshot, entry: Units, part: Units)
    requires current.Present? && Editable(current) && UsableEntry(entry) && ValidUtf16(entry)
    requires part in Split(Content(current.bytes))
    ensures
      var matched := Folded(upper, part) == Folded(upper, entry);
      var added := Transformed(upper, current, entry, true);
      var removed := Transformed(upper, current, entry, false);
      && (matched ==> added == current)
      && (matched ==> removed.Absent? || part !in Split(Content(removed.bytes)))
      && (!matched ==> removed.Present? && part in Split(Content(removed.bytes)))
  {
    var parts := Split(Content(current.bytes));
    TransformEditsSegments(upper, current, entry, false);
    UnmatchedAll(upper, parts, entry);
    UnmatchedStays(upper, parts, entry, part);
    var i :| 0 <= i < |parts| && parts[i] == part;
    EqualOnceFolded(upper, part, entry);
  }

  /** Adding appends the entry as one more segment unless some segment differs
      from it by the fold alone. */
  lemma AddsUnlessMatched(upper: Unit -> Unit, current: RegistrySnapshot, entry: Units)
    requires current.Present? && Editable(current) && UsableEntry(entry) && ValidUtf16(entry)
    ensures
      var parts := Split(Content(current.bytes));
      var added := Transformed(upper, current, entry, true);
      if exists i :: 0 <= i < |parts| && Folded(upper, parts[i]) == Folded(upper, entry) then added == current
      else added.Present? && Split(Content(added.bytes)) == if Content(current.bytes) == [] then [entry] else parts + [entry]
  {
    var parts := Split(Content(current.bytes));
    TransformEditsSegments(upper, current, entry, true);
    MatchesByFold(upper, Content(current.bytes), entry);
  }

  lemma MatchesByFold(upper: Unit -> Unit, content: Units, entry: Units)
    ensures Matches(upper, content, entry)
       <==> exists i :: 0 <= i < |Split(content)| && Folded(upper, Split(content)[i]) == Folded(upper, entry)
  {
    forall i | 0 <= i < |Split(content)|
      ensures OrdinalPathEqual(upper, Split(content)[i], entry) <==> Folded(upper, Split(content)[i]) == Folded(upper, entry)
    {
      EqualOnceFolded(upper, Split(content)[i], entry);
    }
  }

  lemma {:induction false} UnmatchedStays(upper: Unit -> Unit, parts: seq<Units>, entry: Units, part: Units)
    requires part in parts
    ensures part in Unmatched(upper, parts, entry) <==> !OrdinalPathEqual(upper, part, entry)
  {
    UnmatchedAll(upper, parts, entry);
    if part != parts[0] {
      UnmatchedStays(upper, parts[1..], entry, part);
    }
  }

  /** Editing never leaves a value the registry code would refuse. */
  lemma TransformStaysEditable(upper: Unit -> Unit, current: RegistrySnapshot, entry: Units, add: bool)
    requires Editable(current) && UsableEntry(entry) && ValidUtf16(entry)
    ensures Editable(Transformed(upper, current, entry, add))
  {
    if current.Present? {
      TransformEditsSegments(upper, current, entry, add);
    } else if add {
      CreatedIsEditable(entry);
    }
  }

  lemma CreatedIsEditable(entry: Units)
    requires UsableEntry(entry) && ValidUtf16(entry)
    ensures Editable(Present(REG_EXPAND_SZ, RawBytes(entry + [0])))
  {
    TextIsEditable(REG_EXPAND_SZ, entry, [0]);
  }

  lemma TextIsEditable(valueType: nat, content: Units, nuls: Units)
    requires valueType in {REG_SZ, REG_EXPAND_SZ} && nuls != [] && IsText(RawBytes(content + nuls), content, nuls)
    ensures Editable(Present(valueType, RawBytes(content + nuls)))
  {
    TextParts(RawBytes(content + nuls), content, nuls);
    SupportedIff(valueType, RawBytes(content + nuls));
  }

  /** Doing the same edit twice is doing it once. */
  lemma TransformIsIdempotent(upper: Unit -> Unit, current: RegistrySnapshot, entry: Units, add: bool)
    requires Editable(current) && UsableEntry(entry) && ValidUtf16(entry)
    ensures
      var once := Transformed(upper, current, entry, add);
      Transformed(upper, once, entry, add) == once
  {
    var once := Transformed(upper, current, entry, add);
    if current.Absent? {
      ContentAndSuffix(entry, [0]);
      SplitOfFree(entry);
      assert add ==> OrdinalPathEqual(upper, Split(entry)[0], entry);
    } else {
      var content := Content(current.bytes);
      TransformEditsSegments(upper, current, entry, add);
      var parts := EditedSegments(upper, content, entry, add);
      if add != Matches(upper, content, entry) && parts != [] {
        if add {
          assert OrdinalPathEqual(upper, parts[|parts| - 1], entry);
        } else {
          UnmatchedAll(upper, Split(content), entry);
        }
      }
    }
  }

  /** Removing an entry right after adding it, when nothing matched before,
      gives back the exact raw value unless that was present and empty: an
      empty value becomes absent. */
  lemma RemoveUndoesAdd(upper: Unit -> Unit, current: RegistrySnapshot, entry: Units)
    requires Editable(current) && UsableEntry(entry) && ValidUtf16(entry)
    requires current.Present? ==> !Matches(upper, Content(current.bytes), entry)
    ensures
      var undone := Transformed(upper, Transformed(upper, current, entry, true), entry, false);
      && (undone == current <==> current.Absent? || Content(current.bytes) != [])
      && (undone != current ==> undone.Absent?)
  {
    OnlyEntryGoes(upper, entry);
    if current.Absent? {
      ContentAndSuffix(entry, [0]);
      SplitOfFree(entry);
    } else {
      RemoveUndoesAddPresent(upper, current, entry);
    }
  }

  lemma RemoveUndoesAddPresent(upper: Unit -> Unit, current: RegistrySnapshot, entry: Units)
    requires current.Present? && Editable(current) && UsableEntry(entry) && ValidUtf16(entry)
    requires !Matches(upper, Content(current.bytes), entry)
    ensures
      var undone := Transformed(upper, Transformed(upper, current, entry, true), entry, false);
      if Content(current.bytes) == [] then undone.Absent? else undone == current
  {
    var content := Content(current.bytes);
    var added := Transformed(upper, current, entry, true);
    var parts := EditedSegments(upper, content, entry, true);
    TransformEditsSegments(upper, current, entry, true);
    TransformEditsSegments(upper, added, entry, false);
    assert Split(Content(added.bytes)) == parts;
    assert OrdinalPathEqual(upper, parts[|parts| - 1], entry);
    OnlyEntryGoes(upper, entry);
    if content != [] {
      UnmatchedOfConcat(upper, Split(content), [entry], entry);
      UnmatchedAll(upper, Split(content), entry);
      assert Unmatched(upper, parts, entry) == Split(content);
      var undone := Transformed(upper, added, entry, false);
      JoinOfSplit(content);
      SameBytes(current, undone);
    }
  }

  /** The raw bytes are determined by content and suffix. */
  lemma SameBytes(x: RegistrySnapshot, y: RegistrySnapshot)
    requires x.Present? && y.Present? && Editable(x) && Editable(y) && x.valueType == y.valueType
    requires Content(x.bytes) == Content(y.bytes) && Suffix(x.bytes) == Suffix(y.bytes)
    ensures x == y
  {
    RawBytesOfUnits(x.bytes);
    RawBytesOfUnits(y.bytes);
    assert UnitsOf(x.bytes) == Content(x.bytes) + Suffix(x.bytes);
    assert UnitsOf(y.bytes) == Content(y.bytes) + Suffix(y.bytes);
  }

  lemma OnlyEntryGoes(upper: Unit -> Unit, entry: Units)
    ensures Unmatched(upper, [entry], entry) == []
  {
  }

  /** transform_entry */
  method TransformEntry(upper: Unit -> Unit, current: RegistrySnapshot, entry: Units, add: bool) returns (r: Result<RegistrySnapshot>)
    ensures r.Success? ==> UsableEntry(entry) && r.value == Transformed(upper, current, entry, add)
    ensures r.Success? && current.Absent? && add ==>
              r.value.Present? && r.value.valueType == REG_EXPAND_SZ && UnitsOf(r.value.bytes) == entry + [0]
    ensures r.Success? && current.Absent? && !add ==> r.value == Absent
    ensures r.Success? && current.Present? && r.value.Present? ==> r.value.valueType == current.valueType
    ensures r.Success? && (current.Present? || add) ==> |entry| <= MAX_COMPARED
    ensures r.Success? && current.Present? ==>
              forall i :: 0 <= i < |Split(Content(current.bytes))| ==> |Split(Content(current.bytes))[i]| <= MAX_COMPARED
    ensures current.Present? && (Suffix(current.bytes) == [] || !ValidUtf16(Content(current.bytes))) ==> r.Failure?
    ensures (UsableEntry(entry) && Editable(current) && |entry| <= MAX_COMPARED
             && (current.Present? ==> |current.bytes| <= MAX_COMPARED))
            ==> r.Success?
  {
    if entry == [] || SEPARATOR in entry || 0 in entry {
      return Failure(Refused);
    }
    var valueType, content, suffix := REG_EXPAND_SZ, [], [0];
    match current {
      case Absent =>
        if !add {
          return Success(Absent);
        }
        EmptyMatchesNothing(upper, entry);
      case Present(t, bytes) =>
        if !ValidUtf16(Content(bytes)) || Suffix(bytes) == [] {
          return Failure(Refused);
        }
        valueType, content, suffix := t, Content(bytes), Suffix(bytes);
        ContentIsShort(bytes);
    }
    var entries := Split(content);
    var matching :- MatchEntries(upper, entries, entry);
    assert |entries[0]| <= MAX_COMPARED && |entry| <= MAX_COMPARED;
    var any := exists i | 0 <= i < |matching| :: matching[i];
    assert any <==> Matches(upper, content, entry);
    if add == any {
      return Success(current);
    }
    if add {
      var requested := content;
      if requested != [] {
        requested := requested + [SEPARATOR];
      }
      requested := requested + entry;
      assert requested == Added(content, entry);
      UnitsOfRawBytes(requested + suffix);
      return Success(Present(valueType, RawBytes(requested + suffix)));
    }
    var kept := KeepUnmatched(upper, entries, matching, entry);
    if kept.None? {
      return Success(Absent);
    }
    return Success(Present(valueType, RawBytes(kept.value + suffix)));
  }

  lemma EmptyMatchesNothing(upper: Unit -> Unit, entry: Units)
    requires entry != []
    ensures !Matches(upper, [], entry)
  {
  }

  lemma {:induction false} SegmentsAreShort(s: Units)
    ensures forall i :: 0 <= i < |Split(s)| ==> |Split(s)[i]| <= |s|
  {
    if s != [] {
      SegmentsAreShort(s[1..]);
    }
  }

  lemma {:induction false} UnitsAreHalf(bytes: seq<Byte>)
    ensures 2 * |UnitsOf(bytes)| <= |bytes|
  {
    if |bytes| >= 2 {
      UnitsAreHalf(bytes[2..]);
    }
  }

  lemma ContentIsShort(bytes: seq<Byte>)
    ensures forall i :: 0 <= i < |Split(Content(bytes))| ==> |Split(Content(bytes))[i]| <= |bytes|
  {
    UnitsAreHalf(bytes);
    SegmentsAreShort(Content(bytes));
  }

  /** Which segments match; a segment too long to compare fails the edit. */
  method MatchEntries(upper: Unit -> Unit, entries: seq<Units>, entry: Units) returns (r: Result<seq<bool>>)
    ensures r.Success? ==>
              && |r.value| == |entries|
              && forall i :: 0 <= i < |entries| ==> r.value[i] == OrdinalPathEqual(upper, entries[i], entry)
    ensures r.Success? <==>
              entries == [] || (|entry| <= MAX_COMPARED && forall i :: 0 <= i < |entries| ==> |entries[i]| <= MAX_COMPARED)
  {
    var matching: seq<bool> := [];
    for i := 0 to |entries|
      invariant |matching| == i
      invariant forall j :: 0 <= j < i ==> matching[j] == OrdinalPathEqual(upper, entries[j], entry)
      invariant i == 0 || (|entry| <= MAX_COMPARED && forall j :: 0 <= j < i ==> |entries[j]| <= MAX_COMPARED)
    {
      if |entries[i]| > MAX_COMPARED || |entry| > MAX_COMPARED {
        return Failure(OsError);
      }
      matching := matching + [OrdinalPathEqual(upper, entries[i], entry)];
    }
    return Success(matching);
  }

  /** The unmatched segments, joined as they are found; nothing when none is left. */
  method KeepUnmatched(upper: Unit -> Unit, entries: seq<Units>, matching: seq<bool>, entry: Units) returns (r: Option<Units>)
    requires |matching| == |entries|
    requires forall i :: 0 <= i < |entries| ==> matching[i] == OrdinalPathEqual(upper, entries[i], entry)
    ensures r.None? <==> Unmatched(upper, entries, entry) == []
    ensures r.Some? ==> r.value == Join(Unmatched(upper, entries, entry))
  {
    var requested: Units := [];
    var firstKept := true;
    for index := 0 to |entries|
      invariant firstKept <==> Unmatched(upper, entries[..index], entry) == []
      invariant requested == if firstKept then [] else Join(Unmatched(upper, entries[..index], entry))
    {
      assert entries[..index + 1] == entries[..index] + [entries[index]];
      UnmatchedOfConcat(upper, entries[..index], [entries[index]], entry);
      ghost var kept := Unmatched(upper, entries[..index], entry);
      UnmatchedOne(upper, kept, entries[index], entry);
      if !matching[index] {
        if !firstKept {
          JoinOneMore(kept, entries[index]);
          requested := requested + [SEPARATOR];
        }
        requested := requested + entries[index];
        firstKept := false;
      }
    }
    assert entries[..|entries|] == entries;
    return if firstKept then None else Some(requested);
  }

  lemma UnmatchedOne(upper: Unit -> Unit, kept: seq<Units>, part: Units, entry: Units)
    ensures kept + Unmatched(upper, [part], entry) == if OrdinalPathEqual(upper, part, entry) then kept else kept + [part]
    ensures Join([part]) == part
  {
  }

  lemma {:induction false} JoinOneMore(parts: seq<Units>, part: Units)
    requires |parts| >= 1
    ensures Join(parts + [part]) == Join(parts) + [SEPARATOR] + part
  {
    if |parts| > 1 {
      JoinOneMore(parts[1..], part);
      assert (parts + [part])[1..] == parts[1..] + [part];
      assert Join(parts + [part]) == parts[0] + [SEPARATOR] + (Join(parts[1..]) + [SEPARATOR] + part);
      assert Join(parts) == parts[0] + [SEPARATOR] + Join(parts[1..]);
    } else {
      assert (parts + [part])[1..] == [part];
    }
  }
}
