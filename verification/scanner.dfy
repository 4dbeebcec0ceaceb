/** scanValue: the hand-written canonical recogniser and its specification. */
module Scanner {
  import opened Wire
  import opened Items
  import opened Encoder
  import Binary64

  // ---------------------------------------------------------------- one marker and its length

  datatype Head =
    | Bad(error: ErrorKind)
    | Atom(end: nat, kind: Kind)
    | StringAt(start: nat, length: nat)
    | BinaryAt(start: nat, length: nat)
    | ArrayAt(start: nat, length: nat)
    | MapAt(start: nat, length: nat)

  predicate Available(input: bytes, offset: nat, length: nat) { offset + length <= |input| }

  function ReadBE(input: bytes, offset: nat, width: nat): nat
    requires Available(input, offset, width)
  {
    FromBE(input[offset..offset + width])
  }

  /** The two's-complement reading of a `width`-byte number. */
  function ReadSigned(input: bytes, offset: nat, width: nat): int
    requires width > 0 && Available(input, offset, width)
  {
    var raw := ReadBE(input, offset, width);
    if input[offset] >= 0x80 then raw - Pow256(width) else raw
  }

  function UnsignedAt(input: bytes, next: nat, width: nat, floor: nat): Head {
    if !Available(input, next, width) then Bad(Malformed)
    else
      var value := ReadBE(input, next, width);
      if value <= floor then Bad(NonCanonical)
      else if value > Binary64.MAX_SAFE then Bad(InvalidValue)
      else Atom(next + width, KInteger)
  }

  function SignedAt(input: bytes, next: nat, width: nat, ceiling: int): Head
    requires width > 0
  {
    if !Available(input, next, width) then Bad(Malformed)
    else
      var value := ReadSigned(input, next, width);
      if value >= ceiling then Bad(NonCanonical)
      else if value < -(Binary64.MAX_SAFE as int) then Bad(InvalidValue)
      else Atom(next + width, KInteger)
  }

  function FloatAt(input: bytes, next: nat): Head {
    if !Available(input, next, 8) then Bad(Malformed)
    else
      FromBEBound(input[next..next + 8]);
      Pow256Values();
      var bits: uint64 := ReadBE(input, next, 8);
      if !Binary64.Finite(bits) || Binary64.NegativeZero(bits) then Bad(InvalidValue)
      else if Binary64.Integral(bits) then
        Bad(if Binary64.Safe(Binary64.IntegerOf(bits)) then NonCanonical else InvalidValue)
      else Atom(next + 8, KFloat)
  }

  datatype Family = StringFamily | BinaryFamily | ArrayFamily | MapFamily

  function Sized(family: Family, start: nat, length: nat): Head {
    match family
    case StringFamily => StringAt(start, length)
    case BinaryFamily => BinaryAt(start, length)
    case ArrayFamily => ArrayAt(start, length)
    case MapFamily => MapAt(start, length)
  }

  function LengthAt(input: bytes, next: nat, width: nat, floor: int, family: Family): Head {
    if !Available(input, next, width) then Bad(Malformed)
    else if ReadBE(input, next, width) <= floor then Bad(NonCanonical)
    else Sized(family, next + width, ReadBE(input, next, width))
  }

  /** The 32-bit string and binary forms check the limit after shortness; their minimum is in range. */
  function LongBytesAt(input: bytes, next: nat, limit: nat, family: Family): Head {
    var head := LengthAt(input, next, 4, 0xffff, family);
    if head.Bad? then head
    else if ReadBE(input, next, 4) > limit then Bad(Limit)
    else head
  }

  /** The 32-bit container forms check the limit first, and no length passes both checks. */
  function LongContainerAt(input: bytes, next: nat, limit: nat, family: Family): Head {
    if !Available(input, next, 4) then Bad(Malformed)
    else if ReadBE(input, next, 4) > limit then Bad(Limit)
    else LengthAt(input, next, 4, 0xffff, family)
  }

  function HeadAt(input: bytes, offset: nat): Head {
    if offset >= |input| then Bad(Malformed)
    else
      var marker, next := input[offset], offset + 1;
      if marker <= 0x7f || marker >= 0xe0 then Atom(next, KInteger)
      else if marker <= 0x8f then MapAt(next, marker - 0x80)
      else if marker <= 0x9f then ArrayAt(next, marker - 0x90)
      else if marker <= 0xbf then StringAt(next, marker - 0xa0)
      else WideHeadAt(input, marker, next)
  }

  function WideHeadAt(input: bytes, marker: byte, next: nat): Head {
    match marker
    case 0xc0 => Atom(next, KNull)
    case 0xc2 => Atom(next, KBoolean)
    case 0xc3 => Atom(next, KBoolean)
    case 0xc4 => LengthAt(input, next, 1, -1, BinaryFamily)
    case 0xc5 => LengthAt(input, next, 2, 0xff, BinaryFamily)
    case 0xc6 => LongBytesAt(input, next, MAX_BINARY_BYTES, BinaryFamily)
    case 0xca => if Available(input, next, 4) then Bad(NonCanonical) else Bad(Malformed)
    case 0xcb => FloatAt(input, next)
    case 0xcc => UnsignedAt(input, next, 1, 0x7f)
    case 0xcd => UnsignedAt(input, next, 2, 0xff)
    case 0xce => UnsignedAt(input, next, 4, 0xffff)
    case 0xcf => UnsignedAt(input, next, 8, 0xffff_ffff)
    case 0xd0 => SignedAt(input, next, 1, -32)
    case 0xd1 => SignedAt(input, next, 2, -128)
    case 0xd2 => SignedAt(input, next, 4, -32_768)
    case 0xd3 => SignedAt(input, next, 8, -2_147_483_648)
    case 0xd9 => LengthAt(input, next, 1, 31, StringFamily)
    case 0xda => LengthAt(input, next, 2, 0xff, StringFamily)
    case 0xdb => LongBytesAt(input, next, MAX_STRING_BYTES, StringFamily)
    case 0xdc => LengthAt(input, next, 2, 15, ArrayFamily)
    case 0xdd => LongContainerAt(input, next, MAX_ARRAY_ITEMS, ArrayFamily)
    case 0xde => LengthAt(input, next, 2, 15, MapFamily)
    case 0xdf => LongContainerAt(input, next, MAX_MAP_ENTRIES, MapFamily)
    case _ =>
      if 0xc7 <= marker <= 0xc9 || 0xd4 <= marker <= 0xd8 then Bad(InvalidValue) else Bad(Malformed)
  }

  // ---------------------------------------------------------------- whole values

  datatype Scanned =
    | Accepted(end: nat, kind: Kind, text: bytes, nodes: nat)
    | Rejected(error: ErrorKind, nodes: nat)

  function ScanText(input: bytes, start: nat, length: nat, nodes: nat): Scanned {
    if length > MAX_STRING_BYTES then Rejected(Limit, nodes)
    else if !Available(input, start, length) then Rejected(Malformed, nodes)
    else if !ValidUtf8(input[start..start + length]) then Rejected(InvalidValue, nodes)
    else Accepted(start + length, KString, input[start..start + length], nodes)
  }

  function ScanData(input: bytes, start: nat, length: nat, nodes: nat): Scanned {
    if length > MAX_BINARY_BYTES then Rejected(Limit, nodes)
    else if !Available(input, start, length) then Rejected(Malformed, nodes)
    else Accepted(start + length, KBinary, [], nodes)
  }

  function Scan(input: bytes, offset: nat, depth: int, nodes: nat): Scanned
    decreases MAX_DEPTH + 1 - depth, 1, 0
  {
    if depth > MAX_DEPTH then Rejected(Limit, nodes)
    else if nodes + 1 > MAX_VALUES then Rejected(Limit, nodes + 1)
    else
      match HeadAt(input, offset)
      case Bad(error) => Rejected(error, nodes + 1)
      case Atom(end, kind) => Accepted(end, kind, [], nodes + 1)
      case StringAt(start, length) => ScanText(input, start, length, nodes + 1)
      case BinaryAt(start, length) => ScanData(input, start, length, nodes + 1)
      case ArrayAt(start, length) =>
        if length > MAX_ARRAY_ITEMS then Rejected(Limit, nodes + 1)
        else ScanItems(input, start, length, depth + 1, nodes + 1)
      case MapAt(start, length) =>
        if length > MAX_MAP_ENTRIES then Rejected(Limit, nodes + 1)
        else ScanEntries(input, start, length, depth + 1, nodes + 1, First)
  }

  function ScanItems(input: bytes, cursor: nat, count: nat, depth: int, nodes: nat): Scanned
    decreases MAX_DEPTH + 1 - depth, 2, count
  {
    if count == 0 then Accepted(cursor, KArray, [], nodes)
    else
      var item := Scan(input, cursor, depth, nodes);
      if item.Rejected? then item
      else ScanItems(input, item.end, count - 1, depth, item.nodes)
  }

  /** The key before the current one, if any. */
  datatype Previous = First | After(key: bytes)

  function KeyVerdictAt(key: Scanned, previous: Previous): KeyVerdict
    requires key.Accepted?
  {
    if key.kind != KString then Some(InvalidValue)
    else if |key.text| > MAX_MAP_KEY_BYTES then Some(Limit)
    else if key.text == PROTO_KEY then Some(InvalidValue)
    else if previous.After? && Compare(previous.key, key.text) == 0 then Some(InvalidValue)
    else if previous.After? && Compare(previous.key, key.text) > 0 then Some(NonCanonical)
    else None
  }

  function ScanEntries(input: bytes, cursor: nat, count: nat, depth: int, nodes: nat, previous: Previous): Scanned
    decreases MAX_DEPTH + 1 - depth, 2, count
  {
    if count == 0 then Accepted(cursor, KMap, [], nodes)
    else
      var key := Scan(input, cursor, depth, nodes);
      if key.Rejected? then key
      else if KeyVerdictAt(key, previous).Some? then Rejected(KeyVerdictAt(key, previous).error, key.nodes)
      else
        var item := Scan(input, key.end, depth, key.nodes);
        if item.Rejected? then item
        else ScanEntries(input, item.end, count - 1, depth, item.nodes, After(key.text))
  }

  // ---------------------------------------------------------------- heads of encodings

  lemma OneByte(input: bytes, offset: nat, marker: byte)
    ensures At(input, offset, [marker]) <==> offset < |input| && input[offset] == marker
  {
    if offset < |input| {
      assert input[offset..offset + 1] == [input[offset]];
    }
  }

  /** A marker followed by a fixed-width number, read back. */
  lemma MarkedNumber(input: bytes, offset: nat, marker: byte, n: nat, width: nat)
    requires n < Pow256(width)
    ensures At(input, offset, [marker] + ToBE(n, width)) <==>
            && offset < |input| && input[offset] == marker
            && Available(input, offset + 1, width) && ReadBE(input, offset + 1, width) == n
  {
    AtSplit(input, offset, [marker], ToBE(n, width));
    OneByte(input, offset, marker);
    FromToBE(n, width);
    if Available(input, offset + 1, width) {
      ToFromBE(input[offset + 1..offset + 1 + width]);
    }
  }

  lemma ByteAsBE(n: byte)
    ensures ToBE(n, 1) == [n]
  {
    assert ToBE(n / 256, 0) == [];
  }

  lemma {:induction false} TopBit(s: bytes)
    requires s != []
    ensures s[0] >= 0x80 <==> 2 * FromBE(s) >= Pow256(|s|)
  {
    if |s| > 1 {
      TopBit(s[..|s| - 1]);
      FromBEBound(s[..|s| - 1]);
      assert s[..|s| - 1][0] == s[0];
      EvenPow256(|s| - 1);
    }
  }

  lemma EvenPow256(width: nat)
    requires width > 0
    ensures Pow256(width) % 2 == 0
  {
    assert Pow256(width) == 2 * (128 * Pow256(width - 1));
  }

  lemma SignedBack(input: bytes, offset: nat, width: nat, n: int)
    requires width > 0 && Available(input, offset, width)
    requires -(Pow256(width) as int) <= 2 * n < 0
    ensures ReadBE(input, offset, width) == Pow256(width) + n <==> ReadSigned(input, offset, width) == n
  {
    var raw := input[offset..offset + width];
    FromBEBound(raw);
    TopBit(raw);
  }

  lemma UnsignedHead(input: bytes, offset: nat, n: nat)
    requires n <= Binary64.MAX_SAFE && At(input, offset, EncodeUnsignedInteger(n))
    ensures HeadAt(input, offset) == Atom(offset + |EncodeUnsignedInteger(n)|, KInteger)
  {
    Pow256Values();
    if n <= 0x7f {
      OneByte(input, offset, n);
    } else if n <= 0xff {
      ByteAsBE(n);
      assert EncodeUnsignedInteger(n) == [0xcc] + ToBE(n, 1);
      MarkedNumber(input, offset, 0xcc, n, 1);
    } else if n <= 0xffff {
      MarkedNumber(input, offset, 0xcd, n, 2);
    } else if n <= 0xffff_ffff {
      MarkedNumber(input, offset, 0xce, n, 4);
    } else {
      MarkedNumber(input, offset, 0xcf, n, 8);
    }
  }

  lemma NegativeByte(input: bytes, offset: nat, n: int)
    requires -128 <= n < -32 && At(input, offset, [0xd0, 0x100 + n])
    ensures HeadAt(input, offset) == Atom(offset + 2, KInteger)
  {
    Pow256Values();
    ByteAsBE(0x100 + n);
    assert [0xd0, 0x100 + n] == [0xd0] + ToBE(0x100 + n, 1);
    MarkedNumber(input, offset, 0xd0, 0x100 + n, 1);
    SignedBack(input, offset + 1, 1, n);
  }

  lemma NegativeShort(input: bytes, offset: nat, n: int)
    requires -32_768 <= n < -128 && At(input, offset, [0xd1] + ToBE(0x1_0000 + n, 2))
    ensures HeadAt(input, offset) == Atom(offset + 3, KInteger)
  {
    Pow256Values();
    MarkedNumber(input, offset, 0xd1, 0x1_0000 + n, 2);
    SignedBack(input, offset + 1, 2, n);
  }

  lemma NegativeWord(input: bytes, offset: nat, n: int)
    requires -2_147_483_648 <= n < -32_768 && At(input, offset, [0xd2] + ToBE(0x1_0000_0000 + n, 4))
    ensures HeadAt(input, offset) == Atom(offset + 5, KInteger)
  {
    Pow256Values();
    MarkedNumber(input, offset, 0xd2, 0x1_0000_0000 + n, 4);
    SignedBack(input, offset + 1, 4, n);
  }

  lemma NegativeLong(input: bytes, offset: nat, n: int)
    requires Binary64.Safe(n) && n < -2_147_483_648 && At(input, offset, [0xd3] + ToBE(0x1_0000_0000_0000_0000 + n, 8))
    ensures HeadAt(input, offset) == Atom(offset + 9, KInteger)
  {
    Pow256Values();
    MarkedNumber(input, offset, 0xd3, 0x1_0000_0000_0000_0000 + n, 8);
    SignedBack(input, offset + 1, 8, n);
  }

  lemma NegativeHead(input: bytes, offset: nat, n: wide)
    requires Binary64.Safe(n) && n < 0 && At(input, offset, EncodeSignedInteger(n))
    ensures HeadAt(input, offset) == Atom(offset + |EncodeSignedInteger(n)|, KInteger)
  {
    if n >= -32 {
      OneByte(input, offset, 0x100 + n);
    } else {
      hide HeadAt, ToBE, At;
      if n >= -128 {
        NegativeByte(input, offset, n);
      } else if n >= -32_768 {
        NegativeShort(input, offset, n);
      } else if n >= -2_147_483_648 {
        NegativeWord(input, offset, n);
      } else {
        NegativeLong(input, offset, n);
      }
    }
  }

  /** A shortest integer is recognised in full, wherever it stands. */
  lemma IntegerHead(input: bytes, offset: nat, n: wide)
    requires Binary64.Safe(n) && At(input, offset, EncodeSignedInteger(n))
    ensures HeadAt(input, offset) == Atom(offset + |EncodeSignedInteger(n)|, KInteger)
  {
    if n < 0 {
      NegativeHead(input, offset, n);
    } else {
      UnsignedHead(input, offset, n);
    }
  }

  lemma FloatHead(input: bytes, offset: nat, bits: uint64)
    requires FloatOk(bits) && At(input, offset, [0xcb] + ToBE(bits, 8))
    ensures HeadAt(input, offset) == Atom(offset + 9, KFloat)
  {
    Pow256Values();
    MarkedNumber(input, offset, 0xcb, bits, 8);
  }

  function LengthHead(family: Family, length: nat): bytes {
    match family
    case StringFamily => StringHead(length)
    case BinaryFamily => BinaryHead(length)
    case ArrayFamily => ArrayHead(length)
    case MapFamily => MapHead(length)
  }

  function LengthLimit(family: Family): nat {
    match family
    case StringFamily => MAX_STRING_BYTES
    case BinaryFamily => MAX_BINARY_BYTES
    case ArrayFamily => MAX_ARRAY_ITEMS
    case MapFamily => MAX_MAP_ENTRIES
  }

  lemma FamilyHead(input: bytes, offset: nat, family: Family, length: nat)
    requires length <= LengthLimit(family) && At(input, offset, LengthHead(family, length))
    ensures HeadAt(input, offset) == Sized(family, offset + |LengthHead(family, length)|, length)
  {
    Pow256Values();
    var head := LengthHead(family, length);
    if |head| == 1 {
      OneByte(input, offset, head[0]);
    } else if |head| == 2 {
      ByteAsBE(length);
      assert head == [head[0]] + ToBE(length, 1);
      MarkedNumber(input, offset, head[0], length, 1);
    } else if |head| == 3 {
      assert head == [head[0]] + ToBE(length, 2);
      MarkedNumber(input, offset, head[0], length, 2);
    } else {
      assert head == [head[0]] + ToBE(length, 4);
      MarkedNumber(input, offset, head[0], length, 4);
    }
  }

  // ---------------------------------------------------------------- encodings of heads

  lemma IntegerFromHead(input: bytes, offset: nat) returns (n: wide)
    requires HeadAt(input, offset).Atom? && HeadAt(input, offset).kind == KInteger
    ensures Binary64.Safe(n) && At(input, offset, EncodeSignedInteger(n))
    ensures HeadAt(input, offset).end == offset + |EncodeSignedInteger(n)|
  {
    Pow256Values();
    var marker, next := input[offset], offset + 1;
    OneByte(input, offset, marker);
    if marker <= 0x7f {
      n := marker;
    } else if marker >= 0xe0 {
      n := marker as int - 0x100;
    } else if 0xcc <= marker <= 0xcf {
      var width := if marker == 0xcc then 1 else if marker == 0xcd then 2 else if marker == 0xce then 4 else 8;
      n := UnsignedFromHead(input, offset, width);
    } else {
      assert 0xd0 <= marker <= 0xd3;
      var width := if marker == 0xd0 then 1 else if marker == 0xd1 then 2 else if marker == 0xd2 then 4 else 8;
      n := SignedFromHead(input, offset, width);
    }
  }

  lemma UnsignedFromHead(input: bytes, offset: nat, width: nat) returns (n: wide)
    requires offset < |input|
    requires input[offset] == (if width == 1 then 0xcc else if width == 2 then 0xcd else if width == 4 then 0xce else 0xcf)
    requires width in {1, 2, 4, 8}
    requires HeadAt(input, offset).Atom?
    ensures Binary64.Safe(n) && At(input, offset, EncodeSignedInteger(n))
    ensures HeadAt(input, offset).end == offset + |EncodeSignedInteger(n)|
  {
    Pow256Values();
    n := ReadBE(input, offset + 1, width);
    FromBEBound(input[offset + 1..offset + 1 + width]);
    MarkedNumber(input, offset, input[offset], n, width);
    if width == 1 {
      ByteAsBE(n);
    }
    assert EncodeSignedInteger(n) == [input[offset]] + ToBE(n, width);
  }

  lemma SignedFromHead(input: bytes, offset: nat, width: nat) returns (n: wide)
    requires offset < |input|
    requires input[offset] == (if width == 1 then 0xd0 else if width == 2 then 0xd1 else if width == 4 then 0xd2 else 0xd3)
    requires width in {1, 2, 4, 8}
    requires HeadAt(input, offset).Atom?
    ensures Binary64.Safe(n) && At(input, offset, EncodeSignedInteger(n))
    ensures HeadAt(input, offset).end == offset + |EncodeSignedInteger(n)|
  {
    Pow256Values();
    var raw := input[offset + 1..offset + 1 + width];
    FromBEBound(raw);
    TopBit(raw);
    n := ReadSigned(input, offset + 1, width);
    SignedBack(input, offset + 1, width, n);
    MarkedNumber(input, offset, input[offset], Pow256(width) + n, width);
    if width == 1 {
      ByteAsBE(Pow256(1) + n);
    }
    assert EncodeSignedInteger(n) == [input[offset]] + ToBE(Pow256(width) + n, width);
  }

  lemma FloatFromHead(input: bytes, offset: nat) returns (bits: uint64)
    requires HeadAt(input, offset).Atom? && HeadAt(input, offset).kind == KFloat
    ensures FloatOk(bits) && At(input, offset, [0xcb] + ToBE(bits, 8))
    ensures HeadAt(input, offset).end == offset + 9
  {
    Pow256Values();
    assert input[offset] == 0xcb;
    FromBEBound(input[offset + 1..offset + 9]);
    bits := ReadBE(input, offset + 1, 8);
    MarkedNumber(input, offset, 0xcb, bits, 8);
  }

  /** The number of length bytes behind a marker, and the least length that form may carry. */
  function LengthForm(marker: byte): (form: (Family, nat, int))
    requires marker in {0xc4, 0xc5, 0xc6, 0xd9, 0xda, 0xdb, 0xdc, 0xdd, 0xde, 0xdf}
  {
    match marker
    case 0xc4 => (BinaryFamily, 1, -1)
    case 0xc5 => (BinaryFamily, 2, 0xff)
    case 0xc6 => (BinaryFamily, 4, 0xffff)
    case 0xd9 => (StringFamily, 1, 31)
    case 0xda => (StringFamily, 2, 0xff)
    case 0xdb => (StringFamily, 4, 0xffff)
    case 0xdc => (ArrayFamily, 2, 15)
    case 0xdd => (ArrayFamily, 4, 0xffff)
    case 0xde => (MapFamily, 2, 15)
    case 0xdf => (MapFamily, 4, 0xffff)
  }

  lemma WideLengthForm(input: bytes, marker: byte, next: nat)
    requires 0xc0 <= marker < 0xe0
    requires var head := WideHeadAt(input, marker, next); !head.Bad? && !head.Atom?
    ensures marker in {0xc4, 0xc5, 0xc6, 0xd9, 0xda, 0xdb, 0xdc, 0xdd, 0xde, 0xdf}
    ensures var form := LengthForm(marker); var family, width, floor := form.0, form.1, form.2;
            && Available(input, next, width) && ReadBE(input, next, width) > floor
            && WideHeadAt(input, marker, next) == Sized(family, next + width, ReadBE(input, next, width))
  {
    hide ReadBE;
  }

  lemma FamilyFromHead(input: bytes, offset: nat, family: Family, start: nat, length: nat)
    requires HeadAt(input, offset) == Sized(family, start, length)
    ensures At(input, offset, LengthHead(family, length)) && start == offset + |LengthHead(family, length)|
    ensures start <= |input|
  {
    var marker := input[offset];
    if marker < 0xc0 {
      FixedFamilyFromHead(input, offset, family, start, length);
    } else {
      hide WideHeadAt, LengthHead, At, ReadBE;
      WideLengthForm(input, marker, offset + 1);
      WideFamilyFromHead(input, offset, marker, length);
    }
  }

  /** The one-byte heads of short strings, arrays and maps. */
  lemma FixedFamilyFromHead(input: bytes, offset: nat, family: Family, start: nat, length: nat)
    requires HeadAt(input, offset) == Sized(family, start, length) && input[offset] < 0xc0
    ensures At(input, offset, LengthHead(family, length)) && start == offset + |LengthHead(family, length)|
  {
    hide WideHeadAt, ToBE;
    OneByte(input, offset, input[offset]);
  }

  lemma WideFamilyFromHead(input: bytes, offset: nat, marker: byte, length: nat)
    requires offset < |input| && input[offset] == marker
    requires marker in {0xc4, 0xc5, 0xc6, 0xd9, 0xda, 0xdb, 0xdc, 0xdd, 0xde, 0xdf}
    requires var form := LengthForm(marker); var family, width, floor := form.0, form.1, form.2;
             Available(input, offset + 1, width) && floor < length == ReadBE(input, offset + 1, width)
    ensures var form := LengthForm(marker); var family, width, floor := form.0, form.1, form.2;
            At(input, offset, LengthHead(family, length)) && |LengthHead(family, length)| == 1 + width
  {
    var (family, width, floor) := LengthForm(marker);
    Pow256Values();
    FromBEBound(input[offset + 1..offset + 1 + width]);
    MarkedNumber(input, offset, marker, length, width);
    if width == 1 {
      ByteAsBE(length);
    }
    assert LengthHead(family, length) == [marker] + ToBE(length, width);
  }

  // ---------------------------------------------------------------- the recogniser as it runs

  datatype ScanResult = ScanResult(end: nat, kind: Kind, text: bytes)

  ghost predicate Follow(r: Result<ScanResult>, expected: Scanned, nodes: nat) {
    && nodes == expected.nodes
    && match expected
       case Accepted(end, kind, text, _) => r == Success(ScanResult(end, kind, text))
       case Rejected(error, _) => r == Failure(error)
  }

  function AsResult(s: Scanned): Result<ScanResult> {
    match s
    case Accepted(end, kind, text, _) => Success(ScanResult(end, kind, text))
    case Rejected(error, _) => Failure(error)
  }

  method ScanValue(input: bytes, offset: nat, depth: int, state: ScanState) returns (r: Result<ScanResult>)
    modifies state`nodes
    ensures Follow(r, Scan(input, offset, depth, old(state.nodes)), state.nodes)
    decreases MAX_DEPTH + 1 - depth, 1
  {
    hide HeadAt, ScanText, ScanData, ScanItems, ScanEntries;
    if depth > MAX_DEPTH {
      return Failure(Limit);
    }
    state.nodes := state.nodes + 1;
    if state.nodes > MAX_VALUES {
      return Failure(Limit);
    }
    match HeadAt(input, offset) {
      case Bad(error) =>
        r := Failure(error);
      case Atom(end, kind) =>
        r := Success(ScanResult(end, kind, []));
      case StringAt(start, length) =>
        r := AsResult(ScanText(input, start, length, state.nodes));
        assert ScanText(input, start, length, state.nodes).nodes == state.nodes by {
          TextNodes(input, start, length, state.nodes);
        }
      case BinaryAt(start, length) =>
        r := AsResult(ScanData(input, start, length, state.nodes));
        assert ScanData(input, start, length, state.nodes).nodes == state.nodes by {
          TextNodes(input, start, length, state.nodes);
        }
      case ArrayAt(start, length) =>
        r := ScanArray(input, start, length, depth, state);
      case MapAt(start, length) =>
        r := ScanMap(input, start, length, depth, state);
    }
  }

  lemma TextNodes(input: bytes, start: nat, length: nat, nodes: nat)
    ensures ScanText(input, start, length, nodes).nodes == nodes
    ensures ScanData(input, start, length, nodes).nodes == nodes
  {
  }

  method ScanArray(input: bytes, offset: nat, length: nat, depth: int, state: ScanState) returns (r: Result<ScanResult>)
    requires depth <= MAX_DEPTH
    modifies state`nodes
    ensures if length > MAX_ARRAY_ITEMS then r == Failure(Limit) && state.nodes == old(state.nodes)
            else Follow(r, ScanItems(input, offset, length, depth + 1, old(state.nodes)), state.nodes)
    decreases MAX_DEPTH + 1 - depth, 0
  {
    hide Scan;
    if length > MAX_ARRAY_ITEMS {
      return Failure(Limit);
    }
    var cursor := offset;
    ghost var whole := ScanItems(input, offset, length, depth + 1, state.nodes);
    for index := 0 to length
      invariant ScanItems(input, cursor, length - index, depth + 1, state.nodes) == whole
    {
      var item := ScanValue(input, cursor, depth + 1, state);
      if item.Failure? {
        return item;
      }
      cursor := item.value.end;
    }
    r := Success(ScanResult(cursor, KArray, []));
  }

  method ScanMap(input: bytes, offset: nat, length: nat, depth: int, state: ScanState) returns (r: Result<ScanResult>)
    requires depth <= MAX_DEPTH
    modifies state`nodes
    ensures if length > MAX_MAP_ENTRIES then r == Failure(Limit) && state.nodes == old(state.nodes)
            else Follow(r, ScanEntries(input, offset, length, depth + 1, old(state.nodes), First), state.nodes)
    decreases MAX_DEPTH + 1 - depth, 0
  {
    hide Scan;
    if length > MAX_MAP_ENTRIES {
      return Failure(Limit);
    }
    var cursor := offset;
    var previous := First;
    ghost var whole := ScanEntries(input, offset, length, depth + 1, state.nodes, First);
    for index := 0 to length
      invariant ScanEntries(input, cursor, length - index, depth + 1, state.nodes, previous) == whole
    {
      var key := ScanValue(input, cursor, depth + 1, state);
      if key.Failure? {
        return key;
      }
      if key.value.kind != KString {
        return Failure(InvalidValue);
      }
      if |key.value.text| > MAX_MAP_KEY_BYTES {
        return Failure(Limit);
      }
      if key.value.text == PROTO_KEY {
        return Failure(InvalidValue);
      }
      if previous.After? {
        var order := Compare(previous.key, key.value.text);
        if order == 0 {
          return Failure(InvalidValue);
        }
        if order > 0 {
          return Failure(NonCanonical);
        }
      }
      previous := After(key.value.text);
      var item := ScanValue(input, key.value.end, depth + 1, state);
      if item.Failure? {
        return item;
      }
      cursor := item.value.end;
    }
    r := Success(ScanResult(cursor, KMap, []));
  }
}
