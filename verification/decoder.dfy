/** Reading MessagePack as the format defines it, then the integer normalisation the profile adds. */
module Decoder {
  import opened Wire
  import opened Items
  import opened Scanner
  import Binary64

  datatype Denoted = Denotes(value: Value, end: nat) | Undecodable
  datatype Sequence = Values(items: seq<Value>, end: nat) | Broken
  datatype Mapping = Members(members: map<bytes, Value>, end: nat) | Unmappable

  function Slice(input: bytes, start: nat, length: nat): bytes
    requires Available(input, start, length)
  {
    input[start..start + length]
  }

  /**
   * The value at `offset` by the MessagePack formats, shortest or not. The library yields a signed
   * type for fixints and 0xd0-0xd3 and an unsigned one for 0xcc-0xcf. Extensions and float32 never
   * reach it: the scan refuses them first.
   */
  function Denote(input: bytes, offset: nat): (d: Denoted)
    ensures d.Denotes? ==> offset < d.end <= |input|
    decreases |input| - offset, 0, 0
  {
    if offset >= |input| then Undecodable
    else
      var marker, next := input[offset], offset + 1;
      if marker <= 0x7f then Denotes(Signed(marker), next)
      else if marker >= 0xe0 then Denotes(Signed(marker as int - 0x100), next)
      else if marker <= 0x8f then DenoteMap(input, next, marker - 0x80)
      else if marker <= 0x9f then DenoteArray(input, next, marker - 0x90)
      else if marker <= 0xbf then DenoteText(input, next, marker - 0xa0)
      else
        match marker
        case 0xc0 => Denotes(Null, next)
        case 0xc2 => Denotes(Boolean(false), next)
        case 0xc3 => Denotes(Boolean(true), next)
        case 0xcb =>
          if !Available(input, next, 8) then Undecodable
          else
            FromBEBound(input[next..next + 8]);
            Pow256Values();
            Denotes(Float(ReadBE(input, next, 8)), next + 8)
        case 0xcc => DenoteUnsigned(input, next, 1)
        case 0xcd => DenoteUnsigned(input, next, 2)
        case 0xce => DenoteUnsigned(input, next, 4)
        case 0xcf => DenoteUnsigned(input, next, 8)
        case 0xd0 => DenoteSigned(input, next, 1)
        case 0xd1 => DenoteSigned(input, next, 2)
        case 0xd2 => DenoteSigned(input, next, 4)
        case 0xd3 => DenoteSigned(input, next, 8)
        case _ =>
          if marker !in {0xc4, 0xc5, 0xc6, 0xd9, 0xda, 0xdb, 0xdc, 0xdd, 0xde, 0xdf} then Undecodable
          else
            var (family, width, _) := LengthForm(marker);
            if !Available(input, next, width) then Undecodable
            else
              var start, length := next + width, ReadBE(input, next, width);
              match family
              case BinaryFamily =>
                if Available(input, start, length) then Denotes(Binary(Slice(input, start, length)), start + length)
                else Undecodable
              case StringFamily => DenoteText(input, start, length)
              case ArrayFamily => DenoteArray(input, start, length)
              case MapFamily => DenoteMap(input, start, length)
  }

  function DenoteUnsigned(input: bytes, next: nat, width: nat): (d: Denoted)
    requires width <= 8
    ensures d.Denotes? ==> next <= d.end <= |input|
  {
    if !Available(input, next, width) then Undecodable
    else
      FromBEBound(input[next..next + width]);
      Pow256Grows(width, 8);
      Pow256Values();
      Denotes(Unsigned(ReadBE(input, next, width)), next + width)
  }

  function DenoteSigned(input: bytes, next: nat, width: nat): (d: Denoted)
    requires 0 < width <= 8
    ensures d.Denotes? ==> next <= d.end <= |input|
  {
    if !Available(input, next, width) then Undecodable
    else
      FromBEBound(input[next..next + width]);
      TopBit(input[next..next + width]);
      Pow256Grows(width, 8);
      Pow256Values();
      Denotes(Signed(ReadSigned(input, next, width)), next + width)
  }

  lemma {:induction false} Pow256Grows(a: nat, b: nat)
    requires a <= b
    ensures Pow256(a) <= Pow256(b)
  {
    if a < b {
      Pow256Grows(a, b - 1);
    }
  }

  function DenoteText(input: bytes, start: nat, length: nat): (d: Denoted)
    ensures d.Denotes? ==> start <= d.end <= |input|
  {
    if Available(input, start, length) then Denotes(Text(Slice(input, start, length)), start + length)
    else Undecodable
  }

  function DenoteArray(input: bytes, start: nat, length: nat): (d: Denoted)
    ensures d.Denotes? ==> start <= d.end <= |input|
    decreases |input| - start, 2, 0
  {
    match DenoteItems(input, start, length)
    case Values(items, end) => if end <= |input| then Denotes(Array(items), end) else Undecodable
    case Broken => Undecodable
  }

  function DenoteItems(input: bytes, cursor: nat, count: nat): (d: Sequence)
    ensures d.Values? ==> cursor <= d.end
    decreases |input| - cursor, 1, count
  {
    if count == 0 then Values([], cursor)
    else
      match Denote(input, cursor)
      case Undecodable => Broken
      case Denotes(first, end) =>
        match DenoteItems(input, end, count - 1)
        case Broken => Broken
        case Values(rest, last) => Values([first] + rest, last)
  }

  function DenoteMap(input: bytes, start: nat, length: nat): (d: Denoted)
    ensures d.Denotes? ==> start <= d.end <= |input|
    decreases |input| - start, 2, 0
  {
    match DenoteMembers(input, start, length)
    case Members(members, end) => if end <= |input| then Denotes(Object(members), end) else Undecodable
    case Unmappable => Undecodable
  }

  /** decodeMap: keys are strings, and a repeated key keeps its last value. */
  function DenoteMembers(input: bytes, cursor: nat, count: nat): (d: Mapping)
    ensures d.Members? ==> cursor <= d.end
    decreases |input| - cursor, 1, count
  {
    if count == 0 then Members(map[], cursor)
    else
      var key := Denote(input, cursor);
      if key.Undecodable? || !key.value.Text? then Unmappable
      else
        var val := Denote(input, key.end);
        if val.Undecodable? then Unmappable
        else
          match DenoteMembers(input, val.end, count - 1)
          case Unmappable => Unmappable
          case Members(rest, last) => Members(map[key.value.text := val.value] + rest, last)
  }

  /** Go's int64(u) on a uint64. */
  function WrapInt64(u: uint64): int64 {
    if u < 0x8000_0000_0000_0000 then u else u as int - 0x1_0000_0000_0000_0000
  }

  /** normalizeDecodedValue: every integer width becomes int64, at every level. */
  function NormalizeDecoded(v: Value): Value
    decreases v
  {
    match v
    case Unsigned(u) => Signed(WrapInt64(u))
    case Array(items) => Array(NormalizeAll(items))
    case Object(members) => Object(map k | k in members :: NormalizeDecoded(members[k]))
    case _ => v
  }

  function NormalizeAll(items: seq<Value>): (r: seq<Value>)
    ensures |r| == |items|
    decreases items
  {
    if items == [] then [] else [NormalizeDecoded(items[0])] + NormalizeAll(items[1..])
  }

  function NormalizeMembers(members: map<bytes, Value>): map<bytes, Value> {
    map k | k in members :: NormalizeDecoded(members[k])
  }

  // ---------------------------------------------------------------- the denotation of an encoding

  /** At `offset` the input reads as `t`, once integers are normalised. */
  ghost predicate Reads(input: bytes, offset: nat, t: Item) {
    && Denote(input, offset).Denotes?
    && Denote(input, offset).end == offset + |Encoding(t)|
    && NormalizeDecoded(Denote(input, offset).value) == Raise(t)
  }

  lemma {:induction false} EncodingDenotes(input: bytes, offset: nat, t: Item)
    requires Canonical(t) && At(input, offset, Encoding(t))
    ensures Reads(input, offset, t)
    decreases t, 0
  {
    hide Denote, FloatOk, EncodeSignedInteger, StringHead, BinaryHead, ArrayHead, MapHead, ValidUtf8, ToBE;
    hide EncodingAll, EncodingEntries, CanonicalAll, CanonicalEntries, Ascending, DenoteItems, DenoteMembers;
    hide RaiseAll, RaiseEntries, NormalizeAll;
    match t
    case Int(n) => IntegerDenotes(input, offset, n);
    case Flt(bits) => FloatDenotes(input, offset, bits);
    case Str(text) => TextDenotes(input, offset, text);
    case Bin(data) => DataDenotes(input, offset, data);
    case Arr(items) =>
      AtSplit(input, offset, ArrayHead(|items|), EncodingAll(items));
      FamilyDenotes(input, offset, ArrayFamily, |items|);
      ItemsDenote(input, offset + |ArrayHead(|items|)|, items);
    case Obj(entries) =>
      AtSplit(input, offset, MapHead(|entries|), EncodingEntries(entries));
      FamilyDenotes(input, offset, MapFamily, |entries|);
      EntriesDenote(input, offset + |MapHead(|entries|)|, entries);
    case Bool(b) => ConstantDenotes(input, offset, t);
    case Nil => ConstantDenotes(input, offset, t);
  }

  lemma TextDenotes(input: bytes, offset: nat, text: bytes)
    requires Canonical(Str(text)) && At(input, offset, Encoding(Str(text)))
    ensures Reads(input, offset, Str(text))
  {
    hide Denote, StringHead, ValidUtf8;
    AtSplit(input, offset, StringHead(|text|), text);
    FamilyDenotes(input, offset, StringFamily, |text|);
  }

  lemma DataDenotes(input: bytes, offset: nat, data: bytes)
    requires Canonical(Bin(data)) && At(input, offset, Encoding(Bin(data)))
    ensures Reads(input, offset, Bin(data))
  {
    hide Denote, BinaryHead;
    AtSplit(input, offset, BinaryHead(|data|), data);
    FamilyDenotes(input, offset, BinaryFamily, |data|);
  }

  lemma ConstantDenotes(input: bytes, offset: nat, t: Item)
    requires (t.Nil? || t.Bool?) && At(input, offset, Encoding(t))
    ensures Reads(input, offset, t)
  {
    OneByte(input, offset, Encoding(t)[0]);
  }

  lemma FloatDenotes(input: bytes, offset: nat, bits: uint64)
    requires At(input, offset, [0xcb] + ToBE(bits, 8))
    ensures Reads(input, offset, Flt(bits))
  {
    Pow256Values();
    MarkedNumber(input, offset, 0xcb, bits, 8);
  }

  lemma IntegerDenotes(input: bytes, offset: nat, n: wide)
    requires Binary64.Safe(n) && At(input, offset, EncodeSignedInteger(n))
    ensures Reads(input, offset, Int(n))
  {
    Pow256Values();
    if n < 0 {
      NegativeDenotes(input, offset, n);
    } else if n <= 0x7f {
      OneByte(input, offset, n);
    } else {
      var width := if n <= 0xff then 1 else if n <= 0xffff then 2 else if n <= 0xffff_ffff then 4 else 8;
      var marker := if n <= 0xff then 0xcc else if n <= 0xffff then 0xcd else if n <= 0xffff_ffff then 0xce else 0xcf;
      ByteAsBE(n % 0x100);
      assert EncodeSignedInteger(n) == [marker] + ToBE(n, width);
      MarkedNumber(input, offset, marker, n, width);
    }
  }

  lemma NegativeDenotes(input: bytes, offset: nat, n: wide)
    requires Binary64.Safe(n) && n < 0 && At(input, offset, EncodeSignedInteger(n))
    ensures Reads(input, offset, Int(n))
  {
    Pow256Values();
    if n >= -32 {
      OneByte(input, offset, 0x100 + n);
    } else if n >= -128 {
      ByteAsBE(0x100 + n);
      SignedDenotes(input, offset, n, 1, 0xd0);
    } else if n >= -32_768 {
      SignedDenotes(input, offset, n, 2, 0xd1);
    } else if n >= -2_147_483_648 {
      SignedDenotes(input, offset, n, 4, 0xd2);
    } else {
      SignedDenotes(input, offset, n, 8, 0xd3);
    }
  }

  lemma SignedDenotes(input: bytes, offset: nat, n: wide, width: nat, marker: byte)
    requires (width, marker) in {(1, 0xd0), (2, 0xd1), (4, 0xd2), (8, 0xd3)}
    requires -(Pow256(width) as int) <= 2 * n < 0
    requires EncodeSignedInteger(n) == [marker] + ToBE(Pow256(width) + n, width)
    requires At(input, offset, EncodeSignedInteger(n))
    ensures Reads(input, offset, Int(n))
  {
    hide EncodeSignedInteger;
    Pow256Values();
    MarkedNumber(input, offset, marker, Pow256(width) + n, width);
    SignedBack(input, offset + 1, width, n);
  }

  function DenoteFamily(input: bytes, family: Family, start: nat, length: nat): Denoted {
    match family
    case StringFamily => DenoteText(input, start, length)
    case BinaryFamily =>
      if Available(input, start, length) then Denotes(Binary(Slice(input, start, length)), start + length) else Undecodable
    case ArrayFamily => DenoteArray(input, start, length)
    case MapFamily => DenoteMap(input, start, length)
  }

  lemma FamilyDenotes(input: bytes, offset: nat, family: Family, length: nat)
    requires length <= LengthLimit(family) && At(input, offset, LengthHead(family, length))
    ensures Denote(input, offset) == DenoteFamily(input, family, offset + |LengthHead(family, length)|, length)
  {
    Pow256Values();
    var head := LengthHead(family, length);
    if |head| == 1 {
      OneByte(input, offset, head[0]);
    } else {
      var width := |head| - 1;
      if width == 1 {
        ByteAsBE(length);
      }
      assert head == [head[0]] + ToBE(length, width);
      MarkedNumber(input, offset, head[0], length, width);
    }
  }

  lemma {:induction false} ItemsDenote(input: bytes, cursor: nat, items: seq<Item>)
    requires CanonicalAll(items) && At(input, cursor, EncodingAll(items))
    ensures var d := DenoteItems(input, cursor, |items|);
            d.Values? && d.end == cursor + |EncodingAll(items)| && NormalizeAll(d.items) == RaiseAll(items)
    decreases items, 1
  {
    hide Denote, Encoding, Raise, NormalizeDecoded, Canonical;
    if items != [] {
      AtSplit(input, cursor, Encoding(items[0]), EncodingAll(items[1..]));
      EncodingDenotes(input, cursor, items[0]);
      ItemsDenote(input, cursor + |Encoding(items[0])|, items[1..]);
      var d := DenoteItems(input, cursor, |items|);
      assert d.items[1..] == DenoteItems(input, cursor + |Encoding(items[0])|, |items| - 1).items;
    }
  }

  lemma {:induction false} EntriesDenote(input: bytes, cursor: nat, entries: seq<Entry>)
    requires CanonicalEntries(entries) && At(input, cursor, EncodingEntries(entries))
    ensures var d := DenoteMembers(input, cursor, |entries|);
            d.Members? && d.end == cursor + |EncodingEntries(entries)| && NormalizeMembers(d.members) == RaiseEntries(entries)
    decreases entries, 1
  {
    hide Denote, Encoding, ValidUtf8, StringHead, Raise, NormalizeDecoded, NormalizeMembers, Canonical;
    EmptyMembers();
    if entries != [] {
      var key, val := entries[0].key, entries[0].val;
      var afterKey := cursor + |EncodeText(key)|;
      AtSplit(input, cursor, EncodeText(key) + Encoding(val), EncodingEntries(entries[1..]));
      AtSplit(input, cursor, EncodeText(key), Encoding(val));
      KeyDenotes(input, cursor, key);
      EncodingDenotes(input, afterKey, val);
      EntriesDenote(input, afterKey + |Encoding(val)|, entries[1..]);
      var first := Denote(input, afterKey).value;
      var rest := DenoteMembers(input, afterKey + |Encoding(val)|, |entries| - 1).members;
      NormalizeInsert(key, first, rest);
    }
  }

  lemma EmptyMembers()
    ensures NormalizeMembers(map[]) == map[]
  {
  }

  lemma NormalizeInsert(key: bytes, first: Value, rest: map<bytes, Value>)
    ensures NormalizeMembers(map[key := first] + rest) == map[key := NormalizeDecoded(first)] + NormalizeMembers(rest)
  {
    hide NormalizeDecoded;
  }

  lemma KeyDenotes(input: bytes, cursor: nat, key: bytes)
    requires |key| <= MAX_STRING_BYTES && At(input, cursor, EncodeText(key))
    ensures Denote(input, cursor) == Denotes(Text(key), cursor + |EncodeText(key)|)
  {
    hide Denote, StringHead;
    AtSplit(input, cursor, StringHead(|key|), key);
    FamilyDenotes(input, cursor, StringFamily, |key|);
  }
}
