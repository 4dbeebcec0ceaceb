/**
 * The wire data model and its canonical MessagePack encoding, stated without budgets or streaming
 * state: what the encoder must produce and what the scanner must accept.
 */
module Items {
  import opened Wire
  import Binary64

  const MAX_FRAME_BYTES := 262_144
  const MAX_DEPTH := 16
  const MAX_VALUES := 16_384
  const MAX_STRING_BYTES := 65_536
  const MAX_BINARY_BYTES := 131_072
  const MAX_ARRAY_ITEMS := 4_096
  const MAX_MAP_ENTRIES := 4_096
  const MAX_MAP_KEY_BYTES := 256
  const PROTO_KEY: bytes := [0x5f, 0x5f, 0x70, 0x72, 0x6f, 0x74, 0x6f, 0x5f, 0x5f]

  datatype ErrorKind =
    | Malformed | NonCanonical | InvalidValue | Limit | UnknownOpcode | InvalidFrame | FrameTooLarge

  datatype Kind = KNull | KBoolean | KInteger | KFloat | KString | KBinary | KArray | KMap

  /** The union of the int64 and uint64 ranges. */
  type wide = x: int | -0x8000_0000_0000_0000 <= x < 0x1_0000_0000_0000_0000

  /** Numbers by value, objects as their entries in wire order. */
  datatype Item =
    | Nil
    | Bool(b: bool)
    | Int(n: wide)
    | Flt(bits: uint64)
    | Str(text: bytes)
    | Bin(data: bytes)
    | Arr(items: seq<Item>)
    | Obj(entries: seq<Entry>)
    | Unsupported

  datatype Entry = Entry(key: bytes, val: Item)

  // ---------------------------------------------------------------- heads

  function EncodeUnsignedInteger(n: nat): bytes {
    if n <= 0x7f then [n]
    else if n <= 0xff then [0xcc, n]
    else if n <= 0xffff then [0xcd] + ToBE(n, 2)
    else if n <= 0xffff_ffff then [0xce] + ToBE(n, 4)
    else [0xcf] + ToBE(n, 8)
  }

  function EncodeSignedInteger(n: wide): bytes {
    if n >= 0 then EncodeUnsignedInteger(n)
    else if n >= -32 then [0x100 + n]
    else if n >= -128 then [0xd0, 0x100 + n]
    else if n >= -32_768 then [0xd1] + ToBE(0x1_0000 + n, 2)
    else if n >= -2_147_483_648 then [0xd2] + ToBE(0x1_0000_0000 + n, 4)
    else [0xd3] + ToBE(0x1_0000_0000_0000_0000 + n, 8)
  }

  /** A negative `marker8` means the family has no 8-bit length form. */
  function EncodeLength(length: nat, fixedBase: byte, fixedMaximum: int, marker8: int, marker16: byte, marker32: byte): bytes
    requires marker8 < 0x100
    requires fixedBase + fixedMaximum < 0x100
  {
    if length <= fixedMaximum then [fixedBase + length]
    else if marker8 >= 0 && length <= 0xff then [marker8, length]
    else if length <= 0xffff then [marker16] + ToBE(length, 2)
    else [marker32] + ToBE(length, 4)
  }

  function StringHead(length: nat): bytes { EncodeLength(length, 0xa0, 31, 0xd9, 0xda, 0xdb) }
  function BinaryHead(length: nat): bytes { EncodeLength(length, 0, -1, 0xc4, 0xc5, 0xc6) }
  function ArrayHead(length: nat): bytes { EncodeLength(length, 0x90, 15, -1, 0xdc, 0xdd) }
  function MapHead(length: nat): bytes { EncodeLength(length, 0x80, 15, -1, 0xde, 0xdf) }

  function EncodeText(text: bytes): bytes { StringHead(|text|) + text }

  // ---------------------------------------------------------------- encoding, size and shape

  function Encoding(t: Item): bytes {
    match t
    case Nil => [0xc0]
    case Bool(b) => if b then [0xc3] else [0xc2]
    case Int(n) => EncodeSignedInteger(n)
    case Flt(bits) => [0xcb] + ToBE(bits, 8)
    case Str(text) => EncodeText(text)
    case Bin(data) => BinaryHead(|data|) + data
    case Arr(items) => ArrayHead(|items|) + EncodingAll(items)
    case Obj(entries) => MapHead(|entries|) + EncodingEntries(entries)
    case Unsupported => []
  }

  function EncodingAll(items: seq<Item>): bytes {
    if items == [] then [] else Encoding(items[0]) + EncodingAll(items[1..])
  }

  function EncodingEntries(entries: seq<Entry>): bytes {
    if entries == [] then []
    else EncodeText(entries[0].key) + Encoding(entries[0].val) + EncodingEntries(entries[1..])
  }

  /** How many values the payload counts against MAX_VALUES; a map key is one of them. */
  function Count(t: Item): (n: nat)
    ensures n > 0
  {
    match t
    case Arr(items) => 1 + CountAll(items)
    case Obj(entries) => 1 + CountEntries(entries)
    case _ => 1
  }

  function CountAll(items: seq<Item>): nat {
    if items == [] then 0 else Count(items[0]) + CountAll(items[1..])
  }

  function CountEntries(entries: seq<Entry>): nat {
    if entries == [] then 0 else 1 + Count(entries[0].val) + CountEntries(entries[1..])
  }

  function Max(a: nat, b: nat): nat { if a < b then b else a }

  /** Nesting below the value itself: 0 for a leaf or an empty container. */
  function Height(t: Item): nat {
    match t
    case Arr(items) => HeightAll(items)
    case Obj(entries) => HeightEntries(entries)
    case _ => 0
  }

  function HeightAll(items: seq<Item>): nat {
    if items == [] then 0 else Max(1 + Height(items[0]), HeightAll(items[1..]))
  }

  function HeightEntries(entries: seq<Entry>): nat {
    if entries == [] then 0 else Max(1 + Height(entries[0].val), HeightEntries(entries[1..]))
  }

  // ---------------------------------------------------------------- the profile's value rules

  predicate FloatOk(bits: uint64) {
    Binary64.Finite(bits) && !Binary64.NegativeZero(bits) && !Binary64.Integral(bits)
  }

  predicate KeyOk(key: bytes) {
    ValidUtf8(key) && |key| <= MAX_MAP_KEY_BYTES && key != PROTO_KEY
  }

  /** Rules that depend on the value alone: safe integers, finite fractions, lengths, UTF-8, ordered unique keys. */
  ghost predicate Canonical(t: Item) {
    match t
    case Int(n) => Binary64.Safe(n)
    case Flt(bits) => FloatOk(bits)
    case Str(text) => ValidUtf8(text) && |text| <= MAX_STRING_BYTES
    case Bin(data) => |data| <= MAX_BINARY_BYTES
    case Arr(items) => |items| <= MAX_ARRAY_ITEMS && CanonicalAll(items)
    case Obj(entries) =>
      |entries| <= MAX_MAP_ENTRIES && CanonicalEntries(entries) && Ascending(entries)
    case Unsupported => false
    case _ => true
  }

  ghost predicate CanonicalAll(items: seq<Item>) {
    items == [] || (Canonical(items[0]) && CanonicalAll(items[1..]))
  }

  ghost predicate CanonicalEntries(entries: seq<Entry>) {
    entries == [] || (KeyOk(entries[0].key) && Canonical(entries[0].val) && CanonicalEntries(entries[1..]))
  }

  /** Each key is strictly greater than the one before it. */
  predicate Ascending(entries: seq<Entry>) {
    |entries| < 2 || (Less(entries[0].key, entries[1].key) && Ascending(entries[1..]))
  }

  /** The limits that depend on where the value stands: depth and values already counted. */
  ghost predicate Fits(t: Item, depth: int, nodes: nat) {
    depth + Height(t) <= MAX_DEPTH && nodes + Count(t) <= MAX_VALUES
  }

  function KindOf(t: Item): Kind {
    match t
    case Nil => KNull
    case Bool(_) => KBoolean
    case Int(_) => KInteger
    case Flt(_) => KFloat
    case Str(_) => KString
    case Bin(_) => KBinary
    case Arr(_) => KArray
    case _ => KMap
  }

  // ---------------------------------------------------------------- Go values

  /** The dynamic types a Go `any` may hold; integer widths keep only their signedness. */
  datatype Value =
    | Null
    | Boolean(b: bool)
    | Signed(n: int64)
    | Unsigned(u: uint64)
    | Float(bits: uint64)
    | Text(text: bytes)
    | Binary(data: bytes)
    | Array(items: seq<Value>)
    | Object(members: map<bytes, Value>)
    | Other

  /** The data model of a Go value: integers by value, safe integral floats as integers, keys sorted. */
  ghost function Lower(v: Value): Item
    decreases v
  {
    match v
    case Null => Nil
    case Boolean(b) => Bool(b)
    case Signed(n) => Int(n)
    case Unsigned(u) => Int(u)
    case Float(bits) => if Binary64.SafeInteger(bits) then Int(Binary64.IntegerOf(bits)) else Flt(bits)
    case Text(text) => Str(text)
    case Binary(data) => Bin(data)
    case Array(items) => Arr(LowerAll(items))
    case Object(members) => Obj(LowerMembers(v, SortedKeys(members.Keys)))
    case Other => Unsupported
  }

  ghost function LowerAll(items: seq<Value>): (r: seq<Item>)
    ensures |r| == |items|
    decreases items
  {
    if items == [] then [] else [Lower(items[0])] + LowerAll(items[1..])
  }

  ghost function LowerMembers(v: Value, keys: seq<bytes>): (r: seq<Entry>)
    requires v.Object? && forall k :: k in keys ==> k in v.members
    ensures |r| == |keys|
    decreases v, |keys|
  {
    if keys == [] then []
    else [Entry(keys[0], Lower(v.members[keys[0]]))] + LowerMembers(v, keys[1..])
  }

  lemma {:induction false} LowerAllAt(items: seq<Value>)
    ensures forall i :: 0 <= i < |items| ==> LowerAll(items)[i] == Lower(items[i])
  {
    if items != [] {
      LowerAllAt(items[1..]);
    }
  }

  lemma {:induction false} LowerMembersAt(v: Value, keys: seq<bytes>)
    requires v.Object? && forall k :: k in keys ==> k in v.members
    ensures forall i :: 0 <= i < |keys| ==> LowerMembers(v, keys)[i] == Entry(keys[i], Lower(v.members[keys[i]]))
  {
    if keys != [] {
      LowerMembersAt(v, keys[1..]);
    }
  }

  /** The Go value a decoder returns for a data-model value: int64, float64, string, []byte, []any, map. */
  function Raise(t: Item): Value {
    match t
    case Nil => Null
    case Bool(b) => Boolean(b)
    case Int(n) => if n < 0x8000_0000_0000_0000 then Signed(n) else Unsigned(n)
    case Flt(bits) => Float(bits)
    case Str(text) => Text(text)
    case Bin(data) => Binary(data)
    case Arr(items) => Array(RaiseAll(items))
    case Obj(entries) => Object(RaiseEntries(entries))
    case Unsupported => Other
  }

  function RaiseAll(items: seq<Item>): (r: seq<Value>)
    ensures |r| == |items|
  {
    if items == [] then [] else [Raise(items[0])] + RaiseAll(items[1..])
  }

  /** A later entry with the same key replaces an earlier one. */
  function RaiseEntries(entries: seq<Entry>): map<bytes, Value> {
    if entries == [] then map[]
    else map[entries[0].key := Raise(entries[0].val)] + RaiseEntries(entries[1..])
  }
}
