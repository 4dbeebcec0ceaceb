/** The shapes of frame payloads: what each validator demands of a decoded value. */
module Shapes {
  import opened Wire
  import opened Items
  import opened Names
  import Binary64

  const MAX_STATE_PATHS_PER_COORDINATOR := 4_096
  const MAX_STATE_PATHS_PER_HOME := 16_384
  const MAX_DECLARATIONS := 1_024
  const MAX_SUBSCRIPTIONS := 256
  const MAX_INFLIGHT_CALLS := 128
  const MAX_STREAM_CREDIT := 32
  const MAX_CALL_TIMEOUT_MS := 300_000

  datatype MaybeInt = NoInt | AnInt(n: int)

  /** integerValue: any Go number with a safe integral value; negative zero is not one. */
  function IntegerValue(v: Value): MaybeInt {
    match v
    case Signed(n) => AnInt(n)
    case Unsigned(u) => if u <= Binary64.MAX_SAFE then AnInt(u) else NoInt
    case Float(bits) => if Binary64.SafeInteger(bits) then AnInt(Binary64.IntegerOf(bits)) else NoInt
    case _ => NoInt
  }

  predicate Integer(v: Value, minimum: int, maximum: int) {
    IntegerValue(v).AnInt? && minimum <= IntegerValue(v).n <= maximum
  }

  predicate PositiveId(v: Value) { Integer(v, 1, Binary64.MAX_SAFE) }

  /** The number a validated identifier stands for. */
  function IdOf(v: Value): int {
    if IntegerValue(v).AnInt? then IntegerValue(v).n else 0
  }

  predicate String(v: Value, minimum: nat, maximum: nat) {
    v.Text? && ValidUtf8(v.text) && minimum <= |v.text| <= maximum
  }

  function StringOf(v: Value): bytes {
    if v.Text? then v.text else []
  }

  predicate NullableString(v: Value, maximum: nat) { v.Null? || String(v, 1, maximum) }

  predicate BinaryOf(v: Value, length: nat) { v.Binary? && |v.data| == length }

  predicate Epoch(v: Value) { BinaryOf(v, 16) }

  predicate OpaqueId(v: Value) { String(v, 1, 128) && !ContainsControl(v.text) }

  predicate Alphanumeric(b: byte) { 0x30 <= b <= 0x39 || 0x41 <= b <= 0x5a || 0x61 <= b <= 0x7a }

  /** [A-Za-z0-9][A-Za-z0-9._-]{0,63} */
  predicate CoordinatorName(v: Value) {
    && String(v, 1, 64)
    && Alphanumeric(v.text[0])
    && forall i :: 0 < i < |v.text| ==> Alphanumeric(v.text[i]) || v.text[i] in {0x2e, 0x5f, 0x2d}
  }

  predicate StructuredName(v: Value) { v.Text? && DottedName(v.text) }

  /** A dotted name, or one followed by ".*". */
  predicate Pattern(v: Value) {
    && String(v, 1, 256)
    && DottedName(if |v.text| >= 2 && v.text[|v.text| - 2..] == [DOT, STAR] then v.text[..|v.text| - 2] else v.text)
  }

  // ---------------------------------------------------------------- lists

  predicate ArrayUpTo(v: Value, maximum: nat) { v.Array? && |v.items| <= maximum }

  predicate Tuple(v: Value, length: nat) { ArrayUpTo(v, MAX_ARRAY_ITEMS) && |v.items| == length }

  function Field(v: Value, k: nat): Value {
    if v.Array? && k < |v.items| then v.items[k] else Null
  }

  predicate DistinctIds(values: seq<Value>) {
    forall i, j :: 0 <= i < j < |values| ==> IdOf(values[i]) != IdOf(values[j])
  }

  predicate DistinctStrings(values: seq<Value>) {
    forall i, j :: 0 <= i < j < |values| ==> StringOf(values[i]) != StringOf(values[j])
  }

  /** Field `k` of every entry. */
  function Column(entries: seq<Value>, k: nat): (c: seq<Value>)
    ensures |c| == |entries| && forall i :: 0 <= i < |c| ==> c[i] == Field(entries[i], k)
  {
    seq(|entries|, i requires 0 <= i < |entries| => Field(entries[i], k))
  }

  predicate UniqueIds(values: seq<Value>) {
    (forall i :: 0 <= i < |values| ==> PositiveId(values[i])) && DistinctIds(values)
  }

  predicate UniqueNames(values: seq<Value>) {
    (forall i :: 0 <= i < |values| ==> StructuredName(values[i])) && DistinctStrings(values)
  }

  predicate Patterns(v: Value) {
    && ArrayUpTo(v, MAX_ARRAY_ITEMS)
    && (forall i :: 0 <= i < |v.items| ==> Pattern(v.items[i]))
    && DistinctStrings(v.items)
  }

  /** What one entry of each kind of list must look like. */
  datatype EntryRule =
    | CoordinatorEntry | DictionaryEntry | MutationEntry | SyncEntry | SnapshotEntry
    | StateAclEntry | EventEntry | EventAclEntry | PresenceEntry

  predicate EntryOk(rule: EntryRule, e: Value) {
    match rule
    case CoordinatorEntry =>
      Tuple(e, 3) && CoordinatorName(e.items[0]) && PositiveId(e.items[1]) && Integer(e.items[2], 1, 2)
    case DictionaryEntry => Tuple(e, 2) && PositiveId(e.items[0]) && StructuredName(e.items[1])
    case MutationEntry =>
      && ArrayUpTo(e, 3) && (|e.items| == 2 || |e.items| == 3)
      && PositiveId(e.items[0]) && Integer(e.items[1], 0, 1)
      && (IdOf(e.items[1]) == 0 <==> |e.items| == 3)
    case SyncEntry => Tuple(e, 2) && StructuredName(e.items[0])
    case SnapshotEntry => Tuple(e, 2) && PositiveId(e.items[0])
    case StateAclEntry => Tuple(e, 2) && OpaqueId(e.items[0]) && Patterns(e.items[1])
    case EventEntry => Tuple(e, 2) && StructuredName(e.items[0]) && Integer(e.items[1], 1, 0x0f)
    case EventAclEntry => Tuple(e, 3) && OpaqueId(e.items[0]) && Patterns(e.items[1]) && Patterns(e.items[2])
    case PresenceEntry => Tuple(e, 2) && PositiveId(e.items[0]) && OpaqueId(e.items[1])
  }

  predicate IdKeyed(rule: EntryRule) {
    rule in {DictionaryEntry, MutationEntry, SnapshotEntry, PresenceEntry}
  }

  /** Every entry is well formed and no two share their key; a dictionary also repeats no name. */
  predicate EntryList(rule: EntryRule, v: Value, maximum: nat) {
    && ArrayUpTo(v, maximum)
    && (forall i :: 0 <= i < |v.items| ==> EntryOk(rule, v.items[i]))
    && (if IdKeyed(rule) then DistinctIds(Column(v.items, 0)) else DistinctStrings(Column(v.items, 0)))
    && (rule.DictionaryEntry? ==> DistinctStrings(Column(v.items, 1)))
  }

  predicate Target(kind: Value, target: Value) {
    && Integer(kind, 0, 2)
    && (IdOf(kind) == 0 ==> target.Null?)
    && (IdOf(kind) == 1 ==> PositiveId(target))
    && (IdOf(kind) == 2 ==> CoordinatorName(target))
  }

  predicate Principal(v: Value) {
    && Tuple(v, 5)
    && Integer(v.items[0], 1, 3)
    && OpaqueId(v.items[1])
    && PositiveId(v.items[2])
    && (if IdOf(v.items[0]) == 2 then CoordinatorName(v.items[3]) else v.items[3].Null?)
    && NullableString(v.items[4], 320)
  }

  // ---------------------------------------------------------------- error codes

  predicate CoreErrorCode(code: int) {
    || 1000 <= code <= 1005 || 1100 <= code <= 1102 || 1200 <= code <= 1203
    || 1300 <= code <= 1305 || 1400 <= code <= 1405 || code == 1500
  }

  predicate CoreError(v: Value) { Integer(v, 1, 0xffff) && CoreErrorCode(IdOf(v)) }

  predicate CallErrorCode(v: Value) {
    Integer(v, 1, 0xffff) && (CoreErrorCode(IdOf(v)) || 2000 <= IdOf(v) <= 2999)
  }

  /** The frames an ERROR may answer. */
  predicate OriginatingOpcode(opcode: int) {
    opcode in {0x04, 0x10, 0x15, 0x17, 0x19, 0x20, 0x23, 0x25, 0x27, 0x29, 0x30, 0x33, 0x36, 0x37, 0x38, 0x39}
  }

  predicate ErrorCorrelation(correlation: Value, source: Value) {
    && Integer(correlation, 0, Binary64.MAX_SAFE)
    && Integer(source, 0, 0xff)
    && (if IdOf(correlation) == 0 then IdOf(source) == 0 else OriginatingOpcode(IdOf(source)))
  }

  // ---------------------------------------------------------------- payloads by opcode

  predicate KnownOpcode(opcode: byte) {
    opcode <= 0x07 || 0x10 <= opcode <= 0x19 || 0x20 <= opcode <= 0x29 || 0x30 <= opcode <= 0x39 || 0x40 <= opcode <= 0x41
  }

  predicate Arity(p: seq<Value>, length: nat) { |p| == length }

  predicate Hello(p: seq<Value>) {
    && Arity(p, 6)
    && Integer(p[0], 0, 0xff) && Integer(p[1], 0, 0xff) && Integer(p[2], 0, 0xff) && IdOf(p[1]) <= IdOf(p[2])
    && Integer(p[3], 1, 3)
    && String(p[4], 1, 16_384)
    && ArrayUpTo(p[5], MAX_ARRAY_ITEMS)
    && (match IdOf(p[3])
        case 1 => |p[5].items| == 1 && OpaqueId(p[5].items[0])
        case 2 => |p[5].items| == 1 && CoordinatorName(p[5].items[0])
        case _ => p[5].items == [])
  }

  predicate Welcome(p: seq<Value>) {
    && Arity(p, 8)
    && Integer(p[0], 0, 0xff) && Integer(p[1], 0, 0xff) && PositiveId(p[2]) && Epoch(p[3]) && p[4].Boolean?
    && EntryList(CoordinatorEntry, p[5], 64)
    && Tuple(p[6], 4)
    && Integer(p[6].items[0], 1, MAX_FRAME_BYTES) && Integer(p[6].items[1], 1, MAX_INFLIGHT_CALLS)
    && Integer(p[6].items[2], 1, MAX_SUBSCRIPTIONS) && Integer(p[6].items[3], 1, 1_048_576)
    && PositiveId(p[7])
  }

  predicate Call(p: seq<Value>, dispatched: bool) {
    var k := if dispatched then 1 else 0;
    && Arity(p, 8 + k)
    && PositiveId(p[0])
    && (dispatched ==> Principal(p[1]))
    && Target(p[1 + k], p[2 + k])
    && PositiveId(p[3 + k])
    && Integer(p[4 + k], 1, MAX_CALL_TIMEOUT_MS)
    && NullableString(p[5 + k], 128)
    && Integer(p[6 + k], 0, MAX_STREAM_CREDIT)
  }

  predicate Event(p: seq<Value>) {
    && (|p| == 5 || |p| == 6)
    && PositiveId(p[0]) && PositiveId(p[1]) && Target(p[2], p[3])
    && (|p| == 6 ==> Principal(p[4]))
  }

  predicate Subscription(p: seq<Value>) {
    Arity(p, 2) && PositiveId(p[0]) && ArrayUpTo(p[1], MAX_SUBSCRIPTIONS) && UniqueIds(p[1].items)
  }

  predicate Acknowledgement(p: seq<Value>) { Arity(p, 2) && PositiveId(p[0]) && PositiveId(p[1]) }

  predicate Registration(rule: EntryRule, p: seq<Value>, maximum: nat) {
    Arity(p, 2) && PositiveId(p[0]) && EntryList(rule, p[1], maximum)
  }

  predicate Dictionary(p: seq<Value>) {
    Arity(p, 3) && Epoch(p[0]) && p[1].Boolean? && EntryList(DictionaryEntry, p[2], MAX_STATE_PATHS_PER_HOME)
  }

  /** HELLO to GOAWAY. */
  predicate SessionPayload(opcode: byte, p: seq<Value>)
    requires opcode <= 0x07
  {
    match opcode
    case 0x00 => Hello(p)
    case 0x01 => Welcome(p)
    case 0x02 => Arity(p, 5) && ErrorCorrelation(p[0], p[1]) && CoreError(p[2]) && p[3].Boolean? && String(p[4], 1, 256)
    case 0x03 => Arity(p, 4) && Integer(p[0], 0, 0xff) && CoreError(p[1]) && p[2].Boolean? && String(p[3], 1, 256)
    case 0x04 => Arity(p, 2) && PositiveId(p[0]) && String(p[1], 1, 16_384)
    case 0x05 => Acknowledgement(p)
    case 0x06 => Arity(p, 2) && p[0].Boolean? && EntryList(CoordinatorEntry, p[1], 64)
    case 0x07 => Arity(p, 2) && Integer(p[0], 0, MAX_CALL_TIMEOUT_MS) && Integer(p[1], 0, 0xffff)
  }

  /** STATE_SYNC to STATE_RESYNC. */
  predicate StatePayload(opcode: byte, p: seq<Value>)
    requires 0x10 <= opcode <= 0x19
  {
    match opcode
    case 0x10 => Registration(SyncEntry, p, MAX_STATE_PATHS_PER_COORDINATOR)
    case 0x11 =>
      && Arity(p, 4) && PositiveId(p[0]) && Epoch(p[1]) && PositiveId(p[2])
      && EntryList(DictionaryEntry, p[3], MAX_STATE_PATHS_PER_COORDINATOR)
    case 0x12 => Dictionary(p)
    case 0x13 =>
      Arity(p, 3) && Epoch(p[0]) && PositiveId(p[1]) && EntryList(SnapshotEntry, p[2], MAX_STATE_PATHS_PER_HOME)
    case 0x14 =>
      && Arity(p, 4) && Epoch(p[0]) && PositiveId(p[1]) && PositiveId(p[2]) && IdOf(p[2]) > IdOf(p[1])
      && EntryList(MutationEntry, p[3], MAX_STATE_PATHS_PER_COORDINATOR)
    case 0x15 =>
      && Arity(p, 3) && PositiveId(p[0]) && Epoch(p[1])
      && EntryList(MutationEntry, p[2], MAX_STATE_PATHS_PER_COORDINATOR)
    case 0x16 => Arity(p, 3) && PositiveId(p[0]) && Epoch(p[1]) && PositiveId(p[2])
    case 0x17 => Registration(StateAclEntry, p, MAX_DECLARATIONS)
    case 0x18 => Acknowledgement(p)
    case 0x19 => Arity(p, 1) && PositiveId(p[0])
  }

  /** EVENT_SYNC to EVENT. */
  predicate EventPayload(opcode: byte, p: seq<Value>)
    requires 0x20 <= opcode <= 0x29
  {
    match opcode
    case 0x20 => Registration(EventEntry, p, MAX_DECLARATIONS)
    case 0x21 => Registration(DictionaryEntry, p, MAX_DECLARATIONS)
    case 0x22 => Dictionary(p)
    case 0x23 => Registration(EventAclEntry, p, MAX_DECLARATIONS)
    case 0x24 => Acknowledgement(p)
    case 0x29 => Event(p)
    case _ => Subscription(p)
  }

  /** FUNCTION_SYNC to CALL_CREDIT. */
  predicate CallPayload(opcode: byte, p: seq<Value>)
    requires 0x30 <= opcode <= 0x39
  {
    match opcode
    case 0x30 => Arity(p, 2) && PositiveId(p[0]) && ArrayUpTo(p[1], MAX_DECLARATIONS) && UniqueNames(p[1].items)
    case 0x31 => Registration(DictionaryEntry, p, MAX_DECLARATIONS)
    case 0x32 => Dictionary(p)
    case 0x33 => Call(p, false)
    case 0x34 => Call(p, true)
    case 0x35 => Arity(p, 1) && PositiveId(p[0])
    case 0x36 => Arity(p, 3) && PositiveId(p[0]) && p[1].Boolean?
    case 0x37 => Arity(p, 5) && PositiveId(p[0]) && CallErrorCode(p[1]) && p[2].Boolean? && String(p[3], 1, 256)
    case 0x38 => Arity(p, 2) && PositiveId(p[0]) && Integer(p[1], 0, 0xffff)
    case 0x39 => Arity(p, 2) && PositiveId(p[0]) && Integer(p[1], 1, MAX_STREAM_CREDIT)
  }

  predicate PresencePayload(opcode: byte, p: seq<Value>)
    requires 0x40 <= opcode <= 0x41
  {
    if opcode == 0x40 then Arity(p, 1) && EntryList(PresenceEntry, p[0], MAX_ARRAY_ITEMS)
    else Arity(p, 3) && PositiveId(p[0]) && OpaqueId(p[1]) && Integer(p[2], 1, 2)
  }

  predicate PayloadOk(opcode: byte, p: seq<Value>)
    requires KnownOpcode(opcode)
  {
    if opcode <= 0x07 then SessionPayload(opcode, p)
    else if opcode <= 0x19 then StatePayload(opcode, p)
    else if opcode <= 0x29 then EventPayload(opcode, p)
    else if opcode <= 0x39 then CallPayload(opcode, p)
    else PresencePayload(opcode, p)
  }
}
