/** The registry of core frames as one table of layouts, and that the payload rules are that table. */
module FrameRegistry {
  import opened Wire
  import opened Items
  import opened Names
  import opened Shapes
  import opened Frames
  import Binary64

  /** What may stand in one place of a payload. */
  datatype Place =
    | Anything | Nothing | Flag
    | Number(least: int, most: int) | Code(codes: set<int>)
    | Utf8(least: int, most: int) | Octets(length: nat)
    | Opaque | Coordinator | Dotted | Scope
    | Fixed(fields: seq<Place>)
    | Many(element: Place, most: int, keys: Keys)
    | OneOf(choices: seq<Place>)

  /** What must not repeat in a list: the whole element, or certain places of it. */
  datatype Keys = Whole | Places(places: set<nat>)

  predicate NameByte(b: byte) {
    0x30 <= b <= 0x39 || 0x41 <= b <= 0x5a || 0x61 <= b <= 0x7a
  }

  predicate Fits(f: Place, v: Value)
    decreases f
  {
    match f
    case Anything => true
    case Nothing => v == Null
    case Flag => v.Boolean?
    case Number(least, most) => IntegerValue(v).AnInt? && least <= IntegerValue(v).n <= most
    case Code(codes) => IntegerValue(v).AnInt? && IntegerValue(v).n in codes
    case Utf8(least, most) => v.Text? && ValidUtf8(v.text) && least <= |v.text| <= most
    case Octets(length) => v.Binary? && |v.data| == length
    case Opaque => v.Text? && ValidUtf8(v.text) && 1 <= |v.text| <= 128 && !ContainsControl(v.text)
    case Coordinator =>
      && v.Text? && ValidUtf8(v.text) && 1 <= |v.text| <= 64 && NameByte(v.text[0])
      && forall i :: 0 < i < |v.text| ==> NameByte(v.text[i]) || v.text[i] == 0x2e || v.text[i] == 0x5f || v.text[i] == 0x2d
    case Dotted => v.Text? && DottedName(v.text)
    case Scope =>
      && v.Text? && ValidUtf8(v.text) && 1 <= |v.text| <= 256
      && (DottedName(v.text)
          || (|v.text| > 2 && v.text[|v.text| - 2] == 0x2e && v.text[|v.text| - 1] == 0x2a && DottedName(v.text[..|v.text| - 2])))
    case Fixed(fields) => v.Array? && |v.items| == |fields| && forall i :: 0 <= i < |fields| ==> Fits(fields[i], v.items[i])
    case Many(element, most, keys) =>
      && v.Array? && |v.items| <= most
      && (forall i :: 0 <= i < |v.items| ==> Fits(element, v.items[i]))
      && (forall i, j :: 0 <= i < j < |v.items| ==> Apart(keys, v.items[i], v.items[j]))
    case OneOf(choices) => exists i :: 0 <= i < |choices| && Fits(choices[i], v)
  }

  /** Numbers by value, strings by content. */
  predicate SameKey(a: Value, b: Value) { IdOf(a) == IdOf(b) && StringOf(a) == StringOf(b) }

  predicate Apart(keys: Keys, a: Value, b: Value) {
    match keys
    case Whole => !SameKey(a, b)
    case Places(places) => forall k :: k in places ==> !SameKey(Field(a, k), Field(b, k))
  }

  // ---------------------------------------------------------------- the table

  const Id := Number(1, 9_007_199_254_740_991)
  const Minor := Number(0, 255)
  const Epoch16 := Octets(16)
  const Note := Utf8(1, 256)
  const Millis := Number(0, 300_000)

  const CORE_CODES: set<int> := {
    1000, 1001, 1002, 1003, 1004, 1005, 1100, 1101, 1102, 1200, 1201, 1202, 1203,
    1300, 1301, 1302, 1303, 1304, 1305, 1400, 1401, 1402, 1403, 1404, 1405, 1500 }

  const CoreCode := Code(CORE_CODES)
  const CallCode := OneOf([Code(CORE_CODES), Number(2000, 2999)])

  const ANSWERED: set<int> := {4, 16, 21, 23, 25, 32, 35, 37, 39, 41, 48, 51, 54, 55, 56, 57}

  const Coordinators := Many(Fixed([Coordinator, Id, Number(1, 2)]), 64, Places({0}))
  const Limits := Fixed([Number(1, 262_144), Number(1, 128), Number(1, 256), Number(1, 1_048_576)])

  function Declared(most: nat): Place { Many(Fixed([Id, Dotted]), most, Places({0, 1})) }

  const Changes := Many(OneOf([Fixed([Id, Number(0, 0), Anything]), Fixed([Id, Number(1, 1)])]), 4_096, Places({0}))
  const Scopes := Many(Scope, 4_096, Whole)
  const Principal5 := OneOf([PrincipalOf(1, Nothing), PrincipalOf(2, Coordinator), PrincipalOf(3, Nothing)])

  function PrincipalOf(role: int, name: Place): Place {
    Fixed([Number(role, role), Opaque, Id, name, OneOf([Nothing, Utf8(1, 320)])])
  }

  function HelloOf(role: int, context: Place): Place {
    Fixed([Minor, Minor, Minor, Number(role, role), Utf8(1, 16_384), context])
  }

  function ErrorOf(correlation: Place, source: Place): Place { Fixed([correlation, source, CoreCode, Flag, Note]) }

  function CallOf(kind: int, target: Place): Place {
    Fixed([Id, Number(kind, kind), target, Id, Number(1, 300_000), OneOf([Nothing, Utf8(1, 128)]), Number(0, 32), Anything])
  }

  function DispatchOf(kind: int, target: Place): Place {
    Fixed([Id, Principal5, Number(kind, kind), target, Id, Number(1, 300_000), OneOf([Nothing, Utf8(1, 128)]), Number(0, 32),
           Anything])
  }

  function EventOf(kind: int, target: Place): Place { Fixed([Id, Id, Number(kind, kind), target, Anything]) }

  function ForwardedOf(kind: int, target: Place): Place { Fixed([Id, Id, Number(kind, kind), target, Principal5, Anything]) }

  /** Section 7 of the wire protocol, row by row. */
  function Layout(opcode: byte): Place {
    match opcode
    case 0x00 => OneOf([HelloOf(1, Fixed([Opaque])), HelloOf(2, Fixed([Coordinator])), HelloOf(3, Fixed([]))])
    case 0x01 => Fixed([Minor, Minor, Id, Epoch16, Flag, Coordinators, Limits, Id])
    case 0x02 => OneOf([ErrorOf(Number(0, 0), Number(0, 0)), ErrorOf(Id, Code(ANSWERED))])
    case 0x03 => Fixed([Minor, CoreCode, Flag, Note])
    case 0x04 => Fixed([Id, Utf8(1, 16_384)])
    case 0x05 => Fixed([Id, Id])
    case 0x06 => Fixed([Flag, Coordinators])
    case 0x07 => Fixed([Millis, Number(0, 65_535)])
    case 0x10 => Fixed([Id, Many(Fixed([Dotted, Anything]), 4_096, Places({0}))])
    case 0x11 => Fixed([Id, Epoch16, Id, Declared(4_096)])
    case 0x12 => Fixed([Epoch16, Flag, Declared(16_384)])
    case 0x13 => Fixed([Epoch16, Id, Many(Fixed([Id, Anything]), 16_384, Places({0}))])
    case 0x14 => Fixed([Epoch16, Id, Id, Changes])
    case 0x15 => Fixed([Id, Epoch16, Changes])
    case 0x16 => Fixed([Id, Epoch16, Id])
    case 0x17 => Fixed([Id, Many(Fixed([Opaque, Scopes]), 1_024, Places({0}))])
    case 0x18 => Fixed([Id, Id])
    case 0x19 => Fixed([Id])
    case 0x20 => Fixed([Id, Many(Fixed([Dotted, Number(1, 15)]), 1_024, Places({0}))])
    case 0x21 => Fixed([Id, Declared(1_024)])
    case 0x22 => Fixed([Epoch16, Flag, Declared(16_384)])
    case 0x23 => Fixed([Id, Many(Fixed([Opaque, Scopes, Scopes]), 1_024, Places({0}))])
    case 0x24 => Fixed([Id, Id])
    case 0x25 => Fixed([Id, Many(Id, 256, Whole)])
    case 0x26 => Fixed([Id, Many(Id, 256, Whole)])
    case 0x27 => Fixed([Id, Many(Id, 256, Whole)])
    case 0x28 => Fixed([Id, Many(Id, 256, Whole)])
    case 0x29 =>
      OneOf([EventOf(0, Nothing), EventOf(1, Id), EventOf(2, Coordinator),
             ForwardedOf(0, Nothing), ForwardedOf(1, Id), ForwardedOf(2, Coordinator)])
    case 0x30 => Fixed([Id, Many(Dotted, 1_024, Whole)])
    case 0x31 => Fixed([Id, Declared(1_024)])
    case 0x32 => Fixed([Epoch16, Flag, Declared(16_384)])
    case 0x33 => OneOf([CallOf(0, Nothing), CallOf(1, Id), CallOf(2, Coordinator)])
    case 0x34 => OneOf([DispatchOf(0, Nothing), DispatchOf(1, Id), DispatchOf(2, Coordinator)])
    case 0x35 => Fixed([Id])
    case 0x36 => Fixed([Id, Flag, Anything])
    case 0x37 => Fixed([Id, CallCode, Flag, Note, Anything])
    case 0x38 => Fixed([Id, Number(0, 65_535)])
    case 0x39 => Fixed([Id, Number(1, 32)])
    case 0x40 => Fixed([Many(Fixed([Id, Opaque]), 4_096, Places({0}))])
    case 0x41 => Fixed([Id, Opaque, Number(1, 2)])
    case _ => OneOf([])
  }

  /** The two rules that relate places: a minor version range is not empty, and a patch moves forward. */
  predicate Linked(opcode: byte, p: seq<Value>) {
    && (opcode == 0x00 && |p| == 6 ==> IdOf(p[1]) <= IdOf(p[2]))
    && (opcode == 0x14 && |p| == 4 ==> IdOf(p[1]) < IdOf(p[2]))
  }

  // ---------------------------------------------------------------- one step of the definition

  lemma FixedIs(f: seq<Place>, p: seq<Value>)
    ensures Fits(Fixed(f), Array(p)) <==> |p| == |f| && forall i :: 0 <= i < |f| ==> Fits(f[i], p[i])
  {
  }

  lemma ManyIs(element: Place, most: int, keys: Keys, p: seq<Value>)
    ensures Fits(Many(element, most, keys), Array(p)) <==>
      && |p| <= most && (forall i :: 0 <= i < |p| ==> Fits(element, p[i]))
      && forall i, j :: 0 <= i < j < |p| ==> Apart(keys, p[i], p[j])
  {
  }

  lemma OneOfIs(choices: seq<Place>, v: Value)
    ensures Fits(OneOf(choices), v) <==> exists i :: 0 <= i < |choices| && Fits(choices[i], v)
  {
  }

  // ---------------------------------------------------------------- single places

  lemma Numbers(v: Value)
    ensures Fits(Id, v) <==> PositiveId(v)
    ensures Fits(Minor, v) <==> Integer(v, 0, 0xff)
    ensures Fits(Millis, v) <==> Integer(v, 0, MAX_CALL_TIMEOUT_MS)
  {
  }

  lemma Plain(v: Value)
    ensures Fits(Epoch16, v) <==> Epoch(v)
    ensures Fits(Flag, v) <==> v.Boolean?
    ensures Fits(Nothing, v) <==> v.Null?
    ensures Fits(Anything, v)
  {
  }

  lemma Strings(v: Value)
    ensures Fits(Opaque, v) <==> OpaqueId(v)
    ensures Fits(Dotted, v) <==> StructuredName(v)
    ensures Fits(Note, v) <==> String(v, 1, 256)
  {
    hide DottedName, ContainsControl, ValidUtf8;
  }

  lemma Leaves(v: Value)
    ensures Fits(Id, v) <==> PositiveId(v)
    ensures Fits(Minor, v) <==> Integer(v, 0, 0xff)
    ensures Fits(Millis, v) <==> Integer(v, 0, MAX_CALL_TIMEOUT_MS)
    ensures Fits(Epoch16, v) <==> Epoch(v)
    ensures Fits(Flag, v) <==> v.Boolean?
    ensures Fits(Nothing, v) <==> v.Null?
    ensures Fits(Anything, v)
    ensures Fits(Opaque, v) <==> OpaqueId(v)
    ensures Fits(Dotted, v) <==> StructuredName(v)
    ensures Fits(Note, v) <==> String(v, 1, 256)
  {
    hide Fits, PositiveId, Integer, Epoch, OpaqueId, StructuredName, String;
    Numbers(v);
    Plain(v);
    Strings(v);
  }

  lemma CoordinatorFits(v: Value)
    ensures Fits(Coordinator, v) <==> CoordinatorName(v)
  {
    hide ValidUtf8;
    if v.Text? && |v.text| >= 1 {
      assert forall i :: 0 <= i < |v.text| ==> (NameByte(v.text[i]) <==> Alphanumeric(v.text[i]));
    }
  }

  /** The number a place sees: an integer of any width, or a safe float whose real value it is; not negative zero. */
  lemma NumberExactly(v: Value, n: int)
    ensures IntegerValue(v) == AnInt(n) <==>
      || (v.Signed? && v.n == n)
      || (v.Unsigned? && v.u == n && Binary64.Safe(n))
      || (v.Float? && !Binary64.NegativeZero(v.bits) && Binary64.Finite(v.bits) && Binary64.Safe(n)
          && Binary64.RealOf(v.bits) == n as real)
  {
    if v.Float? && Binary64.Finite(v.bits) {
      hide Binary64.RealOf;
      Binary64.IntegralMeaning(v.bits);
      WholeIs(Binary64.RealOf(v.bits), n);
    }
  }

  lemma WholeIs(r: real, n: int)
    ensures r == n as real ==> Binary64.Whole(r)
  {
  }

  lemma Ranges(v: Value, least: int, most: int)
    ensures Fits(Number(least, most), v) <==> Integer(v, least, most)
  {
  }

  lemma Texts(v: Value, least: nat, most: nat)
    ensures Fits(Utf8(least, most), v) <==> String(v, least, most)
  {
  }

  lemma ScopeFits(v: Value)
    ensures Fits(Scope, v) <==> Pattern(v)
  {
    hide ValidUtf8, ContainsControl;
    if v.Text? && |v.text| >= 2 {
      assert v.text[|v.text| - 2..] == [DOT, STAR] <==> v.text[|v.text| - 2] == DOT && v.text[|v.text| - 1] == STAR;
      if v.text[|v.text| - 1] == STAR {
        assert STAR in v.text;
      }
    }
  }

  lemma CodesFit(v: Value)
    ensures Fits(CoreCode, v) <==> CoreError(v)
    ensures Fits(CallCode, v) <==> CallErrorCode(v)
  {
    Either(Code(CORE_CODES), Number(2000, 2999), v);
    var n := IdOf(v);
    assert CoreErrorCode(n) <==> n in CORE_CODES;
  }

  lemma Either(a: Place, b: Place, v: Value)
    ensures Fits(OneOf([a, b]), v) <==> Fits(a, v) || Fits(b, v)
  {
    hide Fits;
    OneOfIs([a, b], v);
    assert [a, b][0] == a && [a, b][1] == b;
  }

  lemma OneOfThree(a: Place, b: Place, c: Place, v: Value)
    ensures Fits(OneOf([a, b, c]), v) <==> Fits(a, v) || Fits(b, v) || Fits(c, v)
  {
    hide Fits;
    OneOfIs([a, b, c], v);
    assert [a, b, c][0] == a && [a, b, c][1] == b && [a, b, c][2] == c;
  }

  lemma MaybeText(v: Value, most: nat)
    ensures Fits(OneOf([Nothing, Utf8(1, most)]), v) <==> NullableString(v, most)
  {
    Either(Nothing, Utf8(1, most), v);
  }

  // ---------------------------------------------------------------- fixed places

  lemma One(a: Place, p: seq<Value>)
    ensures Fits(Fixed([a]), Array(p)) <==> |p| == 1 && Fits(a, p[0])
  {
    hide Fits;
    FixedIs([a], p);
    assert [a][0] == a;
  }

  lemma Two(a: Place, b: Place, p: seq<Value>)
    ensures Fits(Fixed([a, b]), Array(p)) <==> |p| == 2 && Fits(a, p[0]) && Fits(b, p[1])
  {
    hide Fits;
    FixedIs([a, b], p);
    var f := [a, b];
    assert f[0] == a && f[1] == b;
  }

  lemma Three(a: Place, b: Place, c: Place, p: seq<Value>)
    ensures Fits(Fixed([a, b, c]), Array(p)) <==> |p| == 3 && Fits(a, p[0]) && Fits(b, p[1]) && Fits(c, p[2])
  {
    hide Fits;
    FixedIs([a, b, c], p);
    var f := [a, b, c];
    assert f[0] == a && f[1] == b && f[2] == c;
  }

  lemma Four(a: Place, b: Place, c: Place, d: Place, p: seq<Value>)
    ensures Fits(Fixed([a, b, c, d]), Array(p)) <==>
      |p| == 4 && Fits(a, p[0]) && Fits(b, p[1]) && Fits(c, p[2]) && Fits(d, p[3])
  {
    hide Fits;
    FixedIs([a, b, c, d], p);
    var f := [a, b, c, d];
    assert f[0] == a && f[1] == b && f[2] == c && f[3] == d;
  }

  lemma Five(a: Place, b: Place, c: Place, d: Place, e: Place, p: seq<Value>)
    ensures Fits(Fixed([a, b, c, d, e]), Array(p)) <==>
      |p| == 5 && Fits(a, p[0]) && Fits(b, p[1]) && Fits(c, p[2]) && Fits(d, p[3]) && Fits(e, p[4])
  {
    hide Fits;
    FixedIs([a, b, c, d, e], p);
    var f := [a, b, c, d, e];
    assert f[0] == a && f[1] == b && f[2] == c && f[3] == d && f[4] == e;
  }

  lemma Six(a: Place, b: Place, c: Place, d: Place, e: Place, g: Place, p: seq<Value>)
    ensures Fits(Fixed([a, b, c, d, e, g]), Array(p)) <==>
      |p| == 6 && Fits(a, p[0]) && Fits(b, p[1]) && Fits(c, p[2]) && Fits(d, p[3]) && Fits(e, p[4]) && Fits(g, p[5])
  {
    hide Fits;
    FixedIs([a, b, c, d, e, g], p);
    var f := [a, b, c, d, e, g];
    assert f[0] == a && f[1] == b && f[2] == c && f[3] == d && f[4] == e && f[5] == g;
  }

  lemma Eight(a: Place, b: Place, c: Place, d: Place, e: Place, g: Place, h: Place, k: Place, p: seq<Value>)
    ensures Fits(Fixed([a, b, c, d, e, g, h, k]), Array(p)) <==>
      && |p| == 8 && Fits(a, p[0]) && Fits(b, p[1]) && Fits(c, p[2]) && Fits(d, p[3]) && Fits(e, p[4]) && Fits(g, p[5])
      && Fits(h, p[6]) && Fits(k, p[7])
  {
    hide Fits;
    FixedIs([a, b, c, d, e, g, h, k], p);
    var f := [a, b, c, d, e, g, h, k];
    assert f[0] == a && f[1] == b && f[2] == c && f[3] == d && f[4] == e && f[5] == g && f[6] == h && f[7] == k;
  }

  // ---------------------------------------------------------------- lists

  /** The layout of one entry of each kind of list. */
  function ElementOf(rule: EntryRule): Place {
    match rule
    case CoordinatorEntry => Fixed([Coordinator, Id, Number(1, 2)])
    case DictionaryEntry => Fixed([Id, Dotted])
    case MutationEntry => OneOf([Fixed([Id, Number(0, 0), Anything]), Fixed([Id, Number(1, 1)])])
    case SyncEntry => Fixed([Dotted, Anything])
    case SnapshotEntry => Fixed([Id, Anything])
    case StateAclEntry => Fixed([Opaque, Scopes])
    case EventEntry => Fixed([Dotted, Number(1, 15)])
    case EventAclEntry => Fixed([Opaque, Scopes, Scopes])
    case PresenceEntry => Fixed([Id, Opaque])
  }

  function KeysOfRule(rule: EntryRule): Keys { if rule.DictionaryEntry? then Places({0, 1}) else Places({0}) }

  lemma ScopesFit(v: Value)
    ensures Fits(Scopes, v) <==> Patterns(v)
  {
    hide Pattern;
    if v.Array? {
      forall i | 0 <= i < |v.items| ensures Fits(Scope, v.items[i]) <==> Pattern(v.items[i]) {
        ScopeFits(v.items[i]);
      }
      forall i | 0 <= i < |v.items| && Pattern(v.items[i]) ensures v.items[i].Text? {
        PatternIsText(v.items[i]);
      }
    }
  }

  lemma PatternIsText(v: Value)
    ensures Pattern(v) ==> v.Text?
  {
  }

  lemma Filled(e: Value, length: nat)
    requires e.Array? && |e.items| == length <= 3
    ensures Tuple(e, length) && e == Array(e.items)
  {
  }

  lemma EntryFits(rule: EntryRule, e: Value)
    ensures Fits(ElementOf(rule), e) <==> EntryOk(rule, e)
  {
    hide Fits, PositiveId, StructuredName, OpaqueId, CoordinatorName, Patterns, Integer;
    if e.Array? {
      var p := e.items;
      assert e == Array(p);
      One(Id, p);
      EntryPlaces(p);
      match rule {
        case CoordinatorEntry => Three(Coordinator, Id, Number(1, 2), p);
        case DictionaryEntry => Two(Id, Dotted, p);
        case MutationEntry => MutationFits(e);
        case SyncEntry => Two(Dotted, Anything, p);
        case SnapshotEntry => Two(Id, Anything, p);
        case StateAclEntry => Two(Opaque, Scopes, p);
        case EventEntry => Two(Dotted, Number(1, 15), p);
        case EventAclEntry => Three(Opaque, Scopes, Scopes, p);
        case PresenceEntry => Two(Id, Opaque, p);
      }
    } else {
      NotArray(rule, e);
    }
  }

  lemma NotArray(rule: EntryRule, e: Value)
    requires !e.Array?
    ensures !Fits(ElementOf(rule), e) && !EntryOk(rule, e)
  {
    if rule.MutationEntry? {
      Either(Fixed([Id, Number(0, 0), Anything]), Fixed([Id, Number(1, 1)]), e);
    }
  }

  /** What each place of an entry comes down to. */
  lemma EntryPlaces(p: seq<Value>)
    ensures forall i :: 0 <= i < |p| ==>
      && (Fits(Id, p[i]) <==> PositiveId(p[i])) && (Fits(Dotted, p[i]) <==> StructuredName(p[i]))
      && (Fits(Opaque, p[i]) <==> OpaqueId(p[i])) && (Fits(Coordinator, p[i]) <==> CoordinatorName(p[i]))
      && (Fits(Scopes, p[i]) <==> Patterns(p[i])) && Fits(Anything, p[i])
      && (Fits(Number(1, 2), p[i]) <==> Integer(p[i], 1, 2)) && (Fits(Number(1, 15), p[i]) <==> Integer(p[i], 1, 15))
  {
    hide PositiveId, StructuredName, OpaqueId, CoordinatorName, Patterns, Fits, Integer;
    forall i | 0 <= i < |p|
      ensures
        && (Fits(Id, p[i]) <==> PositiveId(p[i])) && (Fits(Dotted, p[i]) <==> StructuredName(p[i]))
        && (Fits(Opaque, p[i]) <==> OpaqueId(p[i])) && (Fits(Coordinator, p[i]) <==> CoordinatorName(p[i]))
        && (Fits(Scopes, p[i]) <==> Patterns(p[i])) && Fits(Anything, p[i])
        && (Fits(Number(1, 2), p[i]) <==> Integer(p[i], 1, 2)) && (Fits(Number(1, 15), p[i]) <==> Integer(p[i], 1, 15))
    {
      Leaves(p[i]);
      CoordinatorFits(p[i]);
      ScopesFit(p[i]);
      Ranges(p[i], 1, 2);
      Ranges(p[i], 1, 15);
    }
  }

  lemma MutationFits(e: Value)
    requires e.Array?
    ensures Fits(ElementOf(MutationEntry), e) <==> EntryOk(MutationEntry, e)
  {
    hide Fits, PositiveId;
    var p := e.items;
    assert e == Array(p);
    Either(Fixed([Id, Number(0, 0), Anything]), Fixed([Id, Number(1, 1)]), e);
    Three(Id, Number(0, 0), Anything, p);
    Two(Id, Number(1, 1), p);
    if |p| == 2 || |p| == 3 {
      Leaves(p[0]);
      Ranges(p[1], 0, 0);
      Ranges(p[1], 1, 1);
      if |p| == 3 {
        Leaves(p[2]);
      }
    }
  }

  lemma KeysOfEntries(rule: EntryRule, a: Value, b: Value)
    requires EntryOk(rule, a) && EntryOk(rule, b)
    ensures SameKey(Field(a, 0), Field(b, 0)) <==>
      if IdKeyed(rule) then IdOf(Field(a, 0)) == IdOf(Field(b, 0)) else StringOf(Field(a, 0)) == StringOf(Field(b, 0))
    ensures rule.DictionaryEntry? ==>
      (SameKey(Field(a, 1), Field(b, 1)) <==> StringOf(Field(a, 1)) == StringOf(Field(b, 1)))
  {
    hide DottedName, ValidUtf8, ContainsControl, Patterns, Alphanumeric;
  }

  /** Two entries whose keys the rules tell apart. */
  predicate Differ(rule: EntryRule, a: Value, b: Value) {
    && (if IdKeyed(rule) then IdOf(Field(a, 0)) != IdOf(Field(b, 0)) else StringOf(Field(a, 0)) != StringOf(Field(b, 0)))
    && (rule.DictionaryEntry? ==> StringOf(Field(a, 1)) != StringOf(Field(b, 1)))
  }

  lemma ApartIsDiffer(rule: EntryRule, a: Value, b: Value)
    requires EntryOk(rule, a) && EntryOk(rule, b)
    ensures Apart(KeysOfRule(rule), a, b) <==> Differ(rule, a, b)
  {
    KeysOfEntries(rule, a, b);
    hide EntryOk, SameKey, IdOf, StringOf, Field;
  }

  lemma DistinctColumns(rule: EntryRule, e: seq<Value>)
    ensures (forall i, j :: 0 <= i < j < |e| ==> Differ(rule, e[i], e[j])) <==>
      && (if IdKeyed(rule) then DistinctIds(Column(e, 0)) else DistinctStrings(Column(e, 0)))
      && (rule.DictionaryEntry? ==> DistinctStrings(Column(e, 1)))
  {
    hide IdOf, StringOf, Field;
    if forall i, j :: 0 <= i < j < |e| ==> Differ(rule, e[i], e[j]) {
      forall i, j | 0 <= i < j < |e|
        ensures if IdKeyed(rule) then IdOf(Column(e, 0)[i]) != IdOf(Column(e, 0)[j])
                else StringOf(Column(e, 0)[i]) != StringOf(Column(e, 0)[j])
        ensures rule.DictionaryEntry? ==> StringOf(Column(e, 1)[i]) != StringOf(Column(e, 1)[j])
      {
        assert Differ(rule, e[i], e[j]);
      }
    } else {
      var i, j :| 0 <= i < j < |e| && !Differ(rule, e[i], e[j]);
      assert Column(e, 0)[i] == Field(e[i], 0) && Column(e, 0)[j] == Field(e[j], 0);
      assert Column(e, 1)[i] == Field(e[i], 1) && Column(e, 1)[j] == Field(e[j], 1);
    }
  }

  /** A list of entries with its keys apart, as the table says it and as the rules do. */
  lemma ListFits(rule: EntryRule, v: Value, most: nat)
    ensures Fits(Many(ElementOf(rule), most, KeysOfRule(rule)), v) <==> EntryList(rule, v, most)
  {
    if v.Array? {
      hide Fits;
      var e := v.items;
      ManyIs(ElementOf(rule), most, KeysOfRule(rule), e);
      forall i | 0 <= i < |e| ensures Fits(ElementOf(rule), e[i]) <==> EntryOk(rule, e[i]) {
        EntryFits(rule, e[i]);
      }
      DistinctColumns(rule, e);
      hide EntryOk, Apart, Differ, ElementOf, DistinctIds, DistinctStrings, Column, KeysOfRule;
      if forall i :: 0 <= i < |e| ==> EntryOk(rule, e[i]) {
        forall i, j | 0 <= i < j < |e| ensures Apart(KeysOfRule(rule), e[i], e[j]) <==> Differ(rule, e[i], e[j]) {
          ApartIsDiffer(rule, e[i], e[j]);
        }
      }
    }
  }

  lemma IdsFit(v: Value, most: nat)
    ensures Fits(Many(Id, most, Whole), v) <==> ArrayUpTo(v, most) && UniqueIds(v.items)
  {
    hide PositiveId;
    if v.Array? {
      forall i | 0 <= i < |v.items| ensures Fits(Id, v.items[i]) <==> PositiveId(v.items[i]) {
        Leaves(v.items[i]);
      }
      forall i | 0 <= i < |v.items| && PositiveId(v.items[i]) ensures StringOf(v.items[i]) == [] {
        IdHasNoText(v.items[i]);
      }
    }
  }

  lemma IdHasNoText(v: Value)
    ensures PositiveId(v) ==> StringOf(v) == []
  {
  }

  lemma NamesFit(v: Value, most: nat)
    ensures Fits(Many(Dotted, most, Whole), v) <==> ArrayUpTo(v, most) && UniqueNames(v.items)
  {
    hide DottedName;
  }

  // ---------------------------------------------------------------- payloads

  /** The table and the rules agree on one payload. */
  predicate Agree(opcode: byte, p: seq<Value>) {
    KnownOpcode(opcode) && ((Fits(Layout(opcode), Array(p)) && Linked(opcode, p)) <==> PayloadOk(opcode, p))
  }

  lemma AllLeaves(p: seq<Value>)
    ensures forall i :: 0 <= i < |p| ==>
      && (Fits(Id, p[i]) <==> PositiveId(p[i])) && (Fits(Minor, p[i]) <==> Integer(p[i], 0, 0xff))
      && (Fits(Millis, p[i]) <==> Integer(p[i], 0, MAX_CALL_TIMEOUT_MS)) && (Fits(Epoch16, p[i]) <==> Epoch(p[i]))
      && (Fits(Flag, p[i]) <==> p[i].Boolean?) && (Fits(Nothing, p[i]) <==> p[i].Null?) && Fits(Anything, p[i])
      && (Fits(Opaque, p[i]) <==> OpaqueId(p[i])) && (Fits(Dotted, p[i]) <==> StructuredName(p[i]))
      && (Fits(Note, p[i]) <==> String(p[i], 1, 256)) && (Fits(Coordinator, p[i]) <==> CoordinatorName(p[i]))
      && (Fits(CoreCode, p[i]) <==> CoreError(p[i])) && (Fits(CallCode, p[i]) <==> CallErrorCode(p[i]))
  {
    hide Fits, PositiveId, Integer, Epoch, OpaqueId, StructuredName, String, CoordinatorName, CoreError, CallErrorCode;
    forall i | 0 <= i < |p|
      ensures
        && (Fits(Id, p[i]) <==> PositiveId(p[i])) && (Fits(Minor, p[i]) <==> Integer(p[i], 0, 0xff))
        && (Fits(Millis, p[i]) <==> Integer(p[i], 0, MAX_CALL_TIMEOUT_MS)) && (Fits(Epoch16, p[i]) <==> Epoch(p[i]))
        && (Fits(Flag, p[i]) <==> p[i].Boolean?) && (Fits(Nothing, p[i]) <==> p[i].Null?) && Fits(Anything, p[i])
        && (Fits(Opaque, p[i]) <==> OpaqueId(p[i])) && (Fits(Dotted, p[i]) <==> StructuredName(p[i]))
        && (Fits(Note, p[i]) <==> String(p[i], 1, 256)) && (Fits(Coordinator, p[i]) <==> CoordinatorName(p[i]))
        && (Fits(CoreCode, p[i]) <==> CoreError(p[i])) && (Fits(CallCode, p[i]) <==> CallErrorCode(p[i]))
    {
      Leaves(p[i]);
      CoordinatorFits(p[i]);
      CodesFit(p[i]);
    }
  }

  lemma StateAgrees(opcode: byte, p: seq<Value>)
    requires 0x10 <= opcode <= 0x19
    ensures Agree(opcode, p)
  {
    hide Fits, PositiveId, Integer, Epoch, OpaqueId, StructuredName, String, CoordinatorName, CoreError, CallErrorCode, EntryList,
      ElementOf, IdOf;
    AllLeaves(p);
    RowElements();
    match opcode {
      case 0x10 => Two(Id, Many(ElementOf(SyncEntry), 4_096, Places({0})), p); if |p| == 2 { ListFits(SyncEntry, p[1], 4_096); }
      case 0x11 => Four(Id, Epoch16, Id, Declared(4_096), p); if |p| == 4 { ListFits(DictionaryEntry, p[3], 4_096); }
      case 0x12 => DictionaryAgrees(p);
      case 0x13 =>
        Three(Epoch16, Id, Many(ElementOf(SnapshotEntry), 16_384, Places({0})), p);
        if |p| == 3 { ListFits(SnapshotEntry, p[2], 16_384); }
      case 0x14 => Four(Epoch16, Id, Id, Changes, p); if |p| == 4 { ListFits(MutationEntry, p[3], 4_096); }
      case 0x15 => Three(Id, Epoch16, Changes, p); if |p| == 3 { ListFits(MutationEntry, p[2], 4_096); }
      case 0x16 => Three(Id, Epoch16, Id, p);
      case 0x17 => Two(Id, Many(ElementOf(StateAclEntry), 1_024, Places({0})), p); if |p| == 2 { ListFits(StateAclEntry, p[1], 1_024); }
      case 0x18 => Two(Id, Id, p);
      case 0x19 => One(Id, p);
    }
  }

  /** The elements of the table's lists, by the entries they are. */
  lemma RowElements()
    ensures ElementOf(CoordinatorEntry) == Fixed([Coordinator, Id, Number(1, 2)]) && KeysOfRule(CoordinatorEntry) == Places({0})
    ensures ElementOf(DictionaryEntry) == Fixed([Id, Dotted]) && KeysOfRule(DictionaryEntry) == Places({0, 1})
    ensures ElementOf(MutationEntry) == OneOf([Fixed([Id, Number(0, 0), Anything]), Fixed([Id, Number(1, 1)])])
    ensures KeysOfRule(MutationEntry) == Places({0})
    ensures ElementOf(SyncEntry) == Fixed([Dotted, Anything]) && KeysOfRule(SyncEntry) == Places({0})
    ensures ElementOf(SnapshotEntry) == Fixed([Id, Anything]) && KeysOfRule(SnapshotEntry) == Places({0})
    ensures ElementOf(StateAclEntry) == Fixed([Opaque, Scopes]) && KeysOfRule(StateAclEntry) == Places({0})
    ensures ElementOf(EventEntry) == Fixed([Dotted, Number(1, 15)]) && KeysOfRule(EventEntry) == Places({0})
    ensures ElementOf(EventAclEntry) == Fixed([Opaque, Scopes, Scopes]) && KeysOfRule(EventAclEntry) == Places({0})
    ensures ElementOf(PresenceEntry) == Fixed([Id, Opaque]) && KeysOfRule(PresenceEntry) == Places({0})
  {
  }

  lemma DictionaryAgrees(p: seq<Value>)
    ensures Fits(Fixed([Epoch16, Flag, Declared(16_384)]), Array(p)) <==> Dictionary(p)
  {
    hide Fits, Epoch, EntryList, ElementOf;
    AllLeaves(p);
    RowElements();
    Three(Epoch16, Flag, Declared(16_384), p);
    if |p| == 3 {
      ListFits(DictionaryEntry, p[2], 16_384);
    }
  }

  // ---------------------------------------------------------------- session frames

  lemma HelloAgrees(p: seq<Value>)
    ensures Agree(0x00, p)
  {
    hide Fits, Integer, IdOf, String, OpaqueId, CoordinatorName;
    var v := Array(p);
    OneOfThree(HelloOf(1, Fixed([Opaque])), HelloOf(2, Fixed([Coordinator])), HelloOf(3, Fixed([])), v);
    Six(Minor, Minor, Minor, Number(1, 1), Utf8(1, 16_384), Fixed([Opaque]), p);
    Six(Minor, Minor, Minor, Number(2, 2), Utf8(1, 16_384), Fixed([Coordinator]), p);
    Six(Minor, Minor, Minor, Number(3, 3), Utf8(1, 16_384), Fixed([]), p);
    if |p| == 6 {
      AllLeaves(p);
      Exactly(p[3]);
      Texts(p[4], 1, 16_384);
      ContextFits(p[5]);
    }
  }

  /** A number that is one of the first few. */
  lemma Exactly(v: Value)
    ensures forall n :: Fits(Number(n, n), v) <==> Integer(v, n, n)
    ensures forall n :: Integer(v, n, n) ==> IdOf(v) == n
    ensures Integer(v, 1, 3) <==> Integer(v, 1, 1) || Integer(v, 2, 2) || Integer(v, 3, 3)
    ensures Integer(v, 0, 2) <==> Integer(v, 0, 0) || Integer(v, 1, 1) || Integer(v, 2, 2)
    ensures Integer(v, 0, Binary64.MAX_SAFE) <==> Integer(v, 0, 0) || PositiveId(v)
    ensures PositiveId(v) ==> IdOf(v) >= 1
  {
  }

  lemma ContextFits(v: Value)
    ensures Fits(Fixed([Opaque]), v) <==> ArrayUpTo(v, MAX_ARRAY_ITEMS) && |v.items| == 1 && OpaqueId(v.items[0])
    ensures Fits(Fixed([Coordinator]), v) <==> ArrayUpTo(v, MAX_ARRAY_ITEMS) && |v.items| == 1 && CoordinatorName(v.items[0])
    ensures Fits(Fixed([]), v) <==> ArrayUpTo(v, MAX_ARRAY_ITEMS) && v.items == []
  {
    if v.Array? {
      hide Fits, OpaqueId, CoordinatorName;
      assert v == Array(v.items);
      One(Opaque, v.items);
      One(Coordinator, v.items);
      FixedIs([], v.items);
      AllLeaves(v.items);
    }
  }

  lemma LimitsFit(v: Value)
    ensures Fits(Limits, v) <==>
      && Tuple(v, 4) && Integer(v.items[0], 1, MAX_FRAME_BYTES) && Integer(v.items[1], 1, MAX_INFLIGHT_CALLS)
      && Integer(v.items[2], 1, MAX_SUBSCRIPTIONS) && Integer(v.items[3], 1, 1_048_576)
  {
    if v.Array? {
      hide Fits, Integer;
      var p := v.items;
      assert v == Array(p);
      Four(Number(1, 262_144), Number(1, 128), Number(1, 256), Number(1, 1_048_576), p);
      if |p| == 4 {
        Ranges(p[0], 1, 262_144);
        Ranges(p[1], 1, 128);
        Ranges(p[2], 1, 256);
        Ranges(p[3], 1, 1_048_576);
      }
    }
  }

  lemma WelcomeAgrees(p: seq<Value>)
    ensures Agree(0x01, p)
  {
    hide Fits, Integer, PositiveId, Epoch, EntryList, Tuple, ElementOf, Limits;
    Eight(Minor, Minor, Id, Epoch16, Flag, Coordinators, Limits, Id, p);
    AllLeaves(p);
    RowElements();
    if |p| == 8 {
      ListFits(CoordinatorEntry, p[5], 64);
      LimitsFit(p[6]);
    }
  }

  lemma ErrorAgrees(p: seq<Value>)
    ensures Agree(0x02, p)
  {
    hide Fits, Integer, PositiveId, CoreError, String, ErrorCorrelation;
    Either(ErrorOf(Number(0, 0), Number(0, 0)), ErrorOf(Id, Code(ANSWERED)), Array(p));
    Five(Number(0, 0), Number(0, 0), CoreCode, Flag, Note, p);
    Five(Id, Code(ANSWERED), CoreCode, Flag, Note, p);
    AllLeaves(p);
    if |p| == 5 {
      CorrelationFits(p[0], p[1]);
    }
  }

  lemma CorrelationFits(a: Value, b: Value)
    ensures (Fits(Number(0, 0), a) && Fits(Number(0, 0), b)) || (Fits(Id, a) && Fits(Code(ANSWERED), b)) <==> ErrorCorrelation(a, b)
  {
    hide Fits, Integer, IdOf, PositiveId, OriginatingOpcode;
    Exactly(a);
    Exactly(b);
    Leaves(a);
    AnsweredFits(b);
  }

  lemma AnsweredFits(v: Value)
    ensures Fits(Code(ANSWERED), v) <==> Integer(v, 0, 0xff) && OriginatingOpcode(IdOf(v))
    ensures Integer(v, 0, 0) <==> Integer(v, 0, 0xff) && IdOf(v) == 0
  {
    var n := IdOf(v);
    assert OriginatingOpcode(n) <==> n in ANSWERED;
  }

  lemma SessionAgrees(opcode: byte, p: seq<Value>)
    requires opcode <= 0x07
    ensures Agree(opcode, p)
  {
    hide Agree;
    if opcode == 0x00 {
      HelloAgrees(p);
    } else if opcode == 0x01 {
      WelcomeAgrees(p);
    } else if opcode == 0x02 {
      ErrorAgrees(p);
    } else {
      LateSessionAgrees(opcode, p);
    }
  }

  lemma LateSessionAgrees(opcode: byte, p: seq<Value>)
    requires 0x03 <= opcode <= 0x07
    ensures Agree(opcode, p)
  {
    hide Fits, PositiveId, Integer, CoreError, String, EntryList, ElementOf, IdOf;
    AllLeaves(p);
    RowElements();
    match opcode {
      case 0x03 => Four(Minor, CoreCode, Flag, Note, p);
      case 0x04 => Two(Id, Utf8(1, 16_384), p); if |p| == 2 { Texts(p[1], 1, 16_384); }
      case 0x05 => Two(Id, Id, p);
      case 0x06 => Two(Flag, Coordinators, p); if |p| == 2 { ListFits(CoordinatorEntry, p[1], 64); }
      case 0x07 => Two(Millis, Number(0, 65_535), p); if |p| == 2 { Ranges(p[1], 0, 65_535); }
    }
  }

  // ---------------------------------------------------------------- event frames

  lemma PrincipalPlaces(role: int, name: Place, p: seq<Value>)
    ensures Fits(PrincipalOf(role, name), Array(p)) <==>
      && |p| == 5 && Integer(p[0], role, role) && OpaqueId(p[1]) && PositiveId(p[2]) && Fits(name, p[3])
      && NullableString(p[4], 320)
  {
    hide Fits, PositiveId, OpaqueId, NullableString, Integer;
    Five(Number(role, role), Opaque, Id, name, OneOf([Nothing, Utf8(1, 320)]), p);
    if |p| == 5 {
      Ranges(p[0], role, role);
      Leaves(p[1]);
      Leaves(p[2]);
      MaybeText(p[4], 320);
    }
  }

  lemma PrincipalFits(v: Value)
    ensures Fits(Principal5, v) <==> Principal(v)
  {
    if v.Array? {
      hide Fits, PositiveId, OpaqueId, CoordinatorName, NullableString, Integer, IdOf, PrincipalOf;
      var p := v.items;
      OneOfThree(PrincipalOf(1, Nothing), PrincipalOf(2, Coordinator), PrincipalOf(3, Nothing), v);
      assert v == Array(p);
      PrincipalPlaces(1, Nothing, p);
      PrincipalPlaces(2, Coordinator, p);
      PrincipalPlaces(3, Nothing, p);
      if |p| == 5 {
        Exactly(p[0]);
        Leaves(p[3]);
        CoordinatorFits(p[3]);
      }
    } else {
      OneOfThree(PrincipalOf(1, Nothing), PrincipalOf(2, Coordinator), PrincipalOf(3, Nothing), v);
    }
  }

  /** The three ways to name a target. */
  predicate TargetPlaces(kind: Value, target: Value) {
    || (Fits(Number(0, 0), kind) && Fits(Nothing, target))
    || (Fits(Number(1, 1), kind) && Fits(Id, target))
    || (Fits(Number(2, 2), kind) && Fits(Coordinator, target))
  }

  lemma TargetFits(kind: Value, target: Value)
    ensures TargetPlaces(kind, target) <==> Target(kind, target)
  {
    hide Fits, PositiveId, CoordinatorName, Integer, IdOf;
    Exactly(kind);
    Leaves(target);
    CoordinatorFits(target);
  }

  lemma OneOfSix(a: Place, b: Place, c: Place, d: Place, e: Place, g: Place, v: Value)
    ensures Fits(OneOf([a, b, c, d, e, g]), v) <==>
      Fits(a, v) || Fits(b, v) || Fits(c, v) || Fits(d, v) || Fits(e, v) || Fits(g, v)
  {
    hide Fits;
    var f := [a, b, c, d, e, g];
    OneOfIs(f, v);
    assert f[0] == a && f[1] == b && f[2] == c && f[3] == d && f[4] == e && f[5] == g;
  }

  lemma EventPlaces(kind: int, target: Place, p: seq<Value>)
    ensures Fits(EventOf(kind, target), Array(p)) <==>
      && |p| == 5 && Fits(Id, p[0]) && Fits(Id, p[1]) && Fits(Number(kind, kind), p[2]) && Fits(target, p[3])
    ensures Fits(ForwardedOf(kind, target), Array(p)) <==>
      && |p| == 6 && Fits(Id, p[0]) && Fits(Id, p[1]) && Fits(Number(kind, kind), p[2]) && Fits(target, p[3])
      && Principal(p[4])
  {
    hide Fits, Principal;
    Five(Id, Id, Number(kind, kind), target, Anything, p);
    Six(Id, Id, Number(kind, kind), target, Principal5, Anything, p);
    AllLeaves(p);
    if |p| == 6 {
      PrincipalFits(p[4]);
    }
  }

  lemma EventFits(p: seq<Value>)
    ensures Fits(Layout(0x29), Array(p)) <==> Event(p)
  {
    hide Fits, Principal, PositiveId, Target;
    OneOfSix(EventOf(0, Nothing), EventOf(1, Id), EventOf(2, Coordinator),
             ForwardedOf(0, Nothing), ForwardedOf(1, Id), ForwardedOf(2, Coordinator), Array(p));
    hide EventOf, ForwardedOf;
    EventPlaces(0, Nothing, p);
    EventPlaces(1, Id, p);
    EventPlaces(2, Coordinator, p);
    if |p| == 5 || |p| == 6 {
      TargetFits(p[2], p[3]);
      Leaves(p[0]);
      Leaves(p[1]);
    }
  }

  lemma EventAgrees(opcode: byte, p: seq<Value>)
    requires 0x20 <= opcode <= 0x29
    ensures Agree(opcode, p)
  {
    hide Fits, PositiveId, EntryList, ElementOf, Event, UniqueIds, ArrayUpTo, Dictionary, IdOf;
    AllLeaves(p);
    RowElements();
    match opcode {
      case 0x20 => Two(Id, Many(ElementOf(EventEntry), 1_024, Places({0})), p); if |p| == 2 { ListFits(EventEntry, p[1], 1_024); }
      case 0x21 => Two(Id, Declared(1_024), p); if |p| == 2 { ListFits(DictionaryEntry, p[1], 1_024); }
      case 0x22 => DictionaryAgrees(p);
      case 0x23 => Two(Id, Many(ElementOf(EventAclEntry), 1_024, Places({0})), p); if |p| == 2 { ListFits(EventAclEntry, p[1], 1_024); }
      case 0x24 => Two(Id, Id, p);
      case 0x29 => EventFits(p);
      case _ => Two(Id, Many(Id, 256, Whole), p); if |p| == 2 { IdsFit(p[1], 256); }
    }
  }

  // ---------------------------------------------------------------- calls and presence

  lemma Nine(a: Place, b: Place, c: Place, d: Place, e: Place, g: Place, h: Place, k: Place, m: Place, p: seq<Value>)
    ensures Fits(Fixed([a, b, c, d, e, g, h, k, m]), Array(p)) <==>
      && |p| == 9 && Fits(a, p[0]) && Fits(b, p[1]) && Fits(c, p[2]) && Fits(d, p[3]) && Fits(e, p[4]) && Fits(g, p[5])
      && Fits(h, p[6]) && Fits(k, p[7]) && Fits(m, p[8])
  {
    hide Fits;
    var f := [a, b, c, d, e, g, h, k, m];
    FixedIs(f, p);
    assert f[0] == a && f[1] == b && f[2] == c && f[3] == d && f[4] == e && f[5] == g && f[6] == h && f[7] == k && f[8] == m;
  }

  /** The places of a call after its target. */
  predicate CallTail(path: Value, timeout: Value, key: Value, credit: Value) {
    PositiveId(path) && Integer(timeout, 1, 300_000) && NullableString(key, 128) && Integer(credit, 0, 32)
  }

  lemma CallTailFits(path: Value, timeout: Value, key: Value, credit: Value)
    ensures CallTail(path, timeout, key, credit) <==>
      && Fits(Id, path) && Fits(Number(1, 300_000), timeout) && Fits(OneOf([Nothing, Utf8(1, 128)]), key)
      && Fits(Number(0, 32), credit)
  {
    hide Fits, PositiveId, Integer, NullableString;
    Leaves(path);
    Ranges(timeout, 1, 300_000);
    MaybeText(key, 128);
    Ranges(credit, 0, 32);
  }

  lemma CallPlaces(kind: int, target: Place, p: seq<Value>)
    ensures Fits(CallOf(kind, target), Array(p)) <==>
      && |p| == 8 && Fits(Id, p[0]) && Fits(Number(kind, kind), p[1]) && Fits(target, p[2])
      && CallTail(p[3], p[4], p[5], p[6])
  {
    hide Fits, CallTail;
    Eight(Id, Number(kind, kind), target, Id, Number(1, 300_000), OneOf([Nothing, Utf8(1, 128)]), Number(0, 32), Anything, p);
    AllLeaves(p);
    if |p| == 8 {
      CallTailFits(p[3], p[4], p[5], p[6]);
    }
  }

  lemma DispatchPlaces(kind: int, target: Place, p: seq<Value>)
    ensures Fits(DispatchOf(kind, target), Array(p)) <==>
      && |p| == 9 && Fits(Id, p[0]) && Principal(p[1]) && Fits(Number(kind, kind), p[2]) && Fits(target, p[3])
      && CallTail(p[4], p[5], p[6], p[7])
  {
    hide Fits, CallTail, Principal;
    Nine(Id, Principal5, Number(kind, kind), target, Id, Number(1, 300_000), OneOf([Nothing, Utf8(1, 128)]), Number(0, 32),
         Anything, p);
    AllLeaves(p);
    if |p| == 9 {
      PrincipalFits(p[1]);
      CallTailFits(p[4], p[5], p[6], p[7]);
    }
  }

  lemma CallFits(p: seq<Value>)
    ensures Fits(Layout(0x33), Array(p)) <==> Call(p, false)
  {
    hide Fits, PositiveId, Target, Integer, NullableString;
    OneOfThree(CallOf(0, Nothing), CallOf(1, Id), CallOf(2, Coordinator), Array(p));
    hide CallOf;
    CallPlaces(0, Nothing, p);
    CallPlaces(1, Id, p);
    CallPlaces(2, Coordinator, p);
    if |p| == 8 {
      TargetFits(p[1], p[2]);
      Leaves(p[0]);
    }
  }

  lemma DispatchFits(p: seq<Value>)
    ensures Fits(Layout(0x34), Array(p)) <==> Call(p, true)
  {
    hide Fits, PositiveId, Target, Integer, NullableString, Principal;
    OneOfThree(DispatchOf(0, Nothing), DispatchOf(1, Id), DispatchOf(2, Coordinator), Array(p));
    hide DispatchOf;
    DispatchPlaces(0, Nothing, p);
    DispatchPlaces(1, Id, p);
    DispatchPlaces(2, Coordinator, p);
    if |p| == 9 {
      TargetFits(p[2], p[3]);
      Leaves(p[0]);
    }
  }

  lemma CallAgrees(opcode: byte, p: seq<Value>)
    requires 0x30 <= opcode <= 0x39
    ensures Agree(opcode, p)
  {
    hide Fits, PositiveId, EntryList, ElementOf, Call, UniqueNames, ArrayUpTo, Dictionary, CallErrorCode, Integer, String, IdOf;
    AllLeaves(p);
    RowElements();
    match opcode {
      case 0x30 => Two(Id, Many(Dotted, 1_024, Whole), p); if |p| == 2 { NamesFit(p[1], 1_024); }
      case 0x31 => Two(Id, Declared(1_024), p); if |p| == 2 { ListFits(DictionaryEntry, p[1], 1_024); }
      case 0x32 => DictionaryAgrees(p);
      case 0x33 => CallFits(p);
      case 0x34 => DispatchFits(p);
      case 0x35 => One(Id, p);
      case 0x36 => Three(Id, Flag, Anything, p);
      case 0x37 => Five(Id, CallCode, Flag, Note, Anything, p);
      case 0x38 => Two(Id, Number(0, 65_535), p); if |p| == 2 { Ranges(p[1], 0, 65_535); }
      case 0x39 => Two(Id, Number(1, 32), p); if |p| == 2 { Ranges(p[1], 1, 32); }
    }
  }

  lemma PresenceAgrees(opcode: byte, p: seq<Value>)
    requires 0x40 <= opcode <= 0x41
    ensures Agree(opcode, p)
  {
    hide Fits, PositiveId, EntryList, ElementOf, OpaqueId, Integer, IdOf;
    AllLeaves(p);
    RowElements();
    if opcode == 0x40 {
      One(Many(ElementOf(PresenceEntry), 4_096, Places({0})), p);
      if |p| == 1 {
        ListFits(PresenceEntry, p[0], 4_096);
      }
    } else {
      Three(Id, Opaque, Number(1, 2), p);
      if |p| == 3 {
        Ranges(p[2], 1, 2);
      }
    }
  }

  // ---------------------------------------------------------------- the registry

  /** The core opcodes of section 7.1, listed. */
  const REGISTERED: set<int> := {
    0, 1, 2, 3, 4, 5, 6, 7, 16, 17, 18, 19, 20, 21, 22, 23, 24, 25, 32, 33, 34, 35, 36, 37, 38, 39, 40, 41,
    48, 49, 50, 51, 52, 53, 54, 55, 56, 57, 64, 65 }

  /** A payload passes the rules of its opcode exactly when it fits the opcode's row of the table. */
  lemma RegistryExactly(opcode: byte, p: seq<Value>)
    requires KnownOpcode(opcode)
    ensures PayloadOk(opcode, p) <==> Fits(Layout(opcode), Array(p)) && Linked(opcode, p)
  {
    hide Fits, Layout, Linked, PayloadOk;
    if opcode <= 0x07 {
      SessionAgrees(opcode, p);
    } else if opcode <= 0x19 {
      StateAgrees(opcode, p);
    } else if opcode <= 0x29 {
      EventAgrees(opcode, p);
    } else if opcode <= 0x39 {
      CallAgrees(opcode, p);
    } else {
      PresenceAgrees(opcode, p);
    }
  }

  /** The verdict on a frame, from the table alone: extension frames pass, unlisted core opcodes are unknown. */
  lemma VerdictExactly(f: Frame)
    ensures FrameVerdict(f) ==
      if f.opcode as int >= 128 then Valid
      else if f.opcode as int !in REGISTERED then Invalid(UnknownOpcode)
      else if Fits(Layout(f.opcode), Array(f.payload)) && Linked(f.opcode, f.payload) then Valid
      else Invalid(InvalidFrame)
  {
    hide Fits, Layout, Linked, PayloadOk;
    assert f.opcode as int < 128 ==> (KnownOpcode(f.opcode) <==> f.opcode as int in REGISTERED);
    if KnownOpcode(f.opcode) {
      RegistryExactly(f.opcode, f.payload);
    }
  }

  /** What decoding answers for a canonical payload behind any opcode, from the table alone. */
  lemma DecodeExactly(f: Frame, wire: bytes)
    requires Carries(f, wire)
    ensures DecodeFrame(wire) ==
      if f.opcode as int >= 128 then Decoded(NormaliseFrame(f))
      else if f.opcode as int !in REGISTERED then Refused(UnknownOpcode)
      else if Fits(Layout(f.opcode), Array(f.payload)) && Linked(f.opcode, f.payload) then Decoded(NormaliseFrame(f))
      else Refused(InvalidFrame)
  {
    hide Fits, Layout, Linked, FrameVerdict, DecodeFrame, NormaliseFrame, Carries;
    VerdictExactly(f);
    DecodeVerdict(f, wire);
  }
}
