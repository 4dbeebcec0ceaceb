/** EncodeFrame and DecodeFrame: opcode, payload shape and canonical payload bytes. */
module Frames {
  import opened Wire
  import opened Names
  import opened Items
  import opened Encoder
  import opened Scanner
  import opened Canonicity
  import opened Decoder
  import opened Codec
  import opened Shapes

  datatype Frame = Frame(opcode: byte, payload: seq<Value>)

  // ---------------------------------------------------------------- validation

  datatype Verdict = Valid | Invalid(error: ErrorKind)

  function FrameVerdict(f: Frame): Verdict {
    if f.opcode >= 0x80 then Valid
    else if !KnownOpcode(f.opcode) then Invalid(UnknownOpcode)
    else if PayloadOk(f.opcode, f.payload) then Valid
    else Invalid(InvalidFrame)
  }

  function FailureOf(v: Verdict): ErrorKind {
    match v
    case Valid => Malformed
    case Invalid(error) => error
  }

  datatype NameRule = AnyPattern | AnyName

  predicate NameOk(rule: NameRule, v: Value) {
    match rule
    case AnyPattern => Pattern(v)
    case AnyName => StructuredName(v)
  }

  /** The `seen` map of a list of names after its first `k` values. */
  ghost predicate NamesSeen(seen: set<bytes>, values: seq<Value>, k: nat)
    requires k <= |values|
  {
    DistinctStrings(values[..k]) && forall s :: s in seen <==> exists i :: 0 <= i < k && StringOf(values[i]) == s
  }

  ghost predicate IdsSeen(seen: set<int>, values: seq<Value>, k: nat)
    requires k <= |values|
  {
    DistinctIds(values[..k]) && forall n :: n in seen <==> exists i :: 0 <= i < k && IdOf(values[i]) == n
  }

  lemma NextName(seen: set<bytes>, values: seq<Value>, k: nat)
    requires k < |values| && NamesSeen(seen, values, k)
    ensures StringOf(values[k]) in seen ==> !DistinctStrings(values)
    ensures StringOf(values[k]) !in seen ==> NamesSeen(seen + {StringOf(values[k])}, values, k + 1)
  {
    hide StringOf;
    assert forall i :: 0 <= i < k ==> values[..k][i] == values[..k + 1][i] == values[i];
  }

  lemma NextId(seen: set<int>, values: seq<Value>, k: nat)
    requires k < |values| && IdsSeen(seen, values, k)
    ensures IdOf(values[k]) in seen ==> !DistinctIds(values)
    ensures IdOf(values[k]) !in seen ==> IdsSeen(seen + {IdOf(values[k])}, values, k + 1)
  {
    hide IdOf;
    assert forall i :: 0 <= i < k ==> values[..k][i] == values[..k + 1][i] == values[i];
  }

  lemma NothingSeen(values: seq<Value>)
    ensures NamesSeen({}, values, 0) && IdsSeen({}, values, 0)
  {
  }

  lemma AllSeen(names: set<bytes>, ids: set<int>, values: seq<Value>)
    ensures NamesSeen(names, values, |values|) ==> DistinctStrings(values)
    ensures IdsSeen(ids, values, |values|) ==> DistinctIds(values)
  {
    assert values[..|values|] == values;
  }

  /** The loops over a list of names: every one well formed, none seen before. */
  method ValidateUniqueStrings(rule: NameRule, values: seq<Value>) returns (ok: bool)
    ensures ok <==> (forall i :: 0 <= i < |values| ==> NameOk(rule, values[i])) && DistinctStrings(values)
  {
    hide NameOk, NamesSeen, DistinctStrings;
    var seen: set<bytes> := {};
    NothingSeen(values);
    for index := 0 to |values|
      invariant forall i :: 0 <= i < index ==> NameOk(rule, values[i])
      invariant NamesSeen(seen, values, index)
    {
      NextName(seen, values, index);
      if !NameOk(rule, values[index]) || StringOf(values[index]) in seen {
        return false;
      }
      seen := seen + {StringOf(values[index])};
    }
    AllSeen(seen, {}, values);
    ok := true;
  }

  method ValidateUniqueIds(values: seq<Value>) returns (ok: bool)
    ensures ok <==> UniqueIds(values)
  {
    hide PositiveId, IdsSeen, DistinctIds;
    var seen: set<int> := {};
    NothingSeen(values);
    for index := 0 to |values|
      invariant forall i :: 0 <= i < index ==> PositiveId(values[i])
      invariant IdsSeen(seen, values, index)
    {
      NextId(seen, values, index);
      if !PositiveId(values[index]) || IdOf(values[index]) in seen {
        return false;
      }
      seen := seen + {IdOf(values[index])};
    }
    AllSeen({}, seen, values);
    ok := true;
  }

  /**
   * The loops of validateCoordinators, validateDictionary, validateMutations and the other entry
   * lists: one pass that checks each entry and refuses a key already seen.
   */
  method ValidateEntries(rule: EntryRule, v: Value, maximum: nat) returns (ok: bool)
    ensures ok <==> EntryList(rule, v, maximum)
  {
    hide EntryOk, NamesSeen, IdsSeen, DistinctIds, DistinctStrings;
    if !ArrayUpTo(v, maximum) {
      return false;
    }
    var ids: set<int> := {};
    var names: set<bytes> := {};
    ghost var first, second := Column(v.items, 0), Column(v.items, 1);
    NothingSeen(first);
    NothingSeen(second);
    for k := 0 to |v.items|
      invariant forall i :: 0 <= i < k ==> EntryOk(rule, v.items[i])
      invariant IdKeyed(rule) ==> IdsSeen(ids, first, k)
      invariant !IdKeyed(rule) ==> NamesSeen(names, first, k)
      invariant rule.DictionaryEntry? ==> NamesSeen(names, second, k)
    {
      var entry := v.items[k];
      assert first[k] == Field(entry, 0) && second[k] == Field(entry, 1);
      if !EntryOk(rule, entry) {
        return false;
      }
      if IdKeyed(rule) {
        NextId(ids, first, k);
        if IdOf(Field(entry, 0)) in ids {
          return false;
        }
        ids := ids + {IdOf(Field(entry, 0))};
        if rule.DictionaryEntry? {
          NextName(names, second, k);
          if StringOf(Field(entry, 1)) in names {
            return false;
          }
          names := names + {StringOf(Field(entry, 1))};
        }
      } else {
        NextName(names, first, k);
        if StringOf(Field(entry, 0)) in names {
          return false;
        }
        names := names + {StringOf(Field(entry, 0))};
      }
    }
    AllSeen(names, ids, first);
    AllSeen(names, ids, second);
    ok := true;
  }

  // ---------------------------------------------------------------- validation ignores number representation

  function NormaliseFrame(f: Frame): Frame { Frame(f.opcode, NormaliseAll(f.payload)) }

  /** What a validator may look at in one value: its number, its string or bytes, its items. */
  ghost predicate Alike(a: Value, b: Value) {
    && IntegerValue(a) == IntegerValue(b)
    && (a.Text? || b.Text? || a.Binary? || b.Binary? ==> a == b)
    && (a.Boolean? <==> b.Boolean?) && (a.Null? <==> b.Null?) && (a.Array? <==> b.Array?)
    && (a.Array? ==> b.items == NormaliseAll(a.items))
  }

  lemma NormaliseAlike(v: Value)
    ensures Alike(v, Normalise(v))
  {
  }

  lemma ItemsAlike(items: seq<Value>)
    ensures forall i :: 0 <= i < |items| ==> Alike(items[i], NormaliseAll(items)[i])
    ensures forall i :: 0 <= i < |items| ==> NormaliseAll(items)[i] == Normalise(items[i])
  {
    NormaliseAllAt(items);
    forall i | 0 <= i < |items| ensures Alike(items[i], NormaliseAll(items)[i]) {
      NormaliseAlike(items[i]);
    }
  }

  lemma ScalarsStable(a: Value, b: Value)
    requires Alike(a, b)
    ensures IdOf(a) == IdOf(b) && StringOf(a) == StringOf(b) && PositiveId(a) == PositiveId(b)
    ensures CoordinatorName(a) == CoordinatorName(b) && OpaqueId(a) == OpaqueId(b)
    ensures StructuredName(a) == StructuredName(b) && Pattern(a) == Pattern(b)
  {
    hide DottedName, ValidUtf8, ContainsControl;
  }

  lemma DistinctStable(items: seq<Value>)
    ensures DistinctStrings(NormaliseAll(items)) == DistinctStrings(items)
    ensures DistinctIds(NormaliseAll(items)) == DistinctIds(items)
  {
    ItemsAlike(items);
    forall i | 0 <= i < |items|
      ensures IdOf(items[i]) == IdOf(NormaliseAll(items)[i]) && StringOf(items[i]) == StringOf(NormaliseAll(items)[i])
    {
      ScalarsStable(items[i], NormaliseAll(items)[i]);
    }
  }

  lemma PatternsStable(a: Value, b: Value)
    requires Alike(a, b)
    ensures Patterns(a) == Patterns(b)
  {
    hide Pattern, DistinctStrings;
    if a.Array? {
      ItemsAlike(a.items);
      DistinctStable(a.items);
      forall i | 0 <= i < |a.items| ensures Pattern(a.items[i]) == Pattern(b.items[i]) {
        ScalarsStable(a.items[i], b.items[i]);
      }
    }
  }

  lemma EntryStable(rule: EntryRule, a: Value, b: Value)
    requires Alike(a, b)
    ensures EntryOk(rule, a) == EntryOk(rule, b)
    ensures IdOf(Field(a, 0)) == IdOf(Field(b, 0)) && StringOf(Field(a, 0)) == StringOf(Field(b, 0))
    ensures StringOf(Field(a, 1)) == StringOf(Field(b, 1))
  {
    hide CoordinatorName, OpaqueId, StructuredName, Patterns;
    if a.Array? {
      ItemsAlike(a.items);
      forall i | 0 <= i < |a.items|
        ensures Patterns(a.items[i]) == Patterns(b.items[i])
        ensures CoordinatorName(a.items[i]) == CoordinatorName(b.items[i]) && OpaqueId(a.items[i]) == OpaqueId(b.items[i])
        ensures StructuredName(a.items[i]) == StructuredName(b.items[i]) && StringOf(a.items[i]) == StringOf(b.items[i])
      {
        ScalarsStable(a.items[i], b.items[i]);
        PatternsStable(a.items[i], b.items[i]);
      }
    }
  }

  lemma EntryListStable(rule: EntryRule, a: Value, b: Value, maximum: nat)
    requires Alike(a, b)
    ensures EntryList(rule, a, maximum) == EntryList(rule, b, maximum)
  {
    hide EntryOk, StringOf, IdOf;
    if a.Array? {
      ItemsAlike(a.items);
      forall i | 0 <= i < |a.items|
        ensures EntryOk(rule, a.items[i]) == EntryOk(rule, b.items[i])
        ensures IdOf(Column(a.items, 0)[i]) == IdOf(Column(b.items, 0)[i])
        ensures StringOf(Column(a.items, 0)[i]) == StringOf(Column(b.items, 0)[i])
        ensures StringOf(Column(a.items, 1)[i]) == StringOf(Column(b.items, 1)[i])
      {
        EntryStable(rule, a.items[i], b.items[i]);
      }
    }
  }

  /** Every test the payload rules apply to one field gives the same answer on the normalised field. */
  ghost predicate FieldStable(a: Value, b: Value) {
    && Alike(a, b)
    && CoordinatorName(a) == CoordinatorName(b) && OpaqueId(a) == OpaqueId(b)
    && Principal(a) == Principal(b)
    && (forall rule, maximum :: EntryList(rule, a, maximum) == EntryList(rule, b, maximum))
    && (a.Array? ==> UniqueIds(a.items) == UniqueIds(b.items) && UniqueNames(a.items) == UniqueNames(b.items))
    && (a.Array? ==> forall i :: 0 <= i < |a.items| ==> Alike(a.items[i], b.items[i]))
    && (a.Array? ==> forall i :: 0 <= i < |a.items| ==>
          CoordinatorName(a.items[i]) == CoordinatorName(b.items[i]) && OpaqueId(a.items[i]) == OpaqueId(b.items[i]))
  }

  lemma UniqueStable(items: seq<Value>)
    ensures UniqueIds(NormaliseAll(items)) == UniqueIds(items)
    ensures UniqueNames(NormaliseAll(items)) == UniqueNames(items)
  {
    hide StructuredName, DistinctIds, DistinctStrings;
    ItemsAlike(items);
    DistinctStable(items);
    forall i | 0 <= i < |items|
      ensures StructuredName(items[i]) == StructuredName(NormaliseAll(items)[i])
    {
      ScalarsStable(items[i], NormaliseAll(items)[i]);
    }
  }

  lemma PrincipalStable(a: Value, b: Value)
    requires Alike(a, b)
    ensures Principal(a) == Principal(b)
  {
    hide CoordinatorName, OpaqueId;
    if a.Array? {
      ItemsAlike(a.items);
      forall i | 0 <= i < |a.items|
        ensures CoordinatorName(a.items[i]) == CoordinatorName(b.items[i]) && OpaqueId(a.items[i]) == OpaqueId(b.items[i])
      {
        ScalarsStable(a.items[i], b.items[i]);
      }
    }
  }

  lemma FieldsStable(v: Value)
    ensures FieldStable(v, Normalise(v))
  {
    hide CoordinatorName, OpaqueId, Principal, EntryList, UniqueIds, UniqueNames;
    var w := Normalise(v);
    NormaliseAlike(v);
    ScalarsStable(v, w);
    PrincipalStable(v, w);
    forall rule, maximum ensures EntryList(rule, v, maximum) == EntryList(rule, w, maximum) {
      EntryListStable(rule, v, w, maximum);
    }
    if v.Array? {
      UniqueStable(v.items);
      ItemsAlike(v.items);
      forall i | 0 <= i < |v.items|
        ensures CoordinatorName(v.items[i]) == CoordinatorName(w.items[i]) && OpaqueId(v.items[i]) == OpaqueId(w.items[i])
      {
        ScalarsStable(v.items[i], w.items[i]);
      }
    }
  }

  ghost predicate PayloadStable(p: seq<Value>, q: seq<Value>) {
    |p| == |q| && forall i :: 0 <= i < |p| ==> FieldStable(p[i], q[i])
  }

  lemma SessionStable(opcode: byte, p: seq<Value>, q: seq<Value>)
    requires opcode <= 0x07 && PayloadStable(p, q)
    ensures SessionPayload(opcode, p) == SessionPayload(opcode, q)
  {
    hide CoordinatorName, OpaqueId, Principal, EntryList, UniqueIds, UniqueNames, CoreErrorCode, OriginatingOpcode;
  }

  lemma StateStable(opcode: byte, p: seq<Value>, q: seq<Value>)
    requires 0x10 <= opcode <= 0x19 && PayloadStable(p, q)
    ensures StatePayload(opcode, p) == StatePayload(opcode, q)
  {
    hide CoordinatorName, OpaqueId, Principal, EntryList, UniqueIds, UniqueNames;
  }

  lemma EventStable(opcode: byte, p: seq<Value>, q: seq<Value>)
    requires 0x20 <= opcode <= 0x29 && PayloadStable(p, q)
    ensures EventPayload(opcode, p) == EventPayload(opcode, q)
  {
    hide CoordinatorName, OpaqueId, Principal, EntryList, UniqueIds, UniqueNames;
  }

  lemma CallStable(opcode: byte, p: seq<Value>, q: seq<Value>)
    requires 0x30 <= opcode <= 0x39 && PayloadStable(p, q)
    ensures CallPayload(opcode, p) == CallPayload(opcode, q)
  {
    hide CoordinatorName, OpaqueId, Principal, EntryList, UniqueIds, UniqueNames, CoreErrorCode;
  }

  lemma PresenceStable(opcode: byte, p: seq<Value>, q: seq<Value>)
    requires 0x40 <= opcode <= 0x41 && PayloadStable(p, q)
    ensures PresencePayload(opcode, p) == PresencePayload(opcode, q)
  {
    hide CoordinatorName, OpaqueId, Principal, EntryList, UniqueIds, UniqueNames;
  }

  /** A frame and its normalisation are judged alike, whatever Go number types the payload used. */
  lemma VerdictStable(f: Frame)
    ensures FrameVerdict(NormaliseFrame(f)) == FrameVerdict(f)
  {
    hide FieldStable, SessionPayload, StatePayload, EventPayload, CallPayload, PresencePayload;
    var p, q := f.payload, NormaliseAll(f.payload);
    NormaliseAllAt(p);
    forall i | 0 <= i < |p| ensures FieldStable(p[i], q[i]) {
      FieldsStable(p[i]);
    }
    if KnownOpcode(f.opcode) {
      if f.opcode <= 0x07 { SessionStable(f.opcode, p, q); }
      else if f.opcode <= 0x19 { StateStable(f.opcode, p, q); }
      else if f.opcode <= 0x29 { EventStable(f.opcode, p, q); }
      else if f.opcode <= 0x39 { CallStable(f.opcode, p, q); }
      else { PresenceStable(f.opcode, p, q); }
    }
  }

  // ---------------------------------------------------------------- encode and decode

  /** The verdict of preflight on a whole frame. */
  function PreflightVerdict(input: bytes): Verdict {
    if |input| > MAX_FRAME_BYTES then Invalid(FrameTooLarge)
    else if |input| < 2 then Invalid(Malformed)
    else
      match Scan(input, 1, 1, 0)
      case Rejected(error, _) => Invalid(error)
      case Accepted(end, kind, _, _) =>
        if kind != KArray then Invalid(InvalidFrame)
        else if end != |input| then Invalid(Malformed)
        else Valid
  }

  method Preflight(input: bytes) returns (v: Verdict)
    ensures v == PreflightVerdict(input)
  {
    hide Scan;
    if |input| > MAX_FRAME_BYTES {
      return Invalid(FrameTooLarge);
    }
    if |input| < 2 {
      return Invalid(Malformed);
    }
    var state := new ScanState();
    var result := ScanValue(input, 1, 1, state);
    if result.Failure? {
      return Invalid(result.error);
    }
    if result.value.kind != KArray {
      return Invalid(InvalidFrame);
    }
    if result.value.end != |input| {
      return Invalid(Malformed);
    }
    v := Valid;
  }

  ghost function PayloadEncoding(f: Frame): Encoded { EncodeItem(Lower(Array(f.payload)), 1, 0, 0) }

  /** EncodeFrame's success, before its closing self-check. */
  ghost predicate Encodes(f: Frame, wire: bytes) {
    && FrameVerdict(f).Valid?
    && PayloadEncoding(f).Done?
    && wire == [f.opcode] + PayloadEncoding(f).out
  }

  method EncodeFrame(f: Frame) returns (r: Result<bytes>)
    ensures r.Success? <==> FrameVerdict(f).Valid? && PayloadEncoding(f).Done?
    ensures r.Success? ==> Encodes(f, r.value)
    ensures FrameVerdict(f).Invalid? ==> r == Failure(FrameVerdict(f).error)
    ensures FrameVerdict(f).Valid? && r.Failure? ==> SameFailure(r.error, PayloadEncoding(f).error)
  {
    hide FrameVerdict, EncodeItem, Lower, PreflightVerdict;
    if FrameVerdict(f).Invalid? {
      return Failure(FrameVerdict(f).error);
    }
    var state := new ScanState();
    var payload := EncodeValue(Array(f.payload), 1, state);
    if payload.Failure? {
      return Failure(payload.error);
    }
    var output := [f.opcode] + payload.value;
    var checked := Preflight(output);
    r := if checked == Valid then Success(output) else Failure(FailureOf(checked));
    PreflightNeverRejects(f, output);
  }

  datatype Decoded = Decoded(frame: Frame) | Refused(error: ErrorKind)

  function DecodeFrame(input: bytes): Decoded {
    if PreflightVerdict(input).Invalid? then Refused(PreflightVerdict(input).error)
    else if input[0] < 0x80 && !KnownOpcode(input[0]) then Refused(UnknownOpcode)
    else
      match DecodePayload(input[1..])
      case Undecodable => Refused(Malformed)
      case Denotes(value, _) =>
        if !value.Array? then Refused(InvalidFrame)
        else
          var frame := Frame(input[0], value.items);
          if FrameVerdict(frame).Invalid? then Refused(FrameVerdict(frame).error) else Decoded(frame)
  }

  /** A frame's bytes after the opcode are scanned as they would be on their own. */
  lemma PayloadScan(input: bytes)
    requires PreflightVerdict(input).Valid?
    ensures Accepts(input[1..]) && Scan(input[1..], 0, 1, 0).kind == KArray
  {
    hide Scan;
    var t := ScanRecognises(input, 1, 1, 0);
    assert input[1..] == Encoding(t) by {
      assert input[1..|input|] == input[1..];
    }
    ScanLocal(input, 1, t, 1, 0);
  }

  /** An opcode and a payload that encodes. */
  ghost predicate Carries(f: Frame, wire: bytes) {
    PayloadEncoding(f).Done? && wire == [f.opcode] + PayloadEncoding(f).out
  }

  lemma CarriedScan(f: Frame, wire: bytes)
    requires Carries(f, wire)
    ensures wire[1..] == PayloadEncoding(f).out && Produces(Array(f.payload), wire[1..])
    ensures PreflightVerdict(wire).Valid?
  {
    hide EncodeItem, Scan;
    var t := Lower(Array(f.payload));
    assert wire[1..] == PayloadEncoding(f).out;
    ProducedIsEncoding(Array(f.payload), wire[1..]);
    assert wire[1..1 + |Encoding(t)|] == wire[1..];
    ScanAccepts(wire, 1, t, 1, 0);
  }

  lemma EncodedScan(f: Frame, wire: bytes)
    requires Encodes(f, wire)
    ensures wire[1..] == PayloadEncoding(f).out && Produces(Array(f.payload), wire[1..])
    ensures PreflightVerdict(wire).Valid?
  {
    CarriedScan(f, wire);
  }

  /** A canonical payload behind any opcode is decoded, or refused for what is wrong with the frame it carries. */
  lemma DecodeVerdict(f: Frame, wire: bytes)
    requires Carries(f, wire)
    ensures DecodeFrame(wire) ==
      match FrameVerdict(f)
      case Valid => Decoded(NormaliseFrame(f))
      case Invalid(error) => Refused(error)
  {
    hide EncodeItem, FrameVerdict, Scan, PreflightVerdict, Lower, DecodePayload, KnownOpcode, PayloadEncoding;
    CarriedScan(f, wire);
    EncodedIsAccepted(Array(f.payload), wire[1..]);
    VerdictStable(f);
    UnknownVerdict(f);
    assert wire[0] == f.opcode;
    assert Normalise(Array(f.payload)) == Array(NormaliseAll(f.payload));
  }

  lemma UnknownVerdict(f: Frame)
    ensures f.opcode < 0x80 && !KnownOpcode(f.opcode) ==> FrameVerdict(f) == Invalid(UnknownOpcode)
  {
  }

  /** EncodeFrame's closing self-check cannot fail. */
  lemma PreflightNeverRejects(f: Frame, wire: bytes)
    requires FrameVerdict(f).Valid? && PayloadEncoding(f).Done? && wire == [f.opcode] + PayloadEncoding(f).out
    ensures PreflightVerdict(wire).Valid?
  {
    EncodedScan(f, wire);
  }

  /** Round trip from a frame: decoding what EncodeFrame returns gives the frame, numbers normalised. */
  lemma DecodeAfterEncode(f: Frame, wire: bytes)
    requires Encodes(f, wire)
    ensures DecodeFrame(wire) == Decoded(NormaliseFrame(f))
  {
    hide EncodeItem, FrameVerdict, Scan, PreflightVerdict, Lower, DecodePayload, KnownOpcode, PayloadEncoding;
    EncodedScan(f, wire);
    EncodedIsAccepted(Array(f.payload), wire[1..]);
    VerdictStable(f);
    ValidOpcode(f);
    assert Normalise(Array(f.payload)) == Array(NormaliseAll(f.payload));
  }

  lemma ValidOpcode(f: Frame)
    requires FrameVerdict(f).Valid?
    ensures f.opcode >= 0x80 || KnownOpcode(f.opcode)
  {
  }

  /** Round trip from bytes: re-encoding what DecodeFrame returns gives exactly those bytes. */
  lemma EncodeAfterDecode(wire: bytes)
    requires DecodeFrame(wire).Decoded?
    ensures Encodes(DecodeFrame(wire).frame, wire)
  {
    hide EncodeItem, FrameVerdict, Scan, PreflightVerdict, Lower, DecodePayload;
    var f := DecodeFrame(wire).frame;
    assert PreflightVerdict(wire).Valid?;
    LongEnough(wire);
    PayloadScan(wire);
    var t := AcceptedIsEncoded(wire[1..]);
    assert wire == [wire[0]] + wire[1..];
    assert Array(f.payload) == Raise(t);
  }

  lemma LongEnough(wire: bytes)
    requires PreflightVerdict(wire).Valid?
    ensures |wire| >= 2
  {
  }

  /** Decoding refuses nothing the encoder could have produced, and accepts nothing else. */
  lemma DecodableExactlyWhenEncoded(wire: bytes)
    ensures DecodeFrame(wire).Decoded? <==> exists f :: Encodes(f, wire)
  {
    hide DecodeFrame, Encodes;
    if DecodeFrame(wire).Decoded? {
      EncodeAfterDecode(wire);
    }
    if exists f :: Encodes(f, wire) {
      var f :| Encodes(f, wire);
      DecodeAfterEncode(f, wire);
    }
  }
}
