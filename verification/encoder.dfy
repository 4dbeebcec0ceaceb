/** encodeValue: the budgeted, streaming encoder, its specification and when it accepts. */
module Encoder {
  import opened Wire
  import opened Items
  import Binary64

  /** The counters that one frame's encode or scan shares across recursive calls. */
  class ScanState {
    var nodes: nat
    var encodedBytes: nat

    constructor ()
      ensures nodes == 0 && encodedBytes == 0
    {
      nodes, encodedBytes := 0, 0;
    }
  }

  datatype Result<+T> = Success(value: T) | Failure(error: ErrorKind)

  datatype Encoded =
    | Done(out: bytes, nodes: nat, used: nat)
    | Failed(error: ErrorKind, nodes: nat, used: nat)

  // ---------------------------------------------------------------- specification

  /** An atom or head: charged against the byte budget before it is returned. */
  function Charge(out: bytes, nodes: nat, used: nat): Encoded {
    if used + |out| > MAX_FRAME_BYTES - 1 then Failed(FrameTooLarge, nodes, used + |out|)
    else Done(out, nodes, used + |out|)
  }

  function Append(prefix: bytes, rest: Encoded): Encoded {
    match rest
    case Done(out, nodes, used) => Done(prefix + out, nodes, used)
    case Failed(_, _, _) => rest
  }

  function EncodeItem(t: Item, depth: int, nodes: nat, used: nat): Encoded
    decreases t
  {
    if depth > MAX_DEPTH then Failed(Limit, nodes, used)
    else if nodes + 1 > MAX_VALUES then Failed(Limit, nodes + 1, used)
    else
    var nodes := nodes + 1;
    match t
    case Nil => Charge([0xc0], nodes, used)
    case Bool(b) => Charge(if b then [0xc3] else [0xc2], nodes, used)
    case Int(n) =>
      if !Binary64.Safe(n) then Failed(InvalidValue, nodes, used)
      else Charge(EncodeSignedInteger(n), nodes, used)
    case Flt(bits) =>
      if !FloatOk(bits) then Failed(InvalidValue, nodes, used)
      else Charge([0xcb] + ToBE(bits, 8), nodes, used)
    case Str(text) => EncodeString(text, nodes, used)
    case Bin(data) =>
      if |data| > MAX_BINARY_BYTES then Failed(Limit, nodes, used)
      else Charge(BinaryHead(|data|) + data, nodes, used)
    case Arr(items) => EncodeArr(items, depth, nodes, used)
    case Obj(entries) => EncodeObj(entries, depth, nodes, used)
    case Unsupported => Failed(InvalidValue, nodes, used)
  }

  function EncodeArr(items: seq<Item>, depth: int, nodes: nat, used: nat): Encoded
    decreases items, 1
  {
    if |items| > MAX_ARRAY_ITEMS then Failed(Limit, nodes, used)
    else
      var head := Charge(ArrayHead(|items|), nodes, used);
      if head.Failed? then head
      else Append(head.out, EncodeItems(items, depth + 1, head.nodes, head.used))
  }

  function EncodeObj(entries: seq<Entry>, depth: int, nodes: nat, used: nat): Encoded
    decreases entries, 1
  {
    if |entries| > MAX_MAP_ENTRIES then Failed(Limit, nodes, used)
    else if BadKey(entries).Some? then Failed(BadKey(entries).error, nodes, used)
    else
      var head := Charge(MapHead(|entries|), nodes, used);
      if head.Failed? then head
      else Append(head.out, EncodeEntries(entries, depth + 1, head.nodes, head.used))
  }

  function EncodeString(text: bytes, nodes: nat, used: nat): Encoded {
    if !ValidUtf8(text) then Failed(InvalidValue, nodes, used)
    else if |text| > MAX_STRING_BYTES then Failed(Limit, nodes, used)
    else Charge(EncodeText(text), nodes, used)
  }

  function EncodeItems(items: seq<Item>, depth: int, nodes: nat, used: nat): Encoded
    decreases items, 0
  {
    if items == [] then Done([], nodes, used)
    else
      var first := EncodeItem(items[0], depth, nodes, used);
      if first.Failed? then first
      else Append(first.out, EncodeItems(items[1..], depth, first.nodes, first.used))
  }

  /** A key is encoded by the same routine as a value, so it is counted and depth-checked too. */
  function EncodeKey(key: bytes, depth: int, nodes: nat, used: nat): Encoded {
    if depth > MAX_DEPTH then Failed(Limit, nodes, used)
    else if nodes + 1 > MAX_VALUES then Failed(Limit, nodes + 1, used)
    else EncodeString(key, nodes + 1, used)
  }

  function EncodeEntries(entries: seq<Entry>, depth: int, nodes: nat, used: nat): Encoded
    decreases entries, 0
  {
    if entries == [] then Done([], nodes, used)
    else
      var key := EncodeKey(entries[0].key, depth, nodes, used);
      if key.Failed? then key
      else
        var val := EncodeItem(entries[0].val, depth, key.nodes, key.used);
        if val.Failed? then val
        else Append(key.out + val.out, EncodeEntries(entries[1..], depth, val.nodes, val.used))
  }

  datatype KeyVerdict = None | Some(error: ErrorKind)

  function KeyError(key: bytes): KeyVerdict {
    if !ValidUtf8(key) then Some(InvalidValue)
    else if |key| > MAX_MAP_KEY_BYTES then Some(Limit)
    else if key == PROTO_KEY then Some(InvalidValue)
    else None
  }

  function BadKey(entries: seq<Entry>): KeyVerdict {
    if entries == [] then None
    else if KeyError(entries[0].key).Some? then KeyError(entries[0].key)
    else BadKey(entries[1..])
  }

  // ---------------------------------------------------------------- when the encoder accepts

  /** All limits but the byte budget hold. */
  ghost predicate Encodable(t: Item, depth: int, nodes: nat) {
    Canonical(t) && Fits(t, depth, nodes)
  }

  /** The outcome the declarative limits and the unbudgeted encoding predict. */
  ghost predicate Predicted(r: Encoded, ok: bool, out: bytes, count: nat, nodes: nat, used: nat) {
    && (r.Done? <==> ok && used + |out| <= MAX_FRAME_BYTES - 1)
    && (r.Done? ==> r.out == out && r.nodes == nodes + count && r.used == used + |out|)
    && (ok && r.Failed? ==> r.error == FrameTooLarge)
  }

  /**
   * Exact acceptance: the streaming encoder succeeds precisely on values within the declarative
   * limits whose complete encoding fits the byte budget, it then returns that encoding and has
   * raised the counters by its length and value count, and on a value within the other limits the
   * only possible failure is the byte budget.
   */
  lemma {:induction false} EncodeExact(t: Item, depth: int, nodes: nat, used: nat)
    requires SortedItem(t)
    requires used <= MAX_FRAME_BYTES - 1
    ensures Predicted(EncodeItem(t, depth, nodes, used), Encodable(t, depth, nodes), Encoding(t), Count(t), nodes, used)
  {
    if depth <= MAX_DEPTH && nodes + 1 <= MAX_VALUES {
      match t
      case Arr(items) =>
        HeadNonEmpty(|items|);
        assert EncodeItem(t, depth, nodes, used) == EncodeArr(items, depth, nodes + 1, used);
        if |items| <= MAX_ARRAY_ITEMS && used + |ArrayHead(|items|)| <= MAX_FRAME_BYTES - 1 {
          EncodeAllExact(items, depth, nodes + 1, used + |ArrayHead(|items|)|);
        }
      case Obj(entries) =>
        BadKeyExact(entries);
        HeadNonEmpty(|entries|);
        assert EncodeItem(t, depth, nodes, used) == EncodeObj(entries, depth, nodes + 1, used);
        if |entries| <= MAX_MAP_ENTRIES && BadKey(entries).None? && used + |MapHead(|entries|)| <= MAX_FRAME_BYTES - 1 {
          EncodeEntriesExact(entries, depth, nodes + 1, used + |MapHead(|entries|)|);
        }
      case _ =>
    }
  }

  lemma HeadNonEmpty(n: nat)
    ensures |ArrayHead(n)| > 0 && |MapHead(n)| > 0
  {
  }

  /** Objects list their keys in increasing order, at every level. */
  ghost predicate SortedItem(t: Item) {
    match t
    case Arr(items) => SortedAll(items)
    case Obj(entries) => Ascending(entries) && SortedEntries(entries)
    case _ => true
  }

  ghost predicate SortedAll(items: seq<Item>) {
    items == [] || (SortedItem(items[0]) && SortedAll(items[1..]))
  }

  ghost predicate SortedEntries(entries: seq<Entry>) {
    entries == [] || (SortedItem(entries[0].val) && SortedEntries(entries[1..]))
  }

  lemma {:induction false} EncodeAllExact(items: seq<Item>, depth: int, nodes: nat, used: nat)
    requires SortedAll(items)
    requires depth <= MAX_DEPTH && used <= MAX_FRAME_BYTES - 1
    ensures Predicted(EncodeItems(items, depth + 1, nodes, used),
                      CanonicalAll(items) && depth + HeightAll(items) <= MAX_DEPTH
                      && (items == [] || nodes + CountAll(items) <= MAX_VALUES),
                      EncodingAll(items), CountAll(items), nodes, used)
  {
    if items != [] {
      EncodeExact(items[0], depth + 1, nodes, used);
      var first := EncodeItem(items[0], depth + 1, nodes, used);
      if first.Done? {
        EncodeAllExact(items[1..], depth, first.nodes, first.used);
      }
    }
  }

  lemma {:induction false} EncodeEntriesExact(entries: seq<Entry>, depth: int, nodes: nat, used: nat)
    requires SortedEntries(entries) && BadKey(entries).None?
    requires depth <= MAX_DEPTH && used <= MAX_FRAME_BYTES - 1
    ensures Predicted(EncodeEntries(entries, depth + 1, nodes, used),
                      CanonicalEntries(entries) && depth + HeightEntries(entries) <= MAX_DEPTH
                      && (entries == [] || nodes + CountEntries(entries) <= MAX_VALUES),
                      EncodingEntries(entries), CountEntries(entries), nodes, used)
  {
    if entries != [] {
      var key := EncodeKey(entries[0].key, depth + 1, nodes, used);
      if key.Done? {
        EncodeExact(entries[0].val, depth + 1, key.nodes, key.used);
        var val := EncodeItem(entries[0].val, depth + 1, key.nodes, key.used);
        if val.Done? {
          EncodeEntriesExact(entries[1..], depth, val.nodes, val.used);
        }
      }
    }
  }

  lemma {:induction false} BadKeyExact(entries: seq<Entry>)
    ensures BadKey(entries).None? <==> forall i :: 0 <= i < |entries| ==> KeyOk(entries[i].key)
    ensures CanonicalEntries(entries) ==> BadKey(entries).None?
  {
    if entries != [] {
      BadKeyExact(entries[1..]);
      assert forall i :: 0 < i < |entries| ==> entries[i] == entries[1..][i - 1];
    }
  }

  // ---------------------------------------------------------------- the streaming encoder

  /** Go enumerates map keys in random order, so which of several bad keys is reported is not fixed. */
  predicate SameFailure(a: ErrorKind, b: ErrorKind) {
    a == b || (a in {InvalidValue, Limit} && b in {InvalidValue, Limit})
  }

  ghost predicate Matches(r: Result<bytes>, expected: Encoded, nodes: nat, used: nat) {
    && nodes == expected.nodes && used == expected.used
    && match expected
       case Done(out, _, _) => r == Success(out)
       case Failed(error, _, _) => r.Failure? && SameFailure(r.error, error)
  }

  method AccountEncodedBytes(state: ScanState, length: nat) returns (ok: bool)
    modifies state`encodedBytes
    ensures state.encodedBytes == old(state.encodedBytes) + length
    ensures ok <==> state.encodedBytes <= MAX_FRAME_BYTES - 1
  {
    state.encodedBytes := state.encodedBytes + length;
    ok := state.encodedBytes <= MAX_FRAME_BYTES - 1;
  }

  method EncodedAtom(state: ScanState, value: bytes) returns (r: Result<bytes>)
    modifies state`encodedBytes
    ensures Matches(r, Charge(value, state.nodes, old(state.encodedBytes)), state.nodes, state.encodedBytes)
  {
    var ok := AccountEncodedBytes(state, |value|);
    r := if ok then Success(value) else Failure(FrameTooLarge);
  }

  function EncodeFloat(bits: uint64): Result<bytes> {
    if !Binary64.Finite(bits) || Binary64.NegativeZero(bits) then Failure(InvalidValue)
    else if Binary64.Integral(bits) then
      (if Binary64.Safe(Binary64.IntegerOf(bits)) then Success(EncodeSignedInteger(Binary64.IntegerOf(bits)))
       else Failure(InvalidValue))
    else Success([0xcb] + ToBE(bits, 8))
  }

  method EncodeValue(value: Value, depth: int, state: ScanState) returns (r: Result<bytes>)
    modifies state
    ensures Matches(r, EncodeItem(Lower(value), depth, old(state.nodes), old(state.encodedBytes)),
                    state.nodes, state.encodedBytes)
    decreases MAX_DEPTH + 1 - depth, 1
  {
    hide EncodeArr, EncodeObj, EncodeItems, EncodeEntries, LowerAll, LowerMembers, SortedKeys;
    hide EncodeUnsignedInteger, StringHead, BinaryHead, ToBE, ValidUtf8;
    hide EncodeFloat, FloatOk, Binary64.IntegerOf, Binary64.SafeInteger;
    if depth > MAX_DEPTH {
      return Failure(Limit);
    }
    state.nodes := state.nodes + 1;
    if state.nodes > MAX_VALUES {
      return Failure(Limit);
    }
    match value {
      case Null =>
        r := EncodedAtom(state, [0xc0]);
      case Boolean(b) =>
        r := EncodedAtom(state, if b then [0xc3] else [0xc2]);
      case Unsigned(u) =>
        if u > Binary64.MAX_SAFE {
          return Failure(InvalidValue);
        }
        r := EncodedAtom(state, EncodeUnsignedInteger(u));
      case Signed(n) =>
        if !Binary64.Safe(n) {
          return Failure(InvalidValue);
        }
        r := EncodedAtom(state, EncodeSignedInteger(n));
      case Float(bits) =>
        FloatLowered(bits);
        var encoded := EncodeFloat(bits);
        if encoded.Failure? {
          return encoded;
        }
        r := EncodedAtom(state, encoded.value);
      case Text(text) =>
        if !ValidUtf8(text) {
          return Failure(InvalidValue);
        }
        if |text| > MAX_STRING_BYTES {
          return Failure(Limit);
        }
        var ok := AccountEncodedBytes(state, |StringHead(|text|)| + |text|);
        r := if ok then Success(StringHead(|text|) + text) else Failure(FrameTooLarge);
      case Binary(data) =>
        if |data| > MAX_BINARY_BYTES {
          return Failure(Limit);
        }
        var ok := AccountEncodedBytes(state, |BinaryHead(|data|)| + |data|);
        r := if ok then Success(BinaryHead(|data|) + data) else Failure(FrameTooLarge);
      case Array(items) =>
        r := EncodeArray(items, depth, state);
      case Object(members) =>
        r := EncodeMap(members, depth, state);
      case Other =>
        r := Failure(InvalidValue);
    }
  }

  lemma FloatLowered(bits: uint64)
    ensures match Lower(Float(bits))
            case Int(n) => Binary64.Safe(n) && EncodeFloat(bits) == Success(EncodeSignedInteger(n))
            case Flt(b) =>
              && b == bits
              && EncodeFloat(bits) == if FloatOk(bits) then Success([0xcb] + ToBE(bits, 8)) else Failure(InvalidValue)
            case _ => false
  {
  }

  method EncodeArray(items: seq<Value>, depth: int, state: ScanState) returns (r: Result<bytes>)
    requires depth <= MAX_DEPTH
    modifies state
    ensures Matches(r, EncodeArr(LowerAll(items), depth, old(state.nodes), old(state.encodedBytes)),
                    state.nodes, state.encodedBytes)
    decreases MAX_DEPTH + 1 - depth, 0
  {
    if |items| > MAX_ARRAY_ITEMS {
      return Failure(Limit);
    }
    var output := ArrayHead(|items|);
    var fits := AccountEncodedBytes(state, |output|);
    if !fits {
      return Failure(FrameTooLarge);
    }
    var body := EncodeElements(items, depth + 1, state);
    r := if body.Failure? then body else Success(output + body.value);
  }

  method EncodeElements(items: seq<Value>, depth: int, state: ScanState) returns (r: Result<bytes>)
    requires depth <= MAX_DEPTH + 1
    modifies state
    ensures Matches(r, EncodeItems(LowerAll(items), depth, old(state.nodes), old(state.encodedBytes)),
                    state.nodes, state.encodedBytes)
    decreases MAX_DEPTH + 1 - depth, 2
  {
    hide EncodeItem, Lower, LowerAll;
    ghost var lowered, nodes, used := LowerAll(items), state.nodes, state.encodedBytes;
    LowerAllAt(items);
    var output: bytes := [];
    for i := 0 to |items|
      invariant ItemsSoFar(lowered, i, depth, nodes, used, output, state.nodes, state.encodedBytes)
    {
      NextItem(lowered, i, depth, nodes, used, output, state.nodes, state.encodedBytes);
      var encoded := EncodeValue(items[i], depth, state);
      if encoded.Failure? {
        return encoded;
      }
      output := output + encoded.value;
    }
    assert output + [] == output;
    r := Success(output);
  }

  /** The first `i` items encode to `body`, and the whole continues from the counters reached. */
  ghost predicate ItemsSoFar(items: seq<Item>, i: nat, depth: int, nodes: nat, used: nat, body: bytes, nodesNow: nat, usedNow: nat) {
    && i <= |items|
    && EncodeItems(items, depth, nodes, used) == Append(body, EncodeItems(items[i..], depth, nodesNow, usedNow))
  }

  lemma NextItem(items: seq<Item>, i: nat, depth: int, nodes: nat, used: nat, body: bytes, nodesNow: nat, usedNow: nat)
    requires i < |items| && ItemsSoFar(items, i, depth, nodes, used, body, nodesNow, usedNow)
    ensures var step := EncodeItem(items[i], depth, nodesNow, usedNow);
            if step.Failed? then EncodeItems(items, depth, nodes, used) == step
            else ItemsSoFar(items, i + 1, depth, nodes, used, body + step.out, step.nodes, step.used)
  {
    assert items[i..][0] == items[i] && items[i..][1..] == items[i + 1..];
    var step := EncodeItem(items[i], depth, nodesNow, usedNow);
    if step.Done? {
      AppendAppend(body, step.out, EncodeItems(items[i + 1..], depth, step.nodes, step.used));
    }
  }

  lemma AppendAppend(a: bytes, b: bytes, r: Encoded)
    ensures Append(a, Append(b, r)) == Append(a + b, r)
  {
    if r.Done? {
      assert a + (b + r.out) == (a + b) + r.out;
    }
  }

  /** The members of a Go map as wire entries in key order. */
  ghost function MemberEntries(members: map<bytes, Value>): (entries: seq<Entry>)
    ensures |entries| == |members|
  {
    LowerMembers(Object(members), SortedKeys(members.Keys))
  }

  method EncodeMap(members: map<bytes, Value>, depth: int, state: ScanState) returns (r: Result<bytes>)
    requires depth <= MAX_DEPTH
    modifies state
    ensures Matches(r, EncodeObj(MemberEntries(members), depth, old(state.nodes), old(state.encodedBytes)),
                    state.nodes, state.encodedBytes)
    decreases MAX_DEPTH + 1 - depth, 0
  {
    hide MemberEntries, SortedKeys, BadKey;
    if |members| > MAX_MAP_ENTRIES {
      return Failure(Limit);
    }
    var keys := CollectKeys(members);
    if keys.Failure? {
      return Failure(keys.error);
    }
    var sorted := SortStrings(keys.value, members.Keys);
    var output := MapHead(|sorted|);
    var fits := AccountEncodedBytes(state, |output|);
    if !fits {
      return Failure(FrameTooLarge);
    }
    var body := EncodeMembers(members, sorted, depth + 1, state);
    r := if body.Failure? then body else Success(output + body.value);
  }

  method EncodeMembers(members: map<bytes, Value>, keys: seq<bytes>, depth: int, state: ScanState)
    returns (r: Result<bytes>)
    requires depth <= MAX_DEPTH + 1
    requires keys == SortedKeys(members.Keys)
    modifies state
    ensures Matches(r, EncodeEntries(MemberEntries(members), depth, old(state.nodes), old(state.encodedBytes)),
                    state.nodes, state.encodedBytes)
    decreases MAX_DEPTH + 1 - depth, 2
  {
    hide EncodeItem, LowerMembers, SortedKeys;
    ghost var entries, nodes, used := MemberEntries(members), state.nodes, state.encodedBytes;
    LowerMembersAt(Object(members), keys);
    var output: bytes := [];
    for i := 0 to |keys|
      invariant EntriesSoFar(entries, i, depth, nodes, used, output, state.nodes, state.encodedBytes)
    {
      assert entries[i] == Entry(keys[i], Lower(members[keys[i]]));
      NextEntry(entries, i, depth, nodes, used, output, state.nodes, state.encodedBytes);
      var encodedKey := EncodeValue(Text(keys[i]), depth, state);
      if encodedKey.Failure? {
        return encodedKey;
      }
      var encodedValue := EncodeValue(members[keys[i]], depth, state);
      if encodedValue.Failure? {
        return encodedValue;
      }
      output := output + (encodedKey.value + encodedValue.value);
    }
    assert output + [] == output;
    r := Success(output);
  }

  ghost predicate EntriesSoFar(entries: seq<Entry>, i: nat, depth: int, nodes: nat, used: nat, body: bytes, nodesNow: nat, usedNow: nat) {
    && i <= |entries|
    && EncodeEntries(entries, depth, nodes, used) == Append(body, EncodeEntries(entries[i..], depth, nodesNow, usedNow))
  }

  lemma NextEntry(entries: seq<Entry>, i: nat, depth: int, nodes: nat, used: nat, body: bytes, nodesNow: nat, usedNow: nat)
    requires i < |entries| && EntriesSoFar(entries, i, depth, nodes, used, body, nodesNow, usedNow)
    ensures var key := EncodeItem(Str(entries[i].key), depth, nodesNow, usedNow);
            if key.Failed? then EncodeEntries(entries, depth, nodes, used) == key
            else
              var val := EncodeItem(entries[i].val, depth, key.nodes, key.used);
              if val.Failed? then EncodeEntries(entries, depth, nodes, used) == val
              else EntriesSoFar(entries, i + 1, depth, nodes, used, body + (key.out + val.out), val.nodes, val.used)
  {
    assert entries[i..][0] == entries[i] && entries[i..][1..] == entries[i + 1..];
    var key := EncodeKey(entries[i].key, depth, nodesNow, usedNow);
    assert key == EncodeItem(Str(entries[i].key), depth, nodesNow, usedNow);
    if key.Done? {
      var val := EncodeItem(entries[i].val, depth, key.nodes, key.used);
      if val.Done? {
        AppendAppend(body, key.out + val.out, EncodeEntries(entries[i + 1..], depth, val.nodes, val.used));
      }
    }
  }

  /** The first loop over a Go map: keys in whatever order the runtime enumerates them. */
  method CollectKeys(members: map<bytes, Value>) returns (r: Result<seq<bytes>>)
    ensures r.Success? <==> BadKey(MemberEntries(members)).None?
    ensures r.Success? ==> Elements(r.value, members.Keys)
    ensures r.Failure? ==> SameFailure(r.error, BadKey(MemberEntries(members)).error)
  {
    ghost var entries := MemberEntries(members);
    ghost var listed := SortedKeys(members.Keys);
    LowerMembersAt(Object(members), listed);
    var keys: seq<bytes> := [];
    var remaining := members.Keys;
    while remaining != {}
      invariant remaining <= members.Keys
      invariant forall k :: k in members <==> k in remaining || k in keys
      invariant forall k :: k in keys ==> KeyOk(k)
    {
      var key :| key in remaining;
      if KeyError(key).Some? {
        assert key in listed;
        BadKeyReported(entries, key);
        return Failure(KeyError(key).error);
      }
      keys := keys + [key];
      remaining := remaining - {key};
    }
    assert forall i :: 0 <= i < |entries| ==> entries[i].key in listed;
    BadKeyExact(entries);
    r := Success(keys);
  }

  lemma {:induction false} BadKeyReported(entries: seq<Entry>, key: bytes)
    requires exists i :: 0 <= i < |entries| && entries[i].key == key
    requires KeyError(key).Some?
    ensures BadKey(entries).Some? && SameFailure(KeyError(key).error, BadKey(entries).error)
  {
    var i :| 0 <= i < |entries| && entries[i].key == key;
    if i > 0 {
      assert entries[1..][i - 1].key == key;
      if KeyError(entries[0].key).None? {
        BadKeyReported(entries[1..], key);
      }
    }
  }

  /** sort.Slice on the collected keys, which are distinct. */
  method SortStrings(keys: seq<bytes>, ghost members: set<bytes>) returns (sorted: seq<bytes>)
    requires Elements(keys, members)
    ensures sorted == SortedKeys(members)
  {
    sorted := [];
    for i := 0 to |keys|
      invariant Sorted(sorted)
      invariant forall k :: k in sorted <==> k in keys[..i]
    {
      sorted := Insert(sorted, keys[i]);
      assert keys[..i + 1] == keys[..i] + [keys[i]];
    }
    assert keys[..|keys|] == keys;
    SortedUnique(sorted, SortedKeys(members));
  }

  method Insert(sorted: seq<bytes>, key: bytes) returns (r: seq<bytes>)
    requires Sorted(sorted)
    ensures Sorted(r)
    ensures forall k :: k in r <==> k == key || k in sorted
  {
    var i := 0;
    while i < |sorted| && Less(sorted[i], key)
      invariant 0 <= i <= |sorted|
      invariant forall j :: 0 <= j < i ==> Less(sorted[j], key)
    {
      i := i + 1;
    }
    if i < |sorted| && sorted[i] == key {
      return sorted;
    }
    r := sorted[..i] + [key] + sorted[i..];
    forall a, b | 0 <= a < b < |r| ensures Less(r[a], r[b]) {
      if i < |sorted| {
        LessTotal(sorted[i], key);
        if a == i {
          if b > i + 1 {
            assert r[b] == sorted[b - 1] && Less(sorted[i], sorted[b - 1]);
            LessTransitive(key, sorted[i], sorted[b - 1]);
          }
        }
      }
    }
  }

  // ---------------------------------------------------------------- lowered values

  lemma {:induction false} LowerSorted(v: Value)
    ensures SortedItem(Lower(v))
    decreases v
  {
    match v
    case Array(items) => LowerAllSorted(items);
    case Object(members) =>
      LowerMembersSorted(v, SortedKeys(members.Keys));
    case _ =>
  }

  lemma {:induction false} LowerAllSorted(items: seq<Value>)
    ensures SortedAll(LowerAll(items))
    decreases items
  {
    if items != [] {
      LowerSorted(items[0]);
      LowerAllSorted(items[1..]);
      assert LowerAll(items)[1..] == LowerAll(items[1..]);
    }
  }

  lemma {:induction false} LowerMembersSorted(v: Value, keys: seq<bytes>)
    requires v.Object? && (forall k :: k in keys ==> k in v.members) && Sorted(keys)
    ensures SortedEntries(LowerMembers(v, keys)) && Ascending(LowerMembers(v, keys))
    decreases v, |keys|
  {
    if keys != [] {
      LowerSorted(v.members[keys[0]]);
      LowerMembersSorted(v, keys[1..]);
      var entries := LowerMembers(v, keys);
      assert entries[1..] == LowerMembers(v, keys[1..]);
      if |keys| > 1 {
        assert Less(keys[0], keys[1]);
      }
    }
  }
}
