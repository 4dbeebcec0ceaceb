/** The payload codec as a whole: scan, decode and encode are mutually inverse. */
module Codec {
  import opened Wire
  import opened Items
  import opened Encoder
  import opened Scanner
  import opened Canonicity
  import opened Decoder
  import Binary64

  // ---------------------------------------------------------------- Go values and the data model

  /** The form a value has after a trip over the wire: safe numbers with integral value become int64. */
  function Normalise(v: Value): Value
    decreases v
  {
    match v
    case Unsigned(u) => if u <= Binary64.MAX_SAFE then Signed(u) else v
    case Float(bits) => if Binary64.SafeInteger(bits) then Signed(Binary64.IntegerOf(bits)) else v
    case Array(items) => Array(NormaliseAll(items))
    case Object(members) => Object(map k | k in members :: Normalise(members[k]))
    case _ => v
  }

  function NormaliseAll(items: seq<Value>): (r: seq<Value>)
    ensures |r| == |items|
    decreases items
  {
    if items == [] then [] else [Normalise(items[0])] + NormaliseAll(items[1..])
  }

  lemma {:induction false} NormaliseAllAt(items: seq<Value>)
    ensures forall i :: 0 <= i < |items| ==> NormaliseAll(items)[i] == Normalise(items[i])
  {
    if items != [] {
      NormaliseAllAt(items[1..]);
    }
  }

  lemma {:induction false} LowerRaise(t: Item)
    requires Canonical(t)
    ensures Lower(Raise(t)) == t
    decreases t, 0
  {
    hide RaiseAll, RaiseEntries, LowerAll, LowerMembers, CanonicalAll, CanonicalEntries, Ascending, SortedKeys;
    match t
    case Arr(items) => LowerRaiseAll(items);
    case Obj(entries) => LowerRaiseObject(entries);
    case _ =>
  }

  lemma {:induction false} LowerRaiseObject(entries: seq<Entry>)
    requires CanonicalEntries(entries) && Ascending(entries)
    ensures Lower(Object(RaiseEntries(entries))) == Obj(entries)
    decreases entries, 2
  {
    hide RaiseEntries, CanonicalEntries, Ascending, KeysOf, LowerMembers;
    var members, keys := RaiseEntries(entries), KeysOf(entries);
    AscendingKeys(entries);
    RaisedKeys(entries);
    assert keys == SortedKeys(members.Keys) by {
      SortedUnique(keys, SortedKeys(members.Keys));
    }
    LowerRaiseEntries(Object(members), entries);
  }

  lemma {:induction false} LowerRaiseAll(items: seq<Item>)
    requires CanonicalAll(items)
    ensures LowerAll(RaiseAll(items)) == items
    decreases items, 1
  {
    if items != [] {
      LowerRaise(items[0]);
      LowerRaiseAll(items[1..]);
      assert RaiseAll(items)[1..] == RaiseAll(items[1..]);
    }
  }

  function KeysOf(entries: seq<Entry>): (keys: seq<bytes>)
    ensures |keys| == |entries|
  {
    if entries == [] then [] else [entries[0].key] + KeysOf(entries[1..])
  }

  lemma {:induction false} AscendingKeys(entries: seq<Entry>)
    requires Ascending(entries)
    ensures Sorted(KeysOf(entries))
    ensures |entries| > 1 ==> forall k :: k in KeysOf(entries[1..]) ==> Less(entries[0].key, k)
  {
    if |entries| > 1 {
      AscendingKeys(entries[1..]);
      var keys := KeysOf(entries);
      assert keys[1..] == KeysOf(entries[1..]);
      forall k | k in keys[1..] ensures Less(entries[0].key, k) {
        if k != entries[1].key {
          TailElements(keys[1..], k);
          LessTransitive(entries[0].key, entries[1].key, k);
        }
      }
      forall i, j | 0 <= i < j < |keys| ensures Less(keys[i], keys[j]) {
        assert keys[j] == keys[1..][j - 1];
        if i > 0 {
          assert keys[i] == keys[1..][i - 1];
        }
      }
    }
  }

  lemma {:induction false} SortedAscends(entries: seq<Entry>)
    requires forall i, j :: 0 <= i < j < |entries| ==> Precedes(entries[i].key, entries[j].key)
    ensures Ascending(entries)
  {
    if |entries| > 1 {
      LessExactly(entries[0].key, entries[1].key);
      assert forall i, j :: 0 <= i < j < |entries[1..]| ==>
        entries[1..][i] == entries[i + 1] && entries[1..][j] == entries[j + 1];
      SortedAscends(entries[1..]);
    }
  }

  lemma {:induction false} KeysAt(entries: seq<Entry>, i: nat)
    requires i < |entries|
    ensures KeysOf(entries)[i] == entries[i].key
  {
    if i > 0 {
      KeysAt(entries[1..], i - 1);
    }
  }

  /**
   * A map is canonical exactly when its entries are, it is not too long, and any two of its keys in
   * wire order stand in lexicographic byte order, so none is repeated.
   */
  lemma CanonicalKeysInOrder(entries: seq<Entry>)
    ensures Canonical(Obj(entries)) <==>
      && |entries| <= MAX_MAP_ENTRIES && CanonicalEntries(entries)
      && forall i, j :: 0 <= i < j < |entries| ==> Precedes(entries[i].key, entries[j].key)
  {
    hide Precedes, CanonicalEntries, Less;
    if Ascending(entries) {
      AscendingKeys(entries);
      forall i, j | 0 <= i < j < |entries| ensures Precedes(entries[i].key, entries[j].key) {
        KeysAt(entries, i);
        KeysAt(entries, j);
        assert Less(KeysOf(entries)[i], KeysOf(entries)[j]);
        LessExactly(entries[i].key, entries[j].key);
      }
    }
    if forall i, j :: 0 <= i < j < |entries| ==> Precedes(entries[i].key, entries[j].key) {
      SortedAscends(entries);
    }
  }

  /** The encoder lists exactly the members of a Go map, each with its own value, in lexicographic byte order of keys. */
  lemma EncodedKeysInOrder(members: map<bytes, Value>)
    ensures var entries := MemberEntries(members);
      && Lower(Object(members)) == Obj(entries) && |entries| == |members|
      && (forall i :: 0 <= i < |entries| ==> entries[i].key in members && entries[i].val == Lower(members[entries[i].key]))
      && (forall i, j :: 0 <= i < j < |entries| ==> Precedes(entries[i].key, entries[j].key))
  {
    hide Precedes;
    var keys := SortedKeys(members.Keys);
    LowerMembersAt(Object(members), keys);
    var entries := MemberEntries(members);
    forall i, j | 0 <= i < j < |entries| ensures Precedes(entries[i].key, entries[j].key) {
      assert Less(keys[i], keys[j]);
      LessExactly(keys[i], keys[j]);
    }
  }

  /** What the scanner makes of a key after another: repeated, out of order, or the next one. */
  lemma KeyAfterKey(key: Scanned, previous: bytes)
    requires key.Accepted? && key.kind == KString && |key.text| <= MAX_MAP_KEY_BYTES && key.text != PROTO_KEY
    ensures KeyVerdictAt(key, After(previous)) ==
      if key.text == previous then Some(InvalidValue) else if Precedes(key.text, previous) then Some(NonCanonical) else None
    ensures KeyVerdictAt(key, After(previous)) == None <==> Precedes(previous, key.text)
  {
    hide Precedes;
    CompareEqual(previous, key.text);
    CompareSwap(key.text, previous);
    LessExactly(key.text, previous);
    LessExactly(previous, key.text);
    LessTotal(previous, key.text);
  }

  lemma {:induction false} RaisedKeys(entries: seq<Entry>)
    ensures forall k :: k in KeysOf(entries) <==> k in RaiseEntries(entries)
  {
    if entries != [] {
      RaisedKeys(entries[1..]);
    }
  }

  /** Each member of the raised map is the entry its key names, since keys do not repeat. */
  lemma {:induction false} LowerRaiseEntries(v: Value, entries: seq<Entry>)
    requires CanonicalEntries(entries) && Ascending(entries)
    requires v.Object? && forall k :: k in RaiseEntries(entries) ==> k in v.members && v.members[k] == RaiseEntries(entries)[k]
    requires forall k :: k in KeysOf(entries) ==> k in v.members
    ensures LowerMembers(v, KeysOf(entries)) == entries
    decreases entries, 1
  {
    hide Less, Lower, Raise, Canonical;
    if entries != [] {
      var key, val := entries[0].key, entries[0].val;
      LowerRaise(val);
      RaisedKeys(entries[1..]);
      AscendingKeys(entries);
      AscendingKeys(entries[1..]);
      LessTotal(key, key);
      assert key !in KeysOf(entries[1..]);
      LowerRaiseEntries(v, entries[1..]);
      assert KeysOf(entries)[1..] == KeysOf(entries[1..]);
    }
  }

  /** On an encodable value, lowering and raising is exactly the documented normalisation. */
  lemma {:induction false} RaiseLower(v: Value)
    requires Canonical(Lower(v))
    ensures Raise(Lower(v)) == Normalise(v)
    decreases v
  {
    hide SortedKeys, LowerMembers, LowerAll, RaiseAll, NormaliseAll, CanonicalAll, CanonicalEntries, Ascending;
    match v
    case Array(items) => RaiseLowerAll(items);
    case Object(members) =>
      var keys := SortedKeys(members.Keys);
      RaiseLowerMembers(v, keys);
      assert RaiseEntries(LowerMembers(v, keys)) == Normalise(v).members;
    case _ =>
  }

  lemma {:induction false} RaiseLowerAll(items: seq<Value>)
    requires CanonicalAll(LowerAll(items))
    ensures RaiseAll(LowerAll(items)) == NormaliseAll(items)
    decreases items
  {
    if items != [] {
      assert LowerAll(items)[1..] == LowerAll(items[1..]);
      RaiseLower(items[0]);
      RaiseLowerAll(items[1..]);
    }
  }

  lemma {:induction false} RaiseLowerMembers(v: Value, keys: seq<bytes>)
    requires v.Object? && (forall k :: k in keys ==> k in v.members) && Sorted(keys)
    requires CanonicalEntries(LowerMembers(v, keys))
    ensures var r := RaiseEntries(LowerMembers(v, keys));
            && (forall k :: k in r <==> k in keys)
            && (forall k :: k in keys ==> r[k] == Normalise(v.members[k]))
    decreases v, |keys|
  {
    if keys != [] {
      assert LowerMembers(v, keys)[1..] == LowerMembers(v, keys[1..]);
      RaiseLower(v.members[keys[0]]);
      RaiseLowerMembers(v, keys[1..]);
      forall k ensures k in keys[1..] <==> k in keys && k != keys[0] {
        TailElements(keys, k);
      }
    }
  }

  // ---------------------------------------------------------------- the bijection

  /** The payload's value as DecodeFrame sees it: library denotation, then integer normalisation. */
  function DecodePayload(wire: bytes): Denoted {
    match Denote(wire, 0)
    case Undecodable => Undecodable
    case Denotes(value, end) => Denotes(NormalizeDecoded(value), end)
  }

  lemma ProducedIsEncoding(v: Value, wire: bytes)
    ensures Produces(v, wire) <==>
            Encodable(Lower(v), 1, 0) && wire == Encoding(Lower(v)) && |wire| <= MAX_FRAME_BYTES - 1
  {
    LowerSorted(v);
    EncodeExact(Lower(v), 1, 0, 0);
  }

  /** What the encoder produces, the scanner accepts to the end, and it decodes to the normalised value. */
  lemma EncodedIsAccepted(v: Value, wire: bytes)
    requires Produces(v, wire)
    ensures Accepts(wire)
    ensures DecodePayload(wire) == Denotes(Normalise(v), |wire|)
    ensures Scan(wire, 0, 1, 0) == Accepted(|wire|, KindOf(Lower(v)), TextOf(Lower(v)), Count(Lower(v)))
  {
    ProducedIsEncoding(v, wire);
    WholeAt(wire);
    ScanAccepts(wire, 0, Lower(v), 1, 0);
    EncodingDenotes(wire, 0, Lower(v));
    RaiseLower(v);
  }

  /** What the scanner accepts to the end decodes completely, and re-encoding gives the same bytes. */
  lemma AcceptedIsEncoded(wire: bytes) returns (t: Item)
    requires Accepts(wire)
    ensures Encodable(t, 1, 0) && wire == Encoding(t)
    ensures KindOf(t) == Scan(wire, 0, 1, 0).kind
    ensures DecodePayload(wire) == Denotes(Raise(t), |wire|)
    ensures Lower(Raise(t)) == t && Produces(Raise(t), wire)
  {
    t := ScanRecognises(wire, 0, 1, 0);
    assert wire[0..|wire|] == wire;
    EncodingDenotes(wire, 0, t);
    LowerRaise(t);
    ProducedIsEncoding(Raise(t), wire);
  }

  /** The recogniser accepts a byte string exactly when it is the encoding of the value it denotes. */
  lemma AcceptedExactlyWhenCanonical(wire: bytes)
    ensures Accepts(wire) <==>
            && DecodePayload(wire).Denotes?
            && DecodePayload(wire).end == |wire|
            && Produces(DecodePayload(wire).value, wire)
  {
    if Accepts(wire) {
      var t := AcceptedIsEncoded(wire);
    }
    if DecodePayload(wire).Denotes? && Produces(DecodePayload(wire).value, wire) {
      EncodedIsAccepted(DecodePayload(wire).value, wire);
    }
  }

  /** Two values share an encoding only when they are the same value up to number representation. */
  lemma EncodingInjective(a: Value, b: Value, wire: bytes)
    requires Produces(a, wire) && Produces(b, wire)
    ensures Normalise(a) == Normalise(b)
  {
    EncodedIsAccepted(a, wire);
    EncodedIsAccepted(b, wire);
  }

  /** No accepted encoding is a proper prefix of another. */
  lemma PrefixFree(short: bytes, long: bytes)
    requires Accepts(short) && Accepts(long) && short <= long
    ensures short == long
  {
    var t := ScanRecognises(short, 0, 1, 0);
    assert At(long, 0, Encoding(t)) by {
      assert short[0..|short|] == short && long[0..|short|] == short;
    }
    ScanAccepts(long, 0, t, 1, 0);
  }

  /** Normalisation is idempotent on encodable values: a second trip over the wire changes nothing. */
  lemma NormaliseStable(v: Value)
    requires Canonical(Lower(v))
    ensures Normalise(Normalise(v)) == Normalise(v) && Lower(Normalise(v)) == Lower(v)
  {
    RaiseLower(v);
    LowerRaise(Lower(v));
    RaiseLower(Normalise(v));
  }

  /**
   * Byte accounting: among values within every other limit, the early byte check rejects exactly
   * those whose complete encoding would not fit a frame; a value that encodes is charged its length
   * and counted as the scanner will count it.
   */
  lemma StreamingByteAccounting(v: Value)
    requires Encodable(Lower(v), 1, 0)
    ensures var r := EncodeItem(Lower(v), 1, 0, 0);
            && (r.Failed? <==> |Encoding(Lower(v))| > MAX_FRAME_BYTES - 1)
            && (r.Failed? ==> r.error == FrameTooLarge)
            && (r.Done? ==> r.used == |r.out| && Scan(r.out, 0, 1, 0).nodes == r.nodes)
  {
    LowerSorted(v);
    EncodeExact(Lower(v), 1, 0, 0);
    WholeAt(Encoding(Lower(v)));
    ScanAccepts(Encoding(Lower(v)), 0, Lower(v), 1, 0);
  }
}
