/** The recogniser accepts exactly the encoder's image: the wire form is a bijection. */
module Canonicity {
  import opened Wire
  import opened Items
  import opened Encoder
  import opened Scanner

  function TextOf(t: Item): bytes {
    if t.Str? then t.text else []
  }

  // ---------------------------------------------------------------- every encoding is recognised

  lemma SimpleHead(input: bytes, offset: nat, marker: byte, kind: Kind)
    requires offset < |input| && input[offset] == marker
    requires (marker == 0xc0 && kind == KNull) || (marker in {0xc2, 0xc3} && kind == KBoolean)
    ensures HeadAt(input, offset) == Atom(offset + 1, kind)
  {
  }

  /** The head the scanner finds where a value's encoding starts. */
  function HeadFor(t: Item, offset: nat): Head {
    match t
    case Str(text) => StringAt(offset + |StringHead(|text|)|, |text|)
    case Bin(data) => BinaryAt(offset + |BinaryHead(|data|)|, |data|)
    case Arr(items) => ArrayAt(offset + |ArrayHead(|items|)|, |items|)
    case Obj(entries) => MapAt(offset + |MapHead(|entries|)|, |entries|)
    case _ => Atom(offset + |Encoding(t)|, KindOf(t))
  }

  lemma HeadOf(input: bytes, offset: nat, t: Item)
    requires Canonical(t) && At(input, offset, Encoding(t))
    ensures HeadAt(input, offset) == HeadFor(t, offset)
  {
    hide HeadAt, FloatOk, EncodeSignedInteger, ToBE, ValidUtf8, StringHead, BinaryHead, ArrayHead, MapHead;
    hide ScanItems, ScanEntries, EncodingAll, EncodingEntries, CountAll, CountEntries, HeightAll, HeightEntries;
    hide CanonicalAll, CanonicalEntries, Ascending;
    match t
    case Nil =>
      OneByte(input, offset, 0xc0);
      SimpleHead(input, offset, 0xc0, KNull);
    case Bool(b) =>
      OneByte(input, offset, if b then 0xc3 else 0xc2);
      SimpleHead(input, offset, if b then 0xc3 else 0xc2, KBoolean);
    case Int(n) => IntegerHead(input, offset, n);
    case Flt(bits) => FloatHead(input, offset, bits);
    case Str(text) =>
      AtSplit(input, offset, StringHead(|text|), text);
      FamilyHead(input, offset, StringFamily, |text|);
    case Bin(data) =>
      AtSplit(input, offset, BinaryHead(|data|), data);
      FamilyHead(input, offset, BinaryFamily, |data|);
    case Arr(items) =>
      AtSplit(input, offset, ArrayHead(|items|), EncodingAll(items));
      FamilyHead(input, offset, ArrayFamily, |items|);
    case Obj(entries) =>
      AtSplit(input, offset, MapHead(|entries|), EncodingEntries(entries));
      FamilyHead(input, offset, MapFamily, |entries|);
  }

  /**
   * Completeness, wherever the encoding stands in the input: the scan consumes exactly the
   * encoding's bytes, does not depend on anything around them, and counts exactly the value's nodes.
   */
  lemma {:induction false} ScanAccepts(input: bytes, offset: nat, t: Item, depth: int, nodes: nat)
    requires Encodable(t, depth, nodes) && At(input, offset, Encoding(t))
    ensures Scan(input, offset, depth, nodes) ==
            Accepted(offset + |Encoding(t)|, KindOf(t), TextOf(t), nodes + Count(t))
    decreases t, 0
  {
    hide HeadAt, FloatOk, EncodeSignedInteger, ToBE, ValidUtf8, StringHead, BinaryHead, ArrayHead, MapHead;
    hide ScanItems, ScanEntries, EncodingAll, EncodingEntries, CountAll, CountEntries, HeightAll, HeightEntries;
    hide CanonicalAll, CanonicalEntries, Ascending;
    HeadOf(input, offset, t);
    match t
    case Str(text) => AtSplit(input, offset, StringHead(|text|), text);
    case Bin(data) => AtSplit(input, offset, BinaryHead(|data|), data);
    case Arr(items) =>
      AtSplit(input, offset, ArrayHead(|items|), EncodingAll(items));
      ScanItemsAccepts(input, offset + |ArrayHead(|items|)|, items, depth, nodes + 1);
    case Obj(entries) =>
      AtSplit(input, offset, MapHead(|entries|), EncodingEntries(entries));
      ScanEntriesAccepts(input, offset + |MapHead(|entries|)|, entries, depth, nodes + 1, First);
    case _ =>
  }

  lemma {:induction false} ScanItemsAccepts(input: bytes, cursor: nat, items: seq<Item>, depth: int, nodes: nat)
    requires CanonicalAll(items) && depth + HeightAll(items) <= MAX_DEPTH && nodes + CountAll(items) <= MAX_VALUES
    requires At(input, cursor, EncodingAll(items))
    ensures ScanItems(input, cursor, |items|, depth + 1, nodes) ==
            Accepted(cursor + |EncodingAll(items)|, KArray, [], nodes + CountAll(items))
    decreases items, 1
  {
    hide Scan, Encoding, Canonical, Height;
    if items != [] {
      AtSplit(input, cursor, Encoding(items[0]), EncodingAll(items[1..]));
      ScanAccepts(input, cursor, items[0], depth + 1, nodes);
      ScanItemsAccepts(input, cursor + |Encoding(items[0])|, items[1..], depth, nodes + Count(items[0]));
    }
  }

  /** A key may follow `previous`. */
  predicate Follows(previous: Previous, key: bytes) {
    previous.After? ==> Less(previous.key, key)
  }

  lemma {:induction false} ScanEntriesAccepts(input: bytes, cursor: nat, entries: seq<Entry>, depth: int, nodes: nat, previous: Previous)
    requires CanonicalEntries(entries) && Ascending(entries)
    requires entries != [] ==> Follows(previous, entries[0].key)
    requires depth + HeightEntries(entries) <= MAX_DEPTH && nodes + CountEntries(entries) <= MAX_VALUES
    requires At(input, cursor, EncodingEntries(entries))
    ensures ScanEntries(input, cursor, |entries|, depth + 1, nodes, previous) ==
            Accepted(cursor + |EncodingEntries(entries)|, KMap, [], nodes + CountEntries(entries))
    decreases entries, 1
  {
    hide Scan, ValidUtf8, Encoding;
    if entries != [] {
      var key, val := entries[0].key, entries[0].val;
      var rest := EncodingEntries(entries[1..]);
      AtSplit(input, cursor, EncodeText(key) + Encoding(val), rest);
      AtSplit(input, cursor, EncodeText(key), Encoding(val));
      KeyAccepted(input, cursor, key, depth + 1, nodes);
      var afterKey := cursor + |EncodeText(key)|;
      ScanAccepts(input, afterKey, val, depth + 1, nodes + 1);
      ScanEntriesAccepts(input, afterKey + |Encoding(val)|, entries[1..], depth, nodes + 1 + Count(val), After(key));
    }
  }

  lemma KeyAccepted(input: bytes, cursor: nat, key: bytes, depth: int, nodes: nat)
    requires KeyOk(key) && depth <= MAX_DEPTH && nodes + 1 <= MAX_VALUES && At(input, cursor, EncodeText(key))
    ensures Scan(input, cursor, depth, nodes) == Accepted(cursor + |EncodeText(key)|, KString, key, nodes + 1)
  {
    hide HeadAt, ValidUtf8;
    AtSplit(input, cursor, StringHead(|key|), key);
    FamilyHead(input, cursor, StringFamily, |key|);
  }

  // ---------------------------------------------------------------- everything recognised is an encoding

  /** `t` is the value recognised at `offset`, ending where the scan ended. */
  ghost predicate Recognised(input: bytes, offset: nat, t: Item, r: Scanned, depth: int, nodes: nat) {
    && Encodable(t, depth, nodes)
    && At(input, offset, Encoding(t))
    && r == Accepted(offset + |Encoding(t)|, KindOf(t), TextOf(t), nodes + Count(t))
  }

  /** Soundness: whatever the scan accepts is the encoding of some value within the limits. */
  lemma {:induction false} ScanRecognises(input: bytes, offset: nat, depth: int, nodes: nat) returns (t: Item)
    requires Scan(input, offset, depth, nodes).Accepted?
    ensures Recognised(input, offset, t, Scan(input, offset, depth, nodes), depth, nodes)
    decreases MAX_DEPTH + 1 - depth, 1, 0
  {
    hide HeadAt, FloatOk, EncodeSignedInteger, ToBE, ValidUtf8, StringHead, BinaryHead, ArrayHead, MapHead;
    hide ScanItems, ScanEntries, EncodingAll, EncodingEntries, CountAll, CountEntries, HeightAll, HeightEntries;
    hide CanonicalAll, CanonicalEntries, Ascending, ScanText, ScanData, At;
    match HeadAt(input, offset)
    case Atom(end, kind) => t := AtomRecognised(input, offset, end, kind);
    case StringAt(start, length) =>
      StringRecognised(input, offset, start, length, nodes + 1);
      t := Str(input[start..start + length]);
    case BinaryAt(start, length) =>
      BinaryRecognised(input, offset, start, length, nodes + 1);
      t := Bin(input[start..start + length]);
    case ArrayAt(start, length) =>
      FamilyFromHead(input, offset, ArrayFamily, start, length);
      var items := ScanItemsRecognise(input, start, length, depth, nodes + 1);
      t := Arr(items);
      AtSplit(input, offset, ArrayHead(length), EncodingAll(items));
    case MapAt(start, length) =>
      FamilyFromHead(input, offset, MapFamily, start, length);
      var entries := ScanEntriesRecognise(input, start, length, depth, nodes + 1, First);
      t := Obj(entries);
      AtSplit(input, offset, MapHead(length), EncodingEntries(entries));
  }

  lemma StringRecognised(input: bytes, offset: nat, start: nat, length: nat, nodes: nat)
    requires HeadAt(input, offset) == StringAt(start, length) && ScanText(input, start, length, nodes).Accepted?
    ensures start + length <= |input|
    ensures var t := Str(input[start..start + length]);
      && Canonical(t) && At(input, offset, Encoding(t))
      && ScanText(input, start, length, nodes) == Accepted(offset + |Encoding(t)|, KString, t.text, nodes)
  {
    hide HeadAt, StringHead, ValidUtf8;
    FamilyFromHead(input, offset, StringFamily, start, length);
    AtSplit(input, offset, StringHead(length), input[start..start + length]);
  }

  lemma BinaryRecognised(input: bytes, offset: nat, start: nat, length: nat, nodes: nat)
    requires HeadAt(input, offset) == BinaryAt(start, length) && ScanData(input, start, length, nodes).Accepted?
    ensures start + length <= |input|
    ensures var t := Bin(input[start..start + length]);
      && Canonical(t) && At(input, offset, Encoding(t))
      && ScanData(input, start, length, nodes) == Accepted(offset + |Encoding(t)|, KBinary, [], nodes)
  {
    hide HeadAt, BinaryHead;
    FamilyFromHead(input, offset, BinaryFamily, start, length);
    AtSplit(input, offset, BinaryHead(length), input[start..start + length]);
  }

  lemma AtomRecognised(input: bytes, offset: nat, end: nat, kind: Kind) returns (t: Item)
    requires HeadAt(input, offset) == Atom(end, kind)
    ensures Canonical(t) && Height(t) == 0 && Count(t) == 1
    ensures At(input, offset, Encoding(t)) && end == offset + |Encoding(t)| && KindOf(t) == kind && TextOf(t) == []
  {
    if kind == KInteger {
      var n := IntegerFromHead(input, offset);
      t := Int(n);
    } else if kind == KFloat {
      var bits := FloatFromHead(input, offset);
      t := Flt(bits);
    } else {
      OneByte(input, offset, input[offset]);
      t := if kind == KNull then Nil else Bool(input[offset] == 0xc3);
      assert input[offset] in {0xc0, 0xc2, 0xc3};
    }
  }

  lemma {:induction false} ScanItemsRecognise(input: bytes, cursor: nat, count: nat, depth: int, nodes: nat) returns (items: seq<Item>)
    requires depth <= MAX_DEPTH && nodes <= MAX_VALUES
    requires cursor <= |input|
    requires ScanItems(input, cursor, count, depth + 1, nodes).Accepted?
    ensures |items| == count && CanonicalAll(items)
    ensures depth + HeightAll(items) <= MAX_DEPTH && nodes + CountAll(items) <= MAX_VALUES
    ensures At(input, cursor, EncodingAll(items))
    ensures ScanItems(input, cursor, count, depth + 1, nodes) ==
            Accepted(cursor + |EncodingAll(items)|, KArray, [], nodes + CountAll(items))
    decreases MAX_DEPTH - depth, 2, count
  {
    hide Scan, HeadAt;
    if count == 0 {
      items := [];
    } else {
      var first := ScanRecognises(input, cursor, depth + 1, nodes);
      var rest := ScanItemsRecognise(input, cursor + |Encoding(first)|, count - 1, depth, nodes + Count(first));
      items := [first] + rest;
      assert items[1..] == rest;
      AtSplit(input, cursor, Encoding(first), EncodingAll(rest));
    }
  }

  lemma {:induction false} ScanEntriesRecognise(input: bytes, cursor: nat, count: nat, depth: int, nodes: nat, previous: Previous)
    returns (entries: seq<Entry>)
    requires depth <= MAX_DEPTH && nodes <= MAX_VALUES
    requires cursor <= |input|
    requires ScanEntries(input, cursor, count, depth + 1, nodes, previous).Accepted?
    ensures |entries| == count && CanonicalEntries(entries) && Ascending(entries)
    ensures entries != [] ==> Follows(previous, entries[0].key)
    ensures depth + HeightEntries(entries) <= MAX_DEPTH && nodes + CountEntries(entries) <= MAX_VALUES
    ensures At(input, cursor, EncodingEntries(entries))
    ensures ScanEntries(input, cursor, count, depth + 1, nodes, previous) ==
            Accepted(cursor + |EncodingEntries(entries)|, KMap, [], nodes + CountEntries(entries))
    decreases MAX_DEPTH - depth, 2, count
  {
    hide Scan, HeadAt, ValidUtf8, Encoding;
    if count == 0 {
      entries := [];
    } else {
      var key := KeyRecognised(input, cursor, depth + 1, nodes, previous);
      var afterKey := cursor + |EncodeText(key)|;
      var val := ScanRecognises(input, afterKey, depth + 1, nodes + 1);
      var rest := ScanEntriesRecognise(input, afterKey + |Encoding(val)|, count - 1, depth, nodes + 1 + Count(val), After(key));
      entries := [Entry(key, val)] + rest;
      assert entries[1..] == rest;
      EntryAt(input, cursor, key, val, rest);
    }
  }

  lemma EntryAt(input: bytes, cursor: nat, key: bytes, val: Item, rest: seq<Entry>)
    requires At(input, cursor, EncodeText(key)) && At(input, cursor + |EncodeText(key)|, Encoding(val))
    requires At(input, cursor + |EncodeText(key)| + |Encoding(val)|, EncodingEntries(rest))
    ensures At(input, cursor, EncodingEntries([Entry(key, val)] + rest))
    ensures |EncodingEntries([Entry(key, val)] + rest)| == |EncodeText(key)| + |Encoding(val)| + |EncodingEntries(rest)|
  {
    hide At, Encoding, EncodeText;
    var entries := [Entry(key, val)] + rest;
    assert entries[1..] == rest;
    AtSplit(input, cursor, EncodeText(key), Encoding(val));
    AtSplit(input, cursor, EncodeText(key) + Encoding(val), EncodingEntries(rest));
  }

  lemma KeyRecognised(input: bytes, cursor: nat, depth: int, nodes: nat, previous: Previous) returns (key: bytes)
    requires Scan(input, cursor, depth, nodes).Accepted?
    requires KeyVerdictAt(Scan(input, cursor, depth, nodes), previous).None?
    ensures KeyOk(key) && Follows(previous, key) && At(input, cursor, EncodeText(key))
    ensures Scan(input, cursor, depth, nodes) == Accepted(cursor + |EncodeText(key)|, KString, key, nodes + 1)
    ensures depth <= MAX_DEPTH && nodes + 1 <= MAX_VALUES
    decreases MAX_DEPTH + 1 - depth, 1, 1
  {
    hide HeadAt, ValidUtf8;
    var t := ScanRecognises(input, cursor, depth, nodes);
    key := t.text;
  }

  // ---------------------------------------------------------------- the bijection

  /** A byte string the recogniser accepts to its very end, as one frame's payload. */
  predicate Accepts(wire: bytes) {
    |wire| <= MAX_FRAME_BYTES - 1 && Scan(wire, 0, 1, 0).Accepted? && Scan(wire, 0, 1, 0).end == |wire|
  }

  /** What encodeValue returns for a payload, when it succeeds. */
  ghost predicate Produces(v: Value, wire: bytes) {
    EncodeItem(Lower(v), 1, 0, 0).Done? && EncodeItem(Lower(v), 1, 0, 0).out == wire
  }

  lemma WholeAt(wire: bytes)
    ensures At(wire, 0, wire)
  {
    assert wire[0..|wire|] == wire;
  }

  /** Bytes inside a longer input are scanned as they are on their own. */
  lemma ScanLocal(input: bytes, offset: nat, t: Item, depth: int, nodes: nat)
    requires Encodable(t, depth, nodes) && At(input, offset, Encoding(t))
    ensures var alone := Scan(Encoding(t), 0, depth, nodes);
            && alone.Accepted? && alone.end == |Encoding(t)|
            && Scan(input, offset, depth, nodes) == alone.(end := offset + alone.end)
  {
    WholeAt(Encoding(t));
    ScanAccepts(Encoding(t), 0, t, depth, nodes);
    ScanAccepts(input, offset, t, depth, nodes);
  }
}
