/** What measureStructuredValue accepts, said of the whole payload as a tree: no stack, no tally. */
module StructuredExact {
  import opened Wire
  import opened Options
  import opened UiContract
  import opened Structured

  /** A payload spread out; arrays and records remember the object they were. */
  datatype Payload =
    | Nil | Bit | Digits | Letters(s: string) | Octets(size: nat)
    | Arr(at: Ref, values: seq<Payload>) | Rec(at: Ref, keys: seq<string>, values: seq<Payload>)

  ghost predicate Pictures(heap: Heap, binary: bool, v: Js, p: Payload)
    decreases p
  {
    match p
    case Nil => v == Js.Null
    case Bit => v.Flag?
    case Digits => v.Number? && v.n.Finite?
    case Letters(s) => v == Text(s) && '\0' !in s
    case Octets(size) => v.Object? && heap(v.ref) == Binary(size) && binary
    case Arr(at, values) =>
      && v == Object(at) && heap(at).List? && heap(at).dense && |heap(at).items| <= 4_096
      && ItemsPicture(heap, binary, heap(at).items, values)
    case Rec(at, keys, values) =>
      && v == Object(at) && heap(at).Plain?
      && (forall k :: k in heap(at).fields ==> k != "__proto__" && k != "prototype" && k != "constructor")
      && FieldsPicture(heap, binary, heap(at).fields, keys, values)
  }

  ghost predicate ItemsPicture(heap: Heap, binary: bool, items: seq<Js>, values: seq<Payload>)
    decreases values
  {
    && |items| == |values|
    && (values != [] ==> Pictures(heap, binary, items[0], values[0]) && ItemsPicture(heap, binary, items[1..], values[1..]))
  }

  /** Each field once, in some order. */
  ghost predicate FieldsPicture(heap: Heap, binary: bool, fields: map<string, Js>, keys: seq<string>, values: seq<Payload>)
    decreases values
  {
    && |keys| == |values|
    && if values == [] then fields == map[]
       else
         && keys[0] in fields && Pictures(heap, binary, fields[keys[0]], values[0])
         && FieldsPicture(heap, binary, fields - {keys[0]}, keys[1..], values[1..])
  }

  function Size(p: Payload): nat
    decreases p
  {
    match p
    case Nil => 4
    case Bit => 1
    case Digits => 8
    case Letters(s) => |Utf8(s)| + 4
    case Octets(size) => size + 4
    case Arr(_, values) => 4 + SizeAll(values)
    case Rec(_, keys, values) => 4 + KeyBytes(keys) + SizeAll(values)
  }

  function SizeAll(values: seq<Payload>): nat
    decreases values
  {
    if values == [] then 0 else Size(values[0]) + SizeAll(values[1..])
  }

  function KeyBytes(keys: seq<string>): nat {
    if keys == [] then 0 else |Utf8(keys[0])| + 4 + KeyBytes(keys[1..])
  }

  function Values(p: Payload): nat
    decreases p
  {
    1 + if p.Arr? || p.Rec? then ValuesAll(p.values) else 0
  }

  function ValuesAll(values: seq<Payload>): nat
    decreases values
  {
    if values == [] then 0 else Values(values[0]) + ValuesAll(values[1..])
  }

  function Deep(p: Payload): nat
    decreases p
  {
    1 + if p.Arr? || p.Rec? then DeepAll(p.values) else 0
  }

  function DeepAll(values: seq<Payload>): nat
    decreases values
  {
    if values == [] then 0
    else
      var first, others := Deep(values[0]), DeepAll(values[1..]);
      if first > others then first else others
  }

  /** The arrays and records of a payload. */
  function Refs(p: Payload): multiset<Ref>
    decreases p
  {
    if p.Arr? || p.Rec? then multiset{p.at} + RefsAll(p.values) else multiset{}
  }

  function RefsAll(values: seq<Payload>): multiset<Ref>
    decreases values
  {
    if values == [] then multiset{} else Refs(values[0]) + RefsAll(values[1..])
  }

  function Whole(p: Payload): Option<Tally> { Some(Tally(Values(p), Size(p), Refs(p))) }

  function WholeAll(values: seq<Payload>): Option<Tally> { Some(Tally(ValuesAll(values), SizeAll(values), RefsAll(values))) }

  // ---------------------------------------------------------------- a picture gives the total

  function Container(at: Ref): Option<Tally> { Some(Tally(1, 4, multiset{at})) }

  lemma ArrayWhole(p: Payload)
    requires p.Arr?
    ensures Plus(Container(p.at), WholeAll(p.values)) == Whole(p)
  {
    hide RefsAll, SizeAll, ValuesAll;
  }

  lemma RecordWhole(p: Payload)
    requires p.Rec?
    ensures Plus(Container(p.at), Plus(Charged(KeyBytes(p.keys)), WholeAll(p.values))) == Whole(p)
  {
    hide RefsAll, SizeAll, ValuesAll, KeyBytes;
    var r := RefsAll(p.values);
    assert multiset{} + r == r;
  }

  lemma ScalarWhole(heap: Heap, limits: Limits, v: Js, p: Payload, depth: nat)
    requires Pictures(heap, limits.binary, v, p) && !p.Arr? && !p.Rec? && depth <= limits.depth + 1
    ensures Plus(Own(heap, limits, v), Members(heap, limits, v, depth)) == Whole(p)
  {
    hide Utf8, Items, Fields, Plus;
    PlusLaws(Own(heap, limits, v), None, None);
  }

  lemma ContainerOwn(heap: Heap, limits: Limits, v: Js, p: Payload, depth: nat)
    requires Pictures(heap, limits.binary, v, p) && (p.Arr? || p.Rec?) && depth <= limits.depth + 1
    ensures Own(heap, limits, v) == Container(p.at)
    ensures p.Arr? ==> Members(heap, limits, v, depth) == Items(heap, limits, heap(p.at).items, depth)
    ensures p.Rec? ==> Members(heap, limits, v, depth) == Fields(heap, limits, heap(p.at).fields, depth)
  {
    hide Items, Fields, ItemsPicture, FieldsPicture;
  }

  lemma {:induction false} PictureTotal(heap: Heap, limits: Limits, v: Js, p: Payload, depth: nat)
    requires Pictures(heap, limits.binary, v, p) && depth + Deep(p) <= limits.depth + 1
    ensures Total(heap, limits, v, depth) == Whole(p)
    decreases p
  {
    hide Total, Items, Fields, DeepAll, ItemsPicture, FieldsPicture, Members, Own, Whole, WholeAll, Plus, Container, Charged;
    TotalIs(heap, limits, v, depth);
    if p.Arr? {
      ContainerOwn(heap, limits, v, p, depth + 1);
      ItemsTotal(heap, limits, heap(p.at).items, p.values, depth + 1);
      ArrayWhole(p);
    } else if p.Rec? {
      ContainerOwn(heap, limits, v, p, depth + 1);
      FieldsTotal(heap, limits, heap(p.at).fields, p.keys, p.values, depth + 1);
      RecordWhole(p);
    } else {
      ScalarWhole(heap, limits, v, p, depth + 1);
    }
  }

  lemma {:induction false} ItemsTotal(heap: Heap, limits: Limits, items: seq<Js>, values: seq<Payload>, depth: nat)
    requires ItemsPicture(heap, limits.binary, items, values) && depth <= limits.depth + 1 && depth + DeepAll(values) <= limits.depth + 1
    ensures Items(heap, limits, items, depth) == WholeAll(values)
    decreases values
  {
    hide Total, Pictures, Size, Values, Deep, Refs;
    if values != [] {
      PictureTotal(heap, limits, items[0], values[0], depth);
      ItemsTotal(heap, limits, items[1..], values[1..], depth);
    }
  }

  lemma OneMoreField(keys: seq<string>, values: seq<Payload>)
    requires |keys| == |values| > 0
    ensures Plus(Plus(KeyTally(keys[0]), Whole(values[0])), Plus(Charged(KeyBytes(keys[1..])), WholeAll(values[1..])))
         == Plus(Charged(KeyBytes(keys)), WholeAll(values))
  {
    hide Size, Values, Refs, Utf8;
    var a, b := Refs(values[0]), RefsAll(values[1..]);
    assert (multiset{} + a) + (multiset{} + b) == multiset{} + (a + b);
  }

  lemma {:induction false} FieldsTotal(
    heap: Heap, limits: Limits, fields: map<string, Js>, keys: seq<string>, values: seq<Payload>, depth: nat)
    requires FieldsPicture(heap, limits.binary, fields, keys, values)
    requires depth <= limits.depth + 1 && depth + DeepAll(values) <= limits.depth + 1
    ensures Fields(heap, limits, fields, depth) == Plus(Charged(KeyBytes(keys)), WholeAll(values))
    decreases values
  {
    hide Total, Pictures, Deep, Fields, Rest, Plus, KeyTally, Whole;
    if values == [] {
      NoItems(heap, limits, depth);
      PlusLaws(Some(NOTHING), None, None);
      assert keys == [] && WholeAll(values) == Some(NOTHING) == Charged(KeyBytes(keys));
    } else {
      hide WholeAll, Charged, KeyBytes;
      AnyField(heap, limits, fields, depth, keys[0]);
      RestIs(fields, keys[0]);
      PictureTotal(heap, limits, fields[keys[0]], values[0], depth);
      FieldsTotal(heap, limits, fields - {keys[0]}, keys[1..], values[1..], depth);
      OneMoreField(keys, values);
    }
  }

  lemma RestIs(fields: map<string, Js>, key: string)
    ensures Rest(fields, key) == fields - {key}
  {
  }

  // ---------------------------------------------------------------- a total comes from a picture

  lemma ScalarShown(heap: Heap, limits: Limits, v: Js) returns (p: Payload)
    requires Own(heap, limits, v).Some? && !Holds(heap, v)
    ensures Pictures(heap, limits.binary, v, p) && Deep(p) == 1
  {
    hide Utf8;
    match v {
      case Null => p := Nil;
      case Flag(_) => p := Bit;
      case Number(_) => p := Digits;
      case Text(s) => p := Letters(s);
      case Object(ref) => p := Octets(heap(ref).size);
    }
  }

  lemma {:induction false} TotalPicture(heap: Heap, limits: Limits, v: Js, depth: nat) returns (p: Payload)
    requires depth <= limits.depth + 1 && Total(heap, limits, v, depth).Some?
    ensures Pictures(heap, limits.binary, v, p) && depth + Deep(p) <= limits.depth + 1
    decreases limits.depth + 1 - depth, 0, 0
  {
    TotalIs(heap, limits, v, depth);
    hide Total, Items, Fields, DeepAll, Utf8, ItemsPicture, FieldsPicture;
    if !Holds(heap, v) {
      p := ScalarShown(heap, limits, v);
    } else if heap(v.ref).List? {
      var values := ItemsShown(heap, limits, heap(v.ref).items, depth + 1);
      p := Arr(v.ref, values);
    } else {
      assert heap(v.ref).fields.Keys !! FORBIDDEN_KEYS;
      var keys, values := FieldsShown(heap, limits, heap(v.ref).fields, depth + 1);
      p := Rec(v.ref, keys, values);
    }
  }

  lemma {:induction false} ItemsShown(heap: Heap, limits: Limits, items: seq<Js>, depth: nat) returns (values: seq<Payload>)
    requires depth <= limits.depth + 1 && Items(heap, limits, items, depth).Some?
    ensures ItemsPicture(heap, limits.binary, items, values) && depth + DeepAll(values) <= limits.depth + 1
    decreases limits.depth + 1 - depth, 1, |items|
  {
    hide Total, Pictures, Deep;
    values := [];
    if items != [] {
      var first := TotalPicture(heap, limits, items[0], depth);
      var others := ItemsShown(heap, limits, items[1..], depth);
      values := [first] + others;
      assert values[1..] == others;
    }
  }

  lemma {:induction false} FieldsShown(heap: Heap, limits: Limits, fields: map<string, Js>, depth: nat)
    returns (keys: seq<string>, values: seq<Payload>)
    requires depth <= limits.depth + 1 && Fields(heap, limits, fields, depth).Some?
    ensures FieldsPicture(heap, limits.binary, fields, keys, values) && depth + DeepAll(values) <= limits.depth + 1
    decreases limits.depth + 1 - depth, 1, |fields|
  {
    hide Total, Pictures, Deep, Fields, Rest;
    keys, values := [], [];
    if fields != map[] {
      var key := FirstField(heap, limits, fields, depth);
      RestIs(fields, key);
      RestSmaller(fields, key);
      var first := TotalPicture(heap, limits, fields[key], depth);
      var names, others := FieldsShown(heap, limits, Rest(fields, key), depth);
      keys, values := [key] + names, [first] + others;
      assert values[1..] == others && keys[1..] == names;
    }
  }

  lemma RestSmaller(fields: map<string, Js>, key: string)
    requires key in fields
    ensures |Rest(fields, key)| == |fields| - 1
  {
  }

  // ---------------------------------------------------------------- the measure

  /** A payload tree within the limits, in which no array or record occurs twice. */
  ghost predicate Modest(limits: Limits, p: Payload) {
    && Size(p) <= limits.bytes && Deep(p) <= limits.depth + 1 && Values(p) <= 16_384
    && forall ref :: Refs(p)[ref] <= 1
  }

  /** A payload measures `size` exactly when it spreads out into a modest tree of permitted values of that size. */
  lemma MeasureExactly(heap: Heap, limits: Limits, v: Js, size: nat)
    ensures Measured(heap, limits, v) == Some(size) <==>
      exists p :: Pictures(heap, limits.binary, v, p) && Modest(limits, p) && Size(p) == size
  {
    hide Total, Pictures, Size, Deep, Values, Refs;
    if Measured(heap, limits, v) == Some(size) {
      var p := TotalPicture(heap, limits, v, 0);
      PictureTotal(heap, limits, v, p, 0);
      assert Modest(limits, p);
    }
    if exists p :: Pictures(heap, limits.binary, v, p) && Modest(limits, p) && Size(p) == size {
      var p :| Pictures(heap, limits.binary, v, p) && Modest(limits, p) && Size(p) == size;
      PictureTotal(heap, limits, v, p, 0);
    }
  }
}
