/** measureStructuredValue: how much a message payload holds, and which payloads are refused. */
module Structured {
  import opened Wire
  import opened Options
  import opened UiContract

  const STRUCTURED_VALUES := 16_384
  const STRUCTURED_ARRAY_ITEMS := 4_096
  const FORBIDDEN_KEYS: set<string> := {"__proto__", "prototype", "constructor"}

  datatype Limits = Limits(bytes: nat, depth: nat, binary: bool)

  /** Values counted, bytes charged, and the records and arrays met, as often as they were met. */
  datatype Tally = Tally(values: nat, bytes: nat, refs: multiset<Ref>)

  const NOTHING := Tally(0, 0, multiset{})

  /** None is a part that no budget could admit. */
  function Plus(a: Option<Tally>, b: Option<Tally>): Option<Tally> {
    if a == None || b == None then None
    else Some(Tally(a.value.values + b.value.values, a.value.bytes + b.value.bytes, a.value.refs + b.value.refs))
  }

  // ---------------------------------------------------------------- what a payload amounts to

  /** A value without its members. */
  function Own(heap: Heap, limits: Limits, v: Js): Option<Tally> {
    match v
    case Absent => None
    case Null => Some(Tally(1, 4, multiset{}))
    case Flag(_) => Some(Tally(1, 1, multiset{}))
    case Number(n) => if n.Finite? then Some(Tally(1, 8, multiset{})) else None
    case Text(s) => if '\0' in s then None else Some(Tally(1, |Utf8(s)| + 4, multiset{}))
    case Object(ref) =>
      match heap(ref)
      case Binary(size) => if limits.binary then Some(Tally(1, size + 4, multiset{})) else None
      case List(dense, items) =>
        if dense && |items| <= STRUCTURED_ARRAY_ITEMS then Some(Tally(1, 4, multiset{ref})) else None
      case Plain(fields) => if fields.Keys !! FORBIDDEN_KEYS then Some(Tally(1, 4, multiset{ref})) else None
      case Exotic => None
  }

  function KeyTally(key: string): Option<Tally> { Some(Tally(0, |Utf8(key)| + 4, multiset{})) }

  /** Everything a value holds, counted once for every way of reaching it. */
  ghost function Total(heap: Heap, limits: Limits, v: Js, depth: nat): Option<Tally>
    requires depth <= limits.depth + 1
    decreases limits.depth + 1 - depth, 0, 0
  {
    if depth > limits.depth then None
    else if Own(heap, limits, v) == None then None
    else Plus(Own(heap, limits, v), Members(heap, limits, v, depth + 1))
  }

  ghost function Members(heap: Heap, limits: Limits, v: Js, depth: nat): Option<Tally>
    requires depth <= limits.depth + 1
    decreases limits.depth + 1 - depth, 2, 0
  {
    if !v.Object? then Some(NOTHING)
    else
      match heap(v.ref)
      case List(_, items) => Items(heap, limits, items, depth)
      case Plain(fields) => Fields(heap, limits, fields, depth)
      case _ => Some(NOTHING)
  }

  ghost function Items(heap: Heap, limits: Limits, items: seq<Js>, depth: nat): Option<Tally>
    requires depth <= limits.depth + 1
    decreases limits.depth + 1 - depth, 1, |items|
  {
    if items == [] then Some(NOTHING)
    else Plus(Total(heap, limits, items[0], depth), Items(heap, limits, items[1..], depth))
  }

  /** Fields one by one, in some order. */
  ghost function Fields(heap: Heap, limits: Limits, fields: map<string, Js>, depth: nat): Option<Tally>
    requires depth <= limits.depth + 1
    decreases limits.depth + 1 - depth, 1, |fields|
  {
    if fields == map[] then Some(NOTHING)
    else
      var key :| key in fields;
      Plus(Plus(KeyTally(key), Total(heap, limits, fields[key], depth)), Fields(heap, limits, Rest(fields, key), depth))
  }

  function Rest(fields: map<string, Js>, key: string): (rest: map<string, Js>)
    ensures key in fields ==> |rest| == |fields| - 1
  {
    assert key in fields ==> (fields - {key}).Keys == fields.Keys - {key} && |(fields - {key}).Keys| == |fields.Keys| - 1;
    fields - {key}
  }

  /** Within every budget, and no record or array reached twice. */
  ghost predicate Fits(limits: Limits, t: Option<Tally>) {
    && t.Some? && t.value.values <= STRUCTURED_VALUES && t.value.bytes <= limits.bytes
    && forall ref :: t.value.refs[ref] <= 1
  }

  ghost function Measured(heap: Heap, limits: Limits, v: Js): Option<nat> {
    if Fits(limits, Total(heap, limits, v, 0)) then Some(Total(heap, limits, v, 0).value.bytes) else None
  }

  // ---------------------------------------------------------------- sums in any order

  lemma PlusLaws(a: Option<Tally>, b: Option<Tally>, c: Option<Tally>)
    ensures Plus(a, b) == Plus(b, a) && Plus(Plus(a, b), c) == Plus(a, Plus(b, c)) && Plus(a, Some(NOTHING)) == a
    ensures Plus(a, Plus(b, c)) == Plus(b, Plus(a, c))
  {
    if a.Some? {
      RefLaws(a.value.refs, multiset{}, multiset{});
      if b.Some? {
        RefLaws(a.value.refs, b.value.refs, multiset{});
        if c.Some? {
          RefLaws(a.value.refs, b.value.refs, c.value.refs);
        }
      }
    }
  }

  lemma RefLaws(a: multiset<Ref>, b: multiset<Ref>, c: multiset<Ref>)
    ensures a + b == b + a && (a + b) + c == a + (b + c) && a + multiset{} == a && a + (b + c) == b + (a + c)
  {
    assert (a + b) + c == a + (b + c);
  }

  /** Which field comes first makes no difference. */
  lemma {:induction false} AnyField(heap: Heap, limits: Limits, fields: map<string, Js>, depth: nat, key: string)
    requires depth <= limits.depth + 1 && key in fields
    ensures Fields(heap, limits, fields, depth)
         == Plus(Plus(KeyTally(key), Total(heap, limits, fields[key], depth)), Fields(heap, limits, Rest(fields, key), depth))
    decreases |fields|
  {
    hide Total, Plus, Fields, Rest;
    var first := FirstField(heap, limits, fields, depth);
    if first != key {
      RestFields(fields, first, key);
      AnyField(heap, limits, Rest(fields, first), depth, key);
      AnyField(heap, limits, Rest(fields, key), depth, first);
      PlusLaws(
        Plus(KeyTally(first), Total(heap, limits, fields[first], depth)),
        Plus(KeyTally(key), Total(heap, limits, fields[key], depth)),
        Fields(heap, limits, Rest(Rest(fields, key), first), depth));
    }
  }

  lemma FirstField(heap: Heap, limits: Limits, fields: map<string, Js>, depth: nat) returns (key: string)
    requires depth <= limits.depth + 1 && fields != map[]
    ensures key in fields
    ensures Fields(heap, limits, fields, depth)
         == Plus(Plus(KeyTally(key), Total(heap, limits, fields[key], depth)), Fields(heap, limits, Rest(fields, key), depth))
  {
    hide Total, Plus, Rest;
    key :| key in fields && Fields(heap, limits, fields, depth)
      == Plus(Plus(KeyTally(key), Total(heap, limits, fields[key], depth)), Fields(heap, limits, Rest(fields, key), depth));
  }

  lemma RestFields(fields: map<string, Js>, a: string, b: string)
    requires a in fields && b in fields && a != b
    ensures a in Rest(fields, b) && Rest(fields, b)[a] == fields[a]
    ensures b in Rest(fields, a) && Rest(fields, a)[b] == fields[b]
    ensures Rest(Rest(fields, a), b) == Rest(Rest(fields, b), a)
    ensures |Rest(fields, a)| == |Rest(fields, b)| == |fields| - 1
  {
  }

  lemma {:induction false} LastItem(heap: Heap, limits: Limits, items: seq<Js>, depth: nat)
    requires depth <= limits.depth + 1 && items != []
    ensures var n := |items| - 1;
      Items(heap, limits, items, depth) == Plus(Total(heap, limits, items[n], depth), Items(heap, limits, items[..n], depth))
    decreases |items|
  {
    hide Total, Plus;
    var n := |items| - 1;
    if n > 0 {
      LastItem(heap, limits, items[1..], depth);
      assert items[1..][..n - 1] == items[..n][1..];
      PlusLaws(
        Total(heap, limits, items[0], depth), Total(heap, limits, items[n], depth), Items(heap, limits, items[..n][1..], depth));
    } else {
      PlusLaws(Total(heap, limits, items[0], depth), None, None);
    }
  }

  // ---------------------------------------------------------------- the stack

  datatype Entry = Entry(value: Js, depth: nat)

  ghost predicate Bound(limits: Limits, stack: seq<Entry>) { forall i :: 0 <= i < |stack| ==> stack[i].depth <= limits.depth + 1 }

  ghost function Stacked(heap: Heap, limits: Limits, stack: seq<Entry>): Option<Tally>
    requires Bound(limits, stack)
  {
    if stack == [] then Some(NOTHING)
    else
      var n := |stack| - 1;
      Plus(Total(heap, limits, stack[n].value, stack[n].depth), Stacked(heap, limits, stack[..n]))
  }

  /** A tally that already counts too much stays refused whatever is added to it. */
  lemma NeverFits(limits: Limits, a: Option<Tally>, b: Option<Tally>)
    requires !Fits(limits, a)
    ensures !Fits(limits, Plus(a, b))
  {
    if a.Some? && b.Some? && a.value.values <= STRUCTURED_VALUES && a.value.bytes <= limits.bytes {
      var ref :| a.value.refs[ref] > 1;
      assert (a.value.refs + b.value.refs)[ref] > 1;
    }
  }

  /** One popped value: what is left to count is its members and the rest of the stack. */
  lemma Regroup(limits: Limits, done: Option<Tally>, own: Option<Tally>, members: Option<Tally>, rest: Option<Tally>)
    ensures Plus(done, Plus(Plus(own, members), rest)) == Plus(Plus(done, own), Plus(members, rest))
    ensures !Fits(limits, Plus(done, own)) ==> !Fits(limits, Plus(done, Plus(Plus(own, members), rest)))
  {
    hide Plus, Fits;
    PlusLaws(own, members, rest);
    PlusLaws(done, own, Plus(members, rest));
    if !Fits(limits, Plus(done, own)) {
      NeverFits(limits, Plus(done, own), Plus(members, rest));
    }
  }

  lemma TotalIs(heap: Heap, limits: Limits, v: Js, depth: nat)
    requires depth <= limits.depth + 1
    ensures Total(heap, limits, v, depth)
         == if depth > limits.depth then None else Plus(Own(heap, limits, v), Members(heap, limits, v, depth + 1))
  {
  }

  lemma StackedPop(heap: Heap, limits: Limits, stack: seq<Entry>)
    requires Bound(limits, stack) && stack != []
    ensures var n := |stack| - 1;
      Stacked(heap, limits, stack) == Plus(Total(heap, limits, stack[n].value, stack[n].depth), Stacked(heap, limits, stack[..n]))
  {
  }

  lemma NoTotal(limits: Limits, a: Option<Tally>, b: Option<Tally>)
    ensures !Fits(limits, Plus(a, Plus(None, b)))
  {
  }

  ghost function Counted(values: nat, bytes: nat, seen: set<Ref>): Option<Tally> {
    Some(Tally(values, bytes, multiset(seen)))
  }

  lemma CountedFits(limits: Limits, values: nat, bytes: nat, seen: set<Ref>)
    ensures Fits(limits, Counted(values, bytes, seen)) <==> values <= STRUCTURED_VALUES && bytes <= limits.bytes
  {
  }

  predicate Holds(heap: Heap, v: Js) { v.Object? && (heap(v.ref).List? || heap(v.ref).Plain?) }

  /** Counting one value on its own. */
  lemma CountOwn(heap: Heap, limits: Limits, values: nat, bytes: nat, seen: set<Ref>, v: Js)
    ensures var own, after := Own(heap, limits, v), Plus(Counted(values, bytes, seen), Own(heap, limits, v));
      if own == None then !Fits(limits, after)
      else if Holds(heap, v) && v.ref in seen then !Fits(limits, after)
      else after == Counted(values + 1, bytes + own.value.bytes, if Holds(heap, v) then seen + {v.ref} else seen)
  {
    var own := Own(heap, limits, v);
    if own.Some? && Holds(heap, v) {
      assert multiset(seen)[v.ref] == if v.ref in seen then 1 else 0;
      assert (multiset(seen) + own.value.refs)[v.ref] == multiset(seen)[v.ref] + 1;
      if v.ref !in seen {
        assert multiset(seen) + multiset{v.ref} == multiset(seen + {v.ref});
      }
    } else if own.Some? {
      assert multiset(seen) + multiset{} == multiset(seen);
    }
  }

  /** The members of a container join the stack, and its keys are charged. */
  method PushMembers(heap: Heap, limits: Limits, stack: seq<Entry>, v: Js, depth: nat)
    returns (pushed: seq<Entry>, keyBytes: nat)
    requires Bound(limits, stack) && depth <= limits.depth + 1
    ensures Bound(limits, pushed)
    ensures Plus(Some(Tally(0, keyBytes, multiset{})), Stacked(heap, limits, pushed))
         == Plus(Members(heap, limits, v, depth), Stacked(heap, limits, stack))
  {
    hide Total, Plus;
    pushed, keyBytes := stack, 0;
    ghost var below := Stacked(heap, limits, stack);
    if v.Object? && heap(v.ref).List? {
      pushed := PushItems(heap, limits, stack, heap(v.ref).items, depth);
    } else if v.Object? && heap(v.ref).Plain? {
      pushed, keyBytes := PushFields(heap, limits, stack, heap(v.ref).fields, depth);
    }
    PlusLaws(Stacked(heap, limits, pushed), Some(NOTHING), None);
  }

  lemma StackedPush(heap: Heap, limits: Limits, stack: seq<Entry>, e: Entry)
    requires Bound(limits, stack) && e.depth <= limits.depth + 1
    ensures Stacked(heap, limits, stack + [e]) == Plus(Total(heap, limits, e.value, e.depth), Stacked(heap, limits, stack))
  {
    assert (stack + [e])[..|stack|] == stack;
  }

  /** Items last to first, so that the first is popped first. */
  method PushItems(heap: Heap, limits: Limits, stack: seq<Entry>, items: seq<Js>, depth: nat) returns (pushed: seq<Entry>)
    requires Bound(limits, stack) && depth <= limits.depth + 1
    ensures Bound(limits, pushed)
    ensures Stacked(heap, limits, pushed) == Plus(Items(heap, limits, items, depth), Stacked(heap, limits, stack))
  {
    hide Total, Plus, Items, Stacked;
    pushed := stack;
    var index := |items|;
    assert items[..index] == items;
    ghost var goal := Plus(Items(heap, limits, items, depth), Stacked(heap, limits, stack));
    while index > 0
      invariant 0 <= index <= |items| && Bound(limits, pushed)
      invariant Plus(Items(heap, limits, items[..index], depth), Stacked(heap, limits, pushed)) == goal
    {
      LastItem(heap, limits, items[..index], depth);
      assert items[..index][..index - 1] == items[..index - 1];
      index := index - 1;
      StackedPush(heap, limits, pushed, Entry(items[index], depth));
      PlusLaws(
        Items(heap, limits, items[..index], depth), Total(heap, limits, items[index], depth), Stacked(heap, limits, pushed));
      pushed := pushed + [Entry(items[index], depth)];
    }
    assert items[..0] == [];
    NoItems(heap, limits, depth);
    PlusLaws(Stacked(heap, limits, pushed), Some(NOTHING), None);
    PlusLaws(Some(NOTHING), Stacked(heap, limits, pushed), None);
  }

  lemma NoItems(heap: Heap, limits: Limits, depth: nat)
    requires depth <= limits.depth + 1
    ensures Items(heap, limits, [], depth) == Some(NOTHING) && Fields(heap, limits, map[], depth) == Some(NOTHING)
  {
  }

  method PushFields(heap: Heap, limits: Limits, stack: seq<Entry>, fields: map<string, Js>, depth: nat)
    returns (pushed: seq<Entry>, keyBytes: nat)
    requires Bound(limits, stack) && depth <= limits.depth + 1
    ensures Bound(limits, pushed)
    ensures Plus(Some(Tally(0, keyBytes, multiset{})), Stacked(heap, limits, pushed))
         == Plus(Fields(heap, limits, fields, depth), Stacked(heap, limits, stack))
  {
    hide Total, Plus, Fields, Stacked, Rest;
    pushed, keyBytes := stack, 0;
    var rest := fields;
    ghost var goal := Plus(Fields(heap, limits, fields, depth), Stacked(heap, limits, stack));
    KeysCharged(goal, 0, "");
    while rest != map[]
      invariant Bound(limits, pushed)
      invariant Plus(Charged(keyBytes), Plus(Fields(heap, limits, rest, depth), Stacked(heap, limits, pushed))) == goal
      decreases |rest|
    {
      var key :| key in rest;
      AnyField(heap, limits, rest, depth, key);
      ghost var total, others, under :=
        Total(heap, limits, rest[key], depth), Fields(heap, limits, Rest(rest, key), depth), Stacked(heap, limits, pushed);
      StackedPush(heap, limits, pushed, Entry(rest[key], depth));
      OneFieldMoved(Charged(keyBytes), KeyTally(key), total, others, under);
      KeysCharged(goal, keyBytes, key);
      keyBytes := keyBytes + (|Utf8(key)| + 4);
      pushed := pushed + [Entry(rest[key], depth)];
      rest := Rest(rest, key);
    }
    NoItems(heap, limits, depth);
    PlusLaws(Stacked(heap, limits, pushed), Some(NOTHING), None);
  }

  ghost function Charged(keyBytes: nat): Option<Tally> { Some(Tally(0, keyBytes, multiset{})) }

  lemma KeysCharged(t: Option<Tally>, keyBytes: nat, key: string)
    ensures Plus(Charged(keyBytes), KeyTally(key)) == Charged(keyBytes + (|Utf8(key)| + 4))
    ensures Plus(Charged(0), t) == t
  {
    PlusLaws(Charged(keyBytes), Some(NOTHING), None);
    PlusLaws(t, Charged(0), None);
    PlusLaws(t, None, None);
    RefLaws(multiset{}, multiset{}, multiset{});
  }

  lemma OneFieldMoved(keys: Option<Tally>, key: Option<Tally>, total: Option<Tally>, others: Option<Tally>, under: Option<Tally>)
    ensures Plus(keys, Plus(Plus(Plus(key, total), others), under)) == Plus(Plus(keys, key), Plus(others, Plus(total, under)))
  {
    hide Plus;
    PlusLaws(Plus(key, total), others, under);
    PlusLaws(key, total, Plus(others, under));
    PlusLaws(keys, key, Plus(total, Plus(others, under)));
    PlusLaws(total, others, under);
  }

  /** The stack counts exactly what the value amounts to, whatever order its fields are met in. */
  method MeasureStructuredValue(heap: Heap, limits: Limits, value: Js) returns (r: Option<nat>)
    ensures r == Measured(heap, limits, value)
  {
    hide Total, Members, Own, Fits, Plus, Stacked, Counted;
    var seen: set<Ref> := {};
    var stack := [Entry(value, 0)];
    var bytes: nat, values: nat := 0, 0;
    ghost var goal := Total(heap, limits, value, 0);
    Started(heap, limits, value);
    CountedFits(limits, 0, 0, {});
    while stack != []
      invariant Bound(limits, stack) && Plus(Counted(values, bytes, seen), Stacked(heap, limits, stack)) == goal
      invariant values <= STRUCTURED_VALUES && bytes <= limits.bytes
      decreases STRUCTURED_VALUES - values
    {
      var entry := stack[|stack| - 1];
      StackedPop(heap, limits, stack);
      TotalIs(heap, limits, entry.value, entry.depth);
      CountOwn(heap, limits, values, bytes, seen, entry.value);
      stack := stack[..|stack| - 1];
      NoTotal(limits, Counted(values, bytes, seen), Stacked(heap, limits, stack));
      var own := Own(heap, limits, entry.value);
      if entry.depth <= limits.depth {
        Regroup(
          limits, Counted(values, bytes, seen), own, Members(heap, limits, entry.value, entry.depth + 1),
          Stacked(heap, limits, stack));
      }
      values := values + 1;
      if entry.depth > limits.depth || own == None || (Holds(heap, entry.value) && entry.value.ref in seen) {
        return None;
      }
      if Holds(heap, entry.value) {
        seen := seen + {entry.value.ref};
      }
      CountedFits(limits, values, bytes + own.value.bytes, seen);
      if values > STRUCTURED_VALUES {
        return None;
      }
      ghost var under := Stacked(heap, limits, stack);
      var keyBytes: nat;
      stack, keyBytes := PushMembers(heap, limits, stack, entry.value, entry.depth + 1);
      KeysCounted(values, bytes + own.value.bytes, seen, keyBytes);
      PlusLaws(Counted(values, bytes + own.value.bytes, seen), Charged(keyBytes), Stacked(heap, limits, stack));
      bytes := bytes + own.value.bytes + keyBytes;
      CountedFits(limits, values, bytes, seen);
      if bytes > limits.bytes {
        NeverFits(limits, Counted(values, bytes, seen), Stacked(heap, limits, stack));
        return None;
      }
    }
    Finished(heap, limits, values, bytes, seen);
    CountedFits(limits, values, bytes, seen);
    r := Some(bytes);
  }

  lemma Started(heap: Heap, limits: Limits, value: Js)
    ensures Plus(Counted(0, 0, {}), Stacked(heap, limits, [Entry(value, 0)])) == Total(heap, limits, value, 0)
  {
    assert [Entry(value, 0)][..0] == [];
    var none: set<Ref> := {};
    assert multiset(none) == multiset{};
    var total := Total(heap, limits, value, 0);
    hide Total, Plus;
    PlusLaws(total, Some(NOTHING), None);
    PlusLaws(Some(NOTHING), total, None);
    assert Stacked(heap, limits, []) == Some(NOTHING);
  }

  lemma KeysCounted(values: nat, bytes: nat, seen: set<Ref>, keyBytes: nat)
    ensures Plus(Counted(values, bytes, seen), Charged(keyBytes)) == Counted(values, bytes + keyBytes, seen)
  {
    assert multiset(seen) + multiset{} == multiset(seen);
  }

  lemma Finished(heap: Heap, limits: Limits, values: nat, bytes: nat, seen: set<Ref>)
    ensures Plus(Counted(values, bytes, seen), Stacked(heap, limits, [])) == Counted(values, bytes, seen)
    ensures Counted(values, bytes, seen).Some? && Counted(values, bytes, seen).value.bytes == bytes
  {
    assert multiset(seen) + multiset{} == multiset(seen);
  }

  // ---------------------------------------------------------------- what an accepted payload is

  /** `m` is an item or a field of `v`. */
  predicate Member(heap: Heap, v: Js, m: Js) {
    v.Object? &&
    match heap(v.ref)
    case List(_, items) => m in items
    case Plain(fields) => m in fields.Values
    case _ => false
  }

  lemma {:induction false} Shallower(heap: Heap, limits: Limits, v: Js, depth: nat)
    requires depth <= limits.depth && Total(heap, limits, v, depth + 1).Some?
    ensures Total(heap, limits, v, depth) == Total(heap, limits, v, depth + 1)
    decreases limits.depth + 1 - depth, 2, 0
  {
    hide Own;
    if v.Object? {
      if heap(v.ref).List? {
        ShallowerItems(heap, limits, heap(v.ref).items, depth + 1);
      } else if heap(v.ref).Plain? {
        ShallowerFields(heap, limits, heap(v.ref).fields, depth + 1);
      }
    }
  }

  lemma {:induction false} ShallowerItems(heap: Heap, limits: Limits, items: seq<Js>, depth: nat)
    requires depth <= limits.depth && Items(heap, limits, items, depth + 1).Some?
    ensures Items(heap, limits, items, depth) == Items(heap, limits, items, depth + 1)
    decreases limits.depth + 1 - depth, 3, |items|
  {
    hide Total;
    if items != [] {
      Shallower(heap, limits, items[0], depth);
      ShallowerItems(heap, limits, items[1..], depth);
    }
  }

  lemma {:induction false} ShallowerFields(heap: Heap, limits: Limits, fields: map<string, Js>, depth: nat)
    requires depth <= limits.depth && Fields(heap, limits, fields, depth + 1).Some?
    ensures Fields(heap, limits, fields, depth) == Fields(heap, limits, fields, depth + 1)
    decreases limits.depth + 1 - depth, 3, |fields|
  {
    hide Total;
    if fields != map[] {
      var key :| key in fields;
      AnyField(heap, limits, fields, depth, key);
      AnyField(heap, limits, fields, depth + 1, key);
      Shallower(heap, limits, fields[key], depth);
      ShallowerFields(heap, limits, Rest(fields, key), depth);
    }
  }

  lemma ItemPart(heap: Heap, limits: Limits, items: seq<Js>, depth: nat, i: nat) returns (others: Option<Tally>)
    requires depth <= limits.depth + 1 && i < |items|
    ensures Items(heap, limits, items, depth) == Plus(Total(heap, limits, items[i], depth), others)
    decreases |items|
  {
    hide Total, Plus;
    if i == 0 {
      others := Items(heap, limits, items[1..], depth);
    } else {
      var rest := ItemPart(heap, limits, items[1..], depth, i - 1);
      others := Plus(Total(heap, limits, items[0], depth), rest);
      PlusLaws(Total(heap, limits, items[0], depth), Total(heap, limits, items[i], depth), rest);
    }
  }

  lemma MemberPart(heap: Heap, limits: Limits, v: Js, m: Js, depth: nat) returns (others: Option<Tally>)
    requires depth <= limits.depth + 1 && Member(heap, v, m)
    ensures Members(heap, limits, v, depth) == Plus(Total(heap, limits, m, depth), others)
  {
    hide Total, Plus;
    if heap(v.ref).List? {
      var i :| 0 <= i < |heap(v.ref).items| && heap(v.ref).items[i] == m;
      others := ItemPart(heap, limits, heap(v.ref).items, depth, i);
    } else {
      var fields := heap(v.ref).fields;
      var key :| key in fields && fields[key] == m;
      AnyField(heap, limits, fields, depth, key);
      var rest := Fields(heap, limits, Rest(fields, key), depth);
      others := Plus(KeyTally(key), rest);
      PlusLaws(KeyTally(key), Total(heap, limits, m, depth), rest);
    }
  }

  lemma PartFits(limits: Limits, own: Option<Tally>, part: Option<Tally>, others: Option<Tally>)
    requires Fits(limits, Plus(own, Plus(part, others)))
    ensures Fits(limits, part) && part.value.bytes + own.value.bytes <= Plus(own, Plus(part, others)).value.bytes
  {
    var all := Plus(own, Plus(part, others)).value.refs;
    forall ref ensures part.value.refs[ref] <= 1 { assert all[ref] <= 1; }
  }

  /**
   * Every item and field of an accepted payload is accepted by itself at the same limits, and holds
   * at least four bytes less: measuring a part of a message that was measured cannot fail.
   */
  lemma MemberMeasured(heap: Heap, limits: Limits, v: Js, m: Js)
    requires Member(heap, v, m) && Measured(heap, limits, v).Some?
    ensures Measured(heap, limits, m).Some? && Measured(heap, limits, m).value + 4 <= Measured(heap, limits, v).value
  {
    var others := MemberPart(heap, limits, v, m, 1);
    var own := Own(heap, limits, v);
    assert own.Some? && own.value.bytes == 4;
    assert Total(heap, limits, v, 0) == Plus(own, Members(heap, limits, v, 1));
    hide Total, Members, Own, Fits, Plus;
    PartFits(limits, own, Total(heap, limits, m, 1), others);
    assert Total(heap, limits, m, 1).Some?;
    Shallower(heap, limits, m, 0);
  }

  /** A record rebuilt with the same fields, as an object not met before, measures the same. */
  lemma RebuiltMeasured(heap: Heap, limits: Limits, v: Js, w: Js)
    requires v.Object? && w.Object? && heap(v.ref).Plain? && heap(w.ref) == heap(v.ref)
    requires Measured(heap, limits, v).Some? && w.ref !in Total(heap, limits, v, 0).value.refs
    ensures Measured(heap, limits, w) == Measured(heap, limits, v)
  {
    var members := Members(heap, limits, v, 1);
    assert Members(heap, limits, w, 1) == members;
    var before, after := Total(heap, limits, v, 0), Total(heap, limits, w, 0);
    assert before == Plus(Own(heap, limits, v), members) && after == Plus(Own(heap, limits, w), members);
    hide Total, Members;
    forall ref ensures after.value.refs[ref] <= 1 {
      assert before.value.refs[ref] <= 1 && before.value.refs[w.ref] == 0;
    }
  }

  /** Each value of the path is a member of the one before it. */
  ghost predicate Path(heap: Heap, path: seq<Js>) {
    path != [] && forall i :: 1 <= i < |path| ==> Member(heap, path[i - 1], path[i])
  }

  lemma {:induction false} DownThePath(heap: Heap, limits: Limits, path: seq<Js>)
    requires Path(heap, path) && Measured(heap, limits, path[0]).Some?
    ensures var last := Measured(heap, limits, path[|path| - 1]);
      last.Some? && last.value + 4 * (|path| - 1) <= Measured(heap, limits, path[0]).value
    decreases |path|
  {
    hide Measured, Member;
    var n := |path| - 1;
    if n > 0 {
      assert Path(heap, path[..n]);
      DownThePath(heap, limits, path[..n]);
      assert Member(heap, path[n - 1], path[n]);
      MemberMeasured(heap, limits, path[n - 1], path[n]);
    }
  }

  /** A payload that contains itself is refused, however the limits are set. */
  lemma CycleRefused(heap: Heap, limits: Limits, path: seq<Js>)
    requires Path(heap, path) && |path| >= 2 && path[|path| - 1] == path[0]
    ensures Measured(heap, limits, path[0]) == None
  {
    hide Measured;
    if Measured(heap, limits, path[0]).Some? {
      DownThePath(heap, limits, path);
    }
  }
}
