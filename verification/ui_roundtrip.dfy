/** An accepted tree, sent again as it was returned, is accepted and returned unchanged. */
module UiRoundTrip {
  import opened Wire
  import opened Options
  import opened UiContract
  import opened UiTree

  // ---------------------------------------------------------------- a tree as objects

  /** The fields of a normalised property record that lives at `base`. */
  function PropFields(p: Props, base: Ref): map<string, Js> {
    match p
    case ScreenProps(title) => map["title" := Text(title)]
    case StackProps(direction, gap, align) => map["direction" := Text(direction), "gap" := Text(gap), "align" := Text(align)]
    case GridProps(columns, gap) => map["columns" := Number(Finite(columns as real)), "gap" := Text(gap)]
    case SectionProps(heading, description) =>
      if description == None then map["heading" := Text(heading)]
      else map["heading" := Text(heading), "description" := Text(description.value)]
    case WordsProps(text, tone, emphasis) => map["text" := Text(text), "tone" := Text(tone), "emphasis" := Text(emphasis)]
    case StatusProps(name, state, detail) =>
      if detail == None then map["label" := Text(name), "state" := Text(state)]
      else map["label" := Text(name), "state" := Text(state), "detail" := Text(detail.value)]
    case ButtonProps(name, handler, variant, disabled, pending) =>
      map["label" := Text(name), "handler" := Text(handler), "variant" := Text(variant), "disabled" := Flag(disabled),
          "pending" := Flag(pending)]
    case ToggleProps(name, on, handler, disabled, pending) =>
      map["label" := Text(name), "value" := Flag(on), "handler" := Text(handler), "disabled" := Flag(disabled),
          "pending" := Flag(pending)]
    case InputProps(name, value, handler, inputType, maxLength, disabled, pending) =>
      map["label" := Text(name), "value" := Text(value), "handler" := Text(handler), "input_type" := Text(inputType),
          "max_length" := Number(Finite(maxLength as real)), "disabled" := Flag(disabled), "pending" := Flag(pending)]
    case SelectProps(name, value, _, handler, disabled, pending) =>
      map["label" := Text(name), "value" := Text(value), "options" := Object(base + [0]), "handler" := Text(handler),
          "disabled" := Flag(disabled), "pending" := Flag(pending)]
    case ProgressProps(name, amount) => map["label" := Text(name), "value" := Number(Finite(amount))]
    case MediaProps(name, handle) => map["label" := Text(name), "handle" := Text(handle)]
  }

  function ChoiceRefs(n: nat, base: Ref): seq<Js> { seq(n, i requires 0 <= i < n => Object(base + [0, i])) }

  function PropsThing(p: Props, base: Ref, r: Ref): Thing {
    if r == [] then Plain(PropFields(p, base))
    else if !p.SelectProps? then Exotic
    else if r == [0] then List(true, ChoiceRefs(|p.options|, base))
    else if |r| == 2 && r[0] == 0 && r[1] < |p.options|
    then Plain(map["value" := Text(p.options[r[1]].value), "label" := Text(p.options[r[1]].name)])
    else Exotic
  }

  function ChildRefs(n: nat, base: Ref): seq<Js> { seq(n, i requires 0 <= i < n => Object(base + [2 + i])) }

  function Fields(n: Node, base: Ref): map<string, Js> {
    var head := map["id" := Text(n.head.id), "type" := Text(TypeName(n.head.kind)), "props" := Object(base + [0])];
    if n.Leaf? then head else head["children" := Object(base + [1])]
  }

  /** The object at `r` below a tree written at `base`: 0 its properties, 1 its children array, 2 and up the children. */
  function ThingAt(n: Node, base: Ref, r: Ref): Thing
    decreases |r|
  {
    if r == [] then Plain(Fields(n, base))
    else if r[0] == 0 then PropsThing(n.head.props, base + [0], r[1..])
    else if n.Leaf? then Exotic
    else if r[0] == 1 then (if |r| == 1 then List(true, ChildRefs(|n.children|, base)) else Exotic)
    else if r[0] - 2 < |n.children| then ThingAt(n.children[r[0] - 2], base + [r[0]], r[1..])
    else Exotic
  }

  /** The objects of a returned tree: no two parts of it share one. */
  function Written(root: Node): Heap { r => ThingAt(root, [], r) }

  ghost predicate WrittenAt(heap: Heap, n: Node, base: Ref) { forall r :: heap(base + r) == ThingAt(n, base, r) }

  lemma ChildWritten(heap: Heap, n: Node, base: Ref, k: nat)
    requires WrittenAt(heap, n, base) && n.Branch? && k < |n.children|
    ensures WrittenAt(heap, n.children[k], base + [2 + k])
  {
    var below: Ref := base + [2 + k];
    var child := n.children[k];
    forall r: Ref ensures heap(below + r) == ThingAt(child, below, r) {
      assert base + [2 + k] + r == base + ([2 + k] + r);
      assert ([2 + k] + r)[1..] == r;
    }
  }

  // ---------------------------------------------------------------- properties

  lemma ChoiceImage(heap: Heap, v: Js)
    requires ChoiceOf(heap, v).Some?
    ensures Bounded(Text(ChoiceOf(heap, v).value.value), 256) && Bounded(Text(ChoiceOf(heap, v).value.name), TEXT_BYTES)
  {
    hide Utf8;
  }

  predicate ChoicesOk(options: seq<Choice>) {
    forall i :: 0 <= i < |options| ==>
      && Bounded(Text(options[i].value), 256) && Bounded(Text(options[i].name), TEXT_BYTES)
      && !Named(options[..i], options[i].value)
  }

  lemma {:induction false} ChoicesImage(heap: Heap, items: seq<Js>)
    requires ChoicesOf(heap, items).Some?
    ensures |ChoicesOf(heap, items).value| == |items| && ChoicesOk(ChoicesOf(heap, items).value)
    decreases |items|
  {
    hide Bounded, ChoiceOf, Named;
    if items != [] {
      var n := |items| - 1;
      ChoicesImage(heap, items[..n]);
      ChoiceImage(heap, items[n]);
      var before, options := ChoicesOf(heap, items[..n]).value, ChoicesOf(heap, items).value;
      assert options[..n] == before;
      assert forall i :: 0 <= i < n ==> options[..i] == before[..i];
    }
  }

  lemma ChoiceIsOk(options: seq<Choice>, i: nat)
    requires ChoicesOk(options) && i < |options|
    ensures Bounded(Text(options[i].value), 256) && Bounded(Text(options[i].name), TEXT_BYTES)
    ensures !Named(options[..i], options[i].value)
  {
  }

  lemma {:induction false} ChoicesRewritten(heap: Heap, options: seq<Choice>, base: Ref, n: nat, all: seq<Choice>)
    requires n <= |all| && options == all[..n] && ChoicesOk(all)
    requires forall i :: 0 <= i < |all| ==>
      heap(base + [0, i]) == Plain(map["value" := Text(all[i].value), "label" := Text(all[i].name)])
    ensures ChoicesOf(heap, ChoiceRefs(n, base)) == Some(options)
    decreases n
  {
    hide Utf8, ChoicesOk, ChoiceOf, Named;
    if n > 0 {
      ChoiceIsOk(all, n - 1);
      ChoicesRewritten(heap, all[..n - 1], base, n - 1, all);
      var refs := ChoiceRefs(n, base);
      assert refs[..n - 1] == ChoiceRefs(n - 1, base) && refs[n - 1] == Object(base + [0, n - 1]);
      ChoiceRewritten(heap, all[n - 1], base + [0, n - 1]);
      assert all[..n - 1] + [all[n - 1]] == all[..n];
    }
  }

  lemma ChoiceRewritten(heap: Heap, c: Choice, r: Ref)
    requires Bounded(Text(c.value), 256) && Bounded(Text(c.name), TEXT_BYTES)
    requires heap(r) == Plain(map["value" := Text(c.value), "label" := Text(c.name)])
    ensures ChoiceOf(heap, Object(r)) == Some(c)
  {
    hide Utf8, Bounded;
    var f := map["value" := Text(c.value), "label" := Text(c.name)];
    assert {"value", "label"} <= f.Keys <= {"value", "label"} + {};
  }

  ghost predicate PropsWritten(heap: Heap, p: Props, base: Ref) { forall r :: heap(base + r) == PropsThing(p, base, r) }

  lemma OwnFields(heap: Heap, p: Props, base: Ref)
    requires PropsWritten(heap, p, base)
    ensures heap(base) == Plain(PropFields(p, base))
  {
    assert base + [] == base;
  }

  lemma SelectRewritten(heap0: Heap, raw: Js, heap: Heap, p: Props, media: set<string>, base: Ref)
    requires PropsOf(heap0, Select, raw, media) == Valid(p) && PropsWritten(heap, p, base)
    ensures PropsOf(heap, Select, Object(base), media) == Valid(p)
  {
    hide Utf8, ChoicesOf, ChoicesOk, Named;
    OwnFields(heap, p, base);
    var f0 := ExactObject(heap0, raw, {"label", "value", "options", "handler"}, {"disabled", "pending"}).value;
    var items := DenseArray(heap0, FieldOf(f0, "options"), SELECT_OPTIONS).value;
    ChoicesImage(heap0, items);
    var f := PropFields(p, base);
    assert {"label", "value", "options", "handler"} <= f.Keys <= {"label", "value", "options", "handler"} + {"disabled", "pending"};
    assert heap(base + [0]) == List(true, ChoiceRefs(|p.options|, base));
    forall i | 0 <= i < |p.options|
      ensures heap(base + [0, i]) == Plain(map["value" := Text(p.options[i].value), "label" := Text(p.options[i].name)])
    {
    }
    assert p.options[..|p.options|] == p.options;
    ChoicesRewritten(heap, p.options, base, |p.options|, p.options);
    assert ExactObject(heap, Object(base), {"label", "value", "options", "handler"}, {"disabled", "pending"}) == Some(f);
    assert DenseArray(heap, FieldOf(f, "options"), SELECT_OPTIONS) == Some(ChoiceRefs(|p.options|, base));
  }

  lemma InputRewritten(heap0: Heap, raw: Js, heap: Heap, p: Props, media: set<string>, base: Ref)
    requires PropsOf(heap0, Input, raw, media) == Valid(p) && PropsWritten(heap, p, base)
    ensures PropsOf(heap, Input, Object(base), media) == Valid(p)
  {
    hide Utf8;
    OwnFields(heap, p, base);
    var f, required := PropFields(p, base), {"label", "value", "handler"};
    var optional := {"input_type", "max_length", "disabled", "pending"};
    assert required <= f.Keys <= required + optional;
    assert ExactObject(heap, Object(base), required, optional) == Some(f);
  }

  lemma ContainerRewritten(heap0: Heap, t: NodeType, raw: Js, heap: Heap, p: Props, media: set<string>, base: Ref)
    requires Container(t) && PropsOf(heap0, t, raw, media) == Valid(p) && PropsWritten(heap, p, base)
    ensures PropsOf(heap, t, Object(base), media) == Valid(p)
  {
    hide Utf8;
    OwnFields(heap, p, base);
    var f := PropFields(p, base);
    match t
    case Screen => assert {"title"} <= f.Keys <= {"title"} + {};
    case Stack => assert {} <= f.Keys <= {} + {"direction", "gap", "align"};
    case Grid => assert {"columns"} <= f.Keys <= {"columns"} + {"gap"};
    case Section => assert {"heading"} <= f.Keys <= {"heading"} + {"description"};
  }

  lemma LabelRewritten(heap0: Heap, t: NodeType, raw: Js, heap: Heap, p: Props, media: set<string>, base: Ref)
    requires t in {Words, Status, Progress, Media}
    requires PropsOf(heap0, t, raw, media) == Valid(p) && PropsWritten(heap, p, base)
    ensures PropsOf(heap, t, Object(base), media) == Valid(p)
  {
    hide Utf8;
    OwnFields(heap, p, base);
    var f := PropFields(p, base);
    match t
    case Words => assert {"text"} <= f.Keys <= {"text"} + {"tone", "emphasis"};
    case Status => assert {"label", "state"} <= f.Keys <= {"label", "state"} + {"detail"};
    case Progress => assert {"label", "value"} <= f.Keys <= {"label", "value"} + {};
    case Media => assert {"label", "handle"} <= f.Keys <= {"label", "handle"} + {};
  }

  lemma ControlRewritten(heap0: Heap, t: NodeType, raw: Js, heap: Heap, p: Props, media: set<string>, base: Ref)
    requires t in {Button, Toggle}
    requires PropsOf(heap0, t, raw, media) == Valid(p) && PropsWritten(heap, p, base)
    ensures PropsOf(heap, t, Object(base), media) == Valid(p)
  {
    hide Utf8;
    OwnFields(heap, p, base);
    var f := PropFields(p, base);
    match t
    case Button => assert {"label", "handler"} <= f.Keys <= {"label", "handler"} + {"variant", "disabled", "pending"};
    case Toggle => assert {"label", "value", "handler"} <= f.Keys <= {"label", "value", "handler"} + {"disabled", "pending"};
  }

  /** Normalised properties are accepted again, unchanged. */
  lemma PropsRewritten(heap0: Heap, t: NodeType, raw: Js, heap: Heap, p: Props, media: set<string>, base: Ref)
    requires PropsOf(heap0, t, raw, media) == Valid(p) && PropsWritten(heap, p, base)
    ensures PropsOf(heap, t, Object(base), media) == Valid(p)
  {
    hide PropsOf, PropsWritten;
    if t == Select {
      SelectRewritten(heap0, raw, heap, p, media, base);
    } else if t == Input {
      InputRewritten(heap0, raw, heap, p, media, base);
    } else if Container(t) {
      ContainerRewritten(heap0, t, raw, heap, p, media, base);
    } else if t == Button || t == Toggle {
      ControlRewritten(heap0, t, raw, heap, p, media, base);
    } else {
      LabelRewritten(heap0, t, raw, heap, p, media, base);
    }
  }

  // ---------------------------------------------------------------- nodes

  predicate Below(r: Ref, base: Ref) { |base| <= |r| && r[..|base|] == base }

  /** Nothing at or below `base` was visited yet. */
  ghost predicate Untouched(objects: set<Ref>, base: Ref) { forall r :: r in objects ==> !Below(r, base) }

  /** Everything visited since lies below `base`. */
  ghost predicate GrewBelow(before: set<Ref>, after: set<Ref>, base: Ref) {
    forall r :: r in after ==> r in before || Below(r, base)
  }

  predicate SameCounts(a: Walk, b: Walk) { a.nodes == b.nodes && a.bytes == b.bytes && a.ids == b.ids }

  lemma OwnObjects(heap: Heap, n: Node, base: Ref)
    requires WrittenAt(heap, n, base)
    ensures heap(base) == Plain(Fields(n, base)) && PropsWritten(heap, n.head.props, base + [0])
    ensures n.Branch? ==> heap(base + [1]) == List(true, ChildRefs(|n.children|, base))
  {
    assert base + [] == base;
    var props: Ref := base + [0];
    forall r: Ref ensures heap(props + r) == PropsThing(n.head.props, props, r) {
      assert base + [0] + r == base + ([0] + r) && ([0] + r)[1..] == r;
    }
  }

  lemma TypeRewritten(t: NodeType)
    ensures TypeOf(Text(TypeName(t))) == Some(t)
  {
  }

  /** A node's own part is accepted again at its new place. */
  lemma EnterRewritten(
    heap0: Heap, v: Js, w0: Walk, heap: Heap, n: Node, base: Ref, w: Walk, media: set<string>, depth: nat)
    requires Enter(heap0, media, v, depth, w0).Valid? && Enter(heap0, media, v, depth, w0).value.head == n.head
    requires n.Branch? <==> Enter(heap0, media, v, depth, w0).value.children.Some?
    requires n.Branch? ==> |n.children| <= UI_NODES
    requires WrittenAt(heap, n, base) && SameCounts(w, w0) && Untouched(w.objects, base)
    ensures var e0, again := Enter(heap0, media, v, depth, w0).value, Enter(heap, media, Object(base), depth, w);
      && again.Valid? && again.value.head == n.head && SameCounts(again.value.w, e0.w)
      && again.value.children == (if n.Leaf? then None else Some(ChildRefs(|n.children|, base)))
      && again.value.w.objects == (if n.Leaf? then w.objects + {base} else w.objects + {base} + {base + [1]})
  {
    hide PropsOf, Utf8, WrittenAt, PropsWritten, TypeOf, TypeName;
    OwnObjects(heap, n, base);
    TypeRewritten(n.head.kind);
    var f0 := ExactObject(heap0, v, {"id", "type", "props"}, {"children"}).value;
    PropsRewritten(heap0, n.head.kind, FieldOf(f0, "props"), heap, n.head.props, media, base + [0]);
    var f := Fields(n, base);
    assert {"id", "type", "props"} <= f.Keys <= {"id", "type", "props"} + {"children"};
    assert Below(base, base) && Below(base + [1], base) && base + [1] != base;
  }

  lemma BelowAt(r: Ref, base: Ref, x: nat)
    requires Below(r, base + [x])
    ensures Below(r, base) && |r| > |base| && r[|base|] == x
  {
    assert r[..|base|] == r[..|base| + 1][..|base|] == (base + [x])[..|base|];
    assert r[|base|] == r[..|base| + 1][|base|];
  }

  lemma UntouchedBelow(objects: set<Ref>, base: Ref, k: nat)
    requires Untouched(objects, base)
    ensures Untouched(objects + {base} + {base + [1]}, base + [2 + k])
  {
    forall r | Below(r, base + [2 + k]) ensures r !in objects + {base} + {base + [1]} {
      BelowAt(r, base, 2 + k);
    }
  }

  lemma {:induction false} VisitRewritten(
    heap0: Heap, v: Js, w0: Walk, heap: Heap, n: Node, base: Ref, w: Walk, media: set<string>, depth: nat)
    requires depth <= UI_DEPTH + 1 && Visit(heap0, media, v, depth, w0).Valid? && Visit(heap0, media, v, depth, w0).value.0 == n
    requires WrittenAt(heap, n, base) && SameCounts(w, w0) && Untouched(w.objects, base)
    ensures var again := Visit(heap, media, Object(base), depth, w);
      && again.Valid? && again.value.0 == n && SameCounts(again.value.1, Visit(heap0, media, v, depth, w0).value.1)
      && GrewBelow(w.objects, again.value.1.objects, base)
    decreases UI_DEPTH + 1 - depth, 0
  {
    hide Enter, WrittenAt, Untouched;
    var e0 := Enter(heap0, media, v, depth, w0).value;
    ChildCount(heap0, media, v, depth, w0);
    EnterDepth(heap0, media, v, depth, w0);
    if e0.children.Some? {
      VisitAllLength(heap0, media, e0.children.value, depth + 1, e0.w);
    }
    EnterRewritten(heap0, v, w0, heap, n, base, w, media, depth);
    if n.Branch? {
      var e := Enter(heap, media, Object(base), depth, w).value;
      forall k: nat | k < |n.children| ensures ChildReady(heap, n.children, base, k, e.w.objects) {
        ChildWritten(heap, n, base, k);
        UntouchedBelow(w.objects, base, k);
      }
      var refs := ChildRefs(|n.children|, base);
      VisitAllRewritten(heap0, e0.children.value, e0.w, heap, n.children, base, 0, e.w, media, depth + 1);
      assert n.children[0..] == n.children && refs[0..] == refs && e0.children.value[0..] == e0.children.value;
      BelowSelf(w.objects, e.w.objects, base);
    }
  }

  lemma BelowSelf(before: set<Ref>, after: set<Ref>, base: Ref)
    requires after == before + {base} + {base + [1]}
    ensures GrewBelow(before, after, base)
  {
  }

  lemma ChildCount(heap: Heap, media: set<string>, v: Js, depth: nat, w: Walk)
    requires Enter(heap, media, v, depth, w).Valid?
    ensures var c := Enter(heap, media, v, depth, w).value.children; c.Some? ==> |c.value| <= UI_NODES
  {
    hide ValidateProps;
  }

  lemma {:induction false} VisitAllLength(heap: Heap, media: set<string>, items: seq<Js>, depth: nat, w: Walk)
    requires depth <= UI_DEPTH + 1
    ensures VisitAll(heap, media, items, depth, w).Valid? ==> |VisitAll(heap, media, items, depth, w).value.0| == |items|
    decreases |items|
  {
    hide Visit;
    if items != [] && Visit(heap, media, items[0], depth, w).Valid? {
      VisitAllLength(heap, media, items[1..], depth, Visit(heap, media, items[0], depth, w).value.1);
    }
  }

  /** One child still to be visited: written below its parent, with none of its objects seen. */
  ghost predicate ChildReady(heap: Heap, all: seq<Node>, base: Ref, j: nat, objects: set<Ref>) {
    j < |all| && WrittenAt(heap, all[j], base + [2 + j]) && Untouched(objects, base + [2 + j])
  }

  /** Children from the `k`-th on, each written below the same parent. */
  lemma {:induction false} VisitAllRewritten(
    heap0: Heap, items: seq<Js>, w0: Walk, heap: Heap, all: seq<Node>, base: Ref, k: nat, w: Walk, media: set<string>,
    depth: nat)
    requires depth <= UI_DEPTH + 1 && k <= |all| && |items| == |all| - k
    requires VisitAll(heap0, media, items, depth, w0).Valid? && VisitAll(heap0, media, items, depth, w0).value.0 == all[k..]
    requires SameCounts(w, w0)
    requires forall j: nat :: k <= j < |all| ==> ChildReady(heap, all, base, j, w.objects)
    ensures var again := VisitAll(heap, media, ChildRefs(|all|, base)[k..], depth, w);
      && again.Valid? && again.value.0 == all[k..]
      && SameCounts(again.value.1, VisitAll(heap0, media, items, depth, w0).value.1)
      && GrewBelow(w.objects, again.value.1.objects, base)
    decreases UI_DEPTH + 1 - depth, 1, |items|
  {
    hide Visit, WrittenAt, Untouched, SameCounts;
    var refs := ChildRefs(|all|, base)[k..];
    if items != [] {
      var (first0, between0) := Visit(heap0, media, items[0], depth, w0).value;
      assert all[k..][0] == all[k] && all[k..][1..] == all[k + 1..];
      assert refs[0] == Object(base + [2 + k]) && refs[1..] == ChildRefs(|all|, base)[k + 1..];
      assert ChildReady(heap, all, base, k, w.objects);
      VisitRewritten(heap0, items[0], w0, heap, all[k], base + [2 + k], w, media, depth);
      var (first, between) := Visit(heap, media, refs[0], depth, w).value;
      forall j: nat | k + 1 <= j < |all| ensures ChildReady(heap, all, base, j, between.objects) {
        assert ChildReady(heap, all, base, j, w.objects);
        SiblingUntouched(w.objects, between.objects, base, k, j);
      }
      VisitAllRewritten(heap0, items[1..], between0, heap, all, base, k + 1, between, media, depth);
      GrewTransitive(w.objects, between.objects, VisitAll(heap, media, refs, depth, w).value.1.objects, base, k);
    }
  }

  lemma SiblingUntouched(before: set<Ref>, after: set<Ref>, base: Ref, k: nat, j: nat)
    requires GrewBelow(before, after, base + [2 + k]) && Untouched(before, base + [2 + j]) && k != j
    ensures Untouched(after, base + [2 + j])
  {
    forall r | r in after ensures !(Below(r, base + [2 + k]) && Below(r, base + [2 + j])) {
      NotBoth(r, base, 2 + k, 2 + j);
    }
  }

  lemma NotBoth(r: Ref, base: Ref, x: nat, y: nat)
    requires x != y
    ensures !(Below(r, base + [x]) && Below(r, base + [y]))
  {
    if Below(r, base + [x]) && Below(r, base + [y]) {
      BelowAt(r, base, x);
      BelowAt(r, base, y);
    }
  }

  lemma GrewTransitive(a: set<Ref>, b: set<Ref>, c: set<Ref>, base: Ref, k: nat)
    requires GrewBelow(a, b, base + [2 + k]) && GrewBelow(b, c, base)
    ensures GrewBelow(a, c, base)
  {
    forall r | Below(r, base + [2 + k]) ensures Below(r, base) {
      BelowAt(r, base, 2 + k);
    }
  }

  /** Sending back the tree that validation returned, as objects of its own, is accepted and changes nothing. */
  lemma RevalidationUnchanged(heap: Heap, media: set<string>, v: Js)
    requires ValidateTree(heap, media, v).Valid?
    ensures var root := ValidateTree(heap, media, v).value;
      ValidateTree(Written(root), media, Object([])) == Valid(root)
  {
    hide Visit;
    var root := ValidateTree(heap, media, v).value;
    forall r: Ref ensures Written(root)([] + r) == ThingAt(root, [], r) {
      assert [] + r == r;
    }
    VisitRewritten(heap, v, START, Written(root), root, [], START, media, 1);
  }
}
