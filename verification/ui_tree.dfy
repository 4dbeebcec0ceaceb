/** The semantic-tree validator: a recursive left-to-right definition, and the explicit stack that refines it. */
module UiTree {
  import opened Wire
  import opened Options
  import opened UiContract

  datatype Head = Head(id: string, kind: NodeType, props: Props)

  datatype Node = Leaf(head: Head) | Branch(head: Head, children: seq<Node>)

  /** What is counted and remembered across the whole tree. */
  datatype Walk = Walk(nodes: nat, bytes: nat, ids: set<string>, objects: set<Ref>)

  const START := Walk(0, 0, {}, {})

  datatype Entered = Entered(head: Head, children: Option<seq<Js>>, w: Walk)

  /** The children array of a container; none at all counts as an empty one. */
  function ChildrenOf(heap: Heap, v: Js): Option<seq<Js>> {
    if v == Absent || v == Null then Some([]) else DenseArray(heap, v, UI_NODES)
  }

  function Remember(objects: set<Ref>, v: Js): set<Ref> { if v.Object? then objects + {v.ref} else objects }

  /** One node, without its children. */
  function Enter(heap: Heap, media: set<string>, v: Js, depth: nat, w: Walk): Checked<Entered> {
    if depth > UI_DEPTH then Refused(RenderInvalid)
    else
      match ExactObject(heap, v, {"id", "type", "props"}, {"children"})
      case None => Refused(RenderInvalid)
      case Some(f) =>
        var id, kind, list := FieldOf(f, "id"), TypeOf(FieldOf(f, "type")), FieldOf(f, "children");
        var objects := Remember(w.objects, v);
        if (v.Object? && v.ref in w.objects) || w.nodes >= UI_NODES || !NodeId(id) || id.s in w.ids || kind == None
        then Refused(RenderInvalid)
        else
          match ValidateProps(heap, kind.value, FieldOf(f, "props"), media, w.bytes)
          case Refused(error) => Refused(error)
          case Valid((props, bytes)) =>
            var head, ids := Head(id.s, kind.value, props), w.ids + {id.s};
            if Container(kind.value) then
              var children := ChildrenOf(heap, list);
              if children == None || (list.Object? && list.ref in objects) then Refused(RenderInvalid)
              else Valid(Entered(head, children, Walk(w.nodes + 1, bytes, ids, Remember(objects, list))))
            else if "children" in f then Refused(RenderInvalid)
            else Valid(Entered(head, None, Walk(w.nodes + 1, bytes, ids, objects)))
  }

  /** The recursive definition. */
  function Visit(heap: Heap, media: set<string>, v: Js, depth: nat, w: Walk): Checked<(Node, Walk)>
    requires depth <= UI_DEPTH + 1
    decreases UI_DEPTH + 1 - depth, 0
  {
    match Enter(heap, media, v, depth, w)
    case Refused(error) => Refused(error)
    case Valid(e) =>
      if e.children == None then Valid((Leaf(e.head), e.w))
      else
        match VisitAll(heap, media, e.children.value, depth + 1, e.w)
        case Refused(error) => Refused(error)
        case Valid((children, after)) => Valid((Branch(e.head, children), after))
  }

  function VisitAll(heap: Heap, media: set<string>, items: seq<Js>, depth: nat, w: Walk): Checked<(seq<Node>, Walk)>
    requires depth <= UI_DEPTH + 1
    decreases UI_DEPTH + 1 - depth, 1, |items|
  {
    if items == [] then Valid(([], w))
    else
      match Visit(heap, media, items[0], depth, w)
      case Refused(error) => Refused(error)
      case Valid((first, between)) =>
        match VisitAll(heap, media, items[1..], depth, between)
        case Refused(error) => Refused(error)
        case Valid((others, after)) => Valid(([first] + others, after))
  }

  function ValidateTree(heap: Heap, media: set<string>, v: Js): Checked<Node> {
    match Visit(heap, media, v, 1, START)
    case Refused(error) => Refused(error)
    case Valid((root, _)) => if root.head.kind == Screen then Valid(root) else Refused(RenderInvalid)
  }

  // ---------------------------------------------------------------- what an accepted tree is

  function Ids(n: Node): seq<string> {
    match n
    case Leaf(head) => [head.id]
    case Branch(head, children) => [head.id] + AllIds(children)
  }

  function AllIds(nodes: seq<Node>): seq<string> {
    if nodes == [] then [] else Ids(nodes[0]) + AllIds(nodes[1..])
  }

  function Height(n: Node): nat {
    match n
    case Leaf(_) => 1
    case Branch(_, children) => 1 + MaxHeight(children)
  }

  function MaxHeight(nodes: seq<Node>): nat {
    if nodes == [] then 0
    else
      var first, others := Height(nodes[0]), MaxHeight(nodes[1..]);
      if first > others then first else others
  }

  function TextBytes(n: Node): nat {
    match n
    case Leaf(head) => TextOf(head.props)
    case Branch(head, children) => TextOf(head.props) + AllTextBytes(children)
  }

  function AllTextBytes(nodes: seq<Node>): nat {
    if nodes == [] then 0 else TextBytes(nodes[0]) + AllTextBytes(nodes[1..])
  }

  predicate Distinct(ids: seq<string>) { forall i, j :: 0 <= i < j < |ids| ==> ids[i] != ids[j] }

  /** Identifiers new to the walk, each once, and the walk afterwards knows them all. */
  ghost predicate Fresh(ids: seq<string>, before: Walk, after: Walk) {
    && Distinct(ids) && (forall i :: 0 <= i < |ids| ==> ids[i] !in before.ids)
    && after.ids == before.ids + (set i | 0 <= i < |ids| :: ids[i])
    && after.nodes == before.nodes + |ids|
  }

  lemma FreshAppend(a: seq<string>, b: seq<string>, x: Walk, y: Walk, z: Walk)
    requires Fresh(a, x, y) && Fresh(b, y, z)
    ensures Fresh(a + b, x, z)
  {
    forall i, j | 0 <= i < j < |a + b| ensures (a + b)[i] != (a + b)[j] {
      if i < |a| <= j {
        assert b[j - |a|] !in y.ids && a[i] in y.ids;
      }
    }
    forall i | 0 <= i < |a + b| ensures (a + b)[i] !in x.ids {
      if |a| <= i {
        assert b[i - |a|] !in y.ids;
      }
    }
    var sa, sb, sab := (set i | 0 <= i < |a| :: a[i]), (set i | 0 <= i < |b| :: b[i]), (set i | 0 <= i < |a + b| :: (a + b)[i]);
    forall s ensures s in sab <==> s in sa + sb {
      if s in sa {
        var i :| 0 <= i < |a| && a[i] == s;
        assert (a + b)[i] == s;
      }
      if s in sb {
        var i :| 0 <= i < |b| && b[i] == s;
        assert (a + b)[|a| + i] == s;
      }
    }
  }

  lemma EnterFacts(heap: Heap, media: set<string>, v: Js, depth: nat, w: Walk)
    requires Enter(heap, media, v, depth, w).Valid?
    ensures var e := Enter(heap, media, v, depth, w).value;
      && Fresh([e.head.id], w, e.w) && depth <= UI_DEPTH && e.w.nodes <= UI_NODES
      && e.w.bytes == w.bytes + TextOf(e.head.props) <= UI_TEXT_BYTES
      && (e.children.Some? <==> Container(e.head.kind))
  {
    hide PropsOf, NodeId, DenseArray, TextOf, Fresh;
    var e := Enter(heap, media, v, depth, w).value;
    OneFresh(e.head.id, w, e.w);
  }

  lemma OneFresh(id: string, before: Walk, after: Walk)
    requires id !in before.ids && after.ids == before.ids + {id} && after.nodes == before.nodes + 1
    ensures Fresh([id], before, after)
  {
    var s := set i | 0 <= i < |[id]| :: [id][i];
    assert [id][0] in s;
    assert s == {id};
  }

  /** Every accepted subtree: identifiers new and distinct, nodes and text counted, depth within its allowance. */
  lemma {:induction false} VisitFacts(heap: Heap, media: set<string>, v: Js, depth: nat, w: Walk)
    requires 1 <= depth <= UI_DEPTH + 1 && Visit(heap, media, v, depth, w).Valid?
    ensures var n, after := Visit(heap, media, v, depth, w).value.0, Visit(heap, media, v, depth, w).value.1;
      && Fresh(Ids(n), w, after) && after.bytes == w.bytes + TextBytes(n)
      && depth + Height(n) <= UI_DEPTH + 1
      && (w.nodes <= UI_NODES ==> after.nodes <= UI_NODES) && (w.bytes <= UI_TEXT_BYTES ==> after.bytes <= UI_TEXT_BYTES)
    decreases UI_DEPTH + 1 - depth, 0
  {
    hide Enter, Fresh, TextOf;
    EnterFacts(heap, media, v, depth, w);
    var e := Enter(heap, media, v, depth, w).value;
    if e.children.Some? {
      VisitAllFacts(heap, media, e.children.value, depth + 1, e.w);
      var (children, after) := VisitAll(heap, media, e.children.value, depth + 1, e.w).value;
      FreshAppend([e.head.id], AllIds(children), w, e.w, after);
    }
  }

  lemma {:induction false} VisitAllFacts(heap: Heap, media: set<string>, items: seq<Js>, depth: nat, w: Walk)
    requires 1 <= depth <= UI_DEPTH + 1 && VisitAll(heap, media, items, depth, w).Valid?
    ensures var nodes, after := VisitAll(heap, media, items, depth, w).value.0, VisitAll(heap, media, items, depth, w).value.1;
      && |nodes| == |items| && Fresh(AllIds(nodes), w, after) && after.bytes == w.bytes + AllTextBytes(nodes)
      && (nodes != [] ==> depth + MaxHeight(nodes) <= UI_DEPTH + 1)
      && (w.nodes <= UI_NODES ==> after.nodes <= UI_NODES) && (w.bytes <= UI_TEXT_BYTES ==> after.bytes <= UI_TEXT_BYTES)
    decreases UI_DEPTH + 1 - depth, 1, |items|
  {
    hide Fresh, Ids, TextBytes, Height;
    if items == [] {
      NothingFresh(w);
    } else {
      VisitFacts(heap, media, items[0], depth, w);
      var (first, between) := Visit(heap, media, items[0], depth, w).value;
      VisitAllFacts(heap, media, items[1..], depth, between);
      var (others, after) := VisitAll(heap, media, items[1..], depth, between).value;
      FreshAppend(Ids(first), AllIds(others), w, between, after);
      assert ([first] + others)[0] == first && ([first] + others)[1..] == others;
    }
  }

  lemma NothingFresh(w: Walk)
    ensures Fresh([], w, w)
  {
  }

  /** An accepted tree has distinct identifiers, at most 1024 nodes, depth at most 32 and bounded text. */
  lemma AcceptedTree(heap: Heap, media: set<string>, v: Js)
    requires ValidateTree(heap, media, v).Valid?
    ensures var root := ValidateTree(heap, media, v).value;
      && root.head.kind == Screen && Distinct(Ids(root)) && 1 <= |Ids(root)| <= UI_NODES
      && Height(root) <= UI_DEPTH && TextBytes(root) <= UI_TEXT_BYTES
  {
    VisitFacts(heap, media, v, 1, START);
  }

  // ---------------------------------------------------------------- the tree under construction

  /** A tree whose assignment closures have not all run: the slots still to be written are holes. */
  datatype Partial = Hole | Closed(head: Head) | Open(head: Head, children: seq<Partial>)

  function Full(n: Node): Partial {
    match n
    case Leaf(head) => Closed(head)
    case Branch(head, children) => Open(head, FullAll(children))
  }

  function FullAll(nodes: seq<Node>): (r: seq<Partial>)
    ensures |r| == |nodes|
  {
    if nodes == [] then [] else [Full(nodes[0])] + FullAll(nodes[1..])
  }

  function Holes(n: nat): seq<Partial> { seq(n, _ => Hole) }

  /** Writing the slot that a path of child indexes leads to. */
  function SetAt(r: Partial, path: seq<nat>, x: Partial): Partial
    decreases |path|
  {
    if path == [] then x
    else if r.Open? && path[0] < |r.children|
    then Open(r.head, r.children[path[0] := SetAt(r.children[path[0]], path[1..], x)])
    else r
  }

  lemma {:induction false} SetBelow(r: Partial, path: seq<nat>, head: Head, children: seq<Partial>, k: nat, x: Partial)
    requires k < |children|
    ensures SetAt(SetAt(r, path, Open(head, children)), path + [k], x) == SetAt(r, path, Open(head, children[k := x]))
    decreases |path|
  {
    if path == [] {
      assert [k][1..] == [];
      assert SetAt(children[k], [], x) == x;
    } else if r.Open? && path[0] < |r.children| {
      SetBelow(r.children[path[0]], path[1..], head, children, k, x);
      assert (path + [k])[1..] == path[1..] + [k];
    }
  }

  // ---------------------------------------------------------------- the explicit stack

  datatype Entry = Entry(input: Js, depth: nat, path: seq<nat>)

  /** Popping everything, each entry visited recursively and written to its slot. */
  function Finish(heap: Heap, media: set<string>, stack: seq<Entry>, w: Walk, root: Partial): Checked<Partial>
    requires forall i :: 0 <= i < |stack| ==> stack[i].depth <= UI_DEPTH + 1
    decreases |stack|
  {
    if stack == [] then Valid(root)
    else
      var n := |stack| - 1;
      match Visit(heap, media, stack[n].input, stack[n].depth, w)
      case Refused(error) => Refused(error)
      case Valid((node, after)) => Finish(heap, media, stack[..n], after, SetAt(root, stack[n].path, Full(node)))
  }

  /** Children from index `k` on, pushed last to first, so that the leftmost is popped first. */
  function Pushed(items: seq<Js>, depth: nat, path: seq<nat>, k: nat): (r: seq<Entry>)
    requires k <= |items|
    ensures forall i :: 0 <= i < |r| ==> r[i].depth == depth
    decreases |items| - k
  {
    if k == |items| then [] else Pushed(items, depth, path, k + 1) + [Entry(items[k], depth, path + [k])]
  }

  predicate Bound(stack: seq<Entry>) { forall i :: 0 <= i < |stack| ==> stack[i].depth <= UI_DEPTH + 1 }

  /** What is left to do once an open node's last children are known. */
  function Filled(
    heap: Heap, media: set<string>, rest: seq<Entry>, visited: Checked<(seq<Node>, Walk)>, root: Partial, path: seq<nat>,
    head: Head, done: seq<Partial>): Checked<Partial>
    requires Bound(rest)
  {
    match visited
    case Refused(error) => Refused(error)
    case Valid((nodes, after)) => Finish(heap, media, rest, after, SetAt(root, path, Open(head, done + FullAll(nodes))))
  }

  /** The pushed children are exactly VisitAll, and fill the open node's slots from left to right. */
  lemma {:induction false} ChildrenFinish(
    heap: Heap, media: set<string>, rest: seq<Entry>, items: seq<Js>, depth: nat, path: seq<nat>, k: nat, w: Walk,
    root: Partial, head: Head, done: seq<Partial>)
    requires Bound(rest) && depth <= UI_DEPTH + 1 && k <= |items| && |done| == k
    ensures Bound(rest + Pushed(items, depth, path, k))
    ensures Finish(
        heap, media, rest + Pushed(items, depth, path, k), w, SetAt(root, path, Open(head, done + Holes(|items| - k))))
      == Filled(heap, media, rest, VisitAll(heap, media, items[k..], depth, w), root, path, head, done)
    decreases |items| - k
  {
    hide Visit, SetAt, Full;
    var pushed := Pushed(items, depth, path, k);
    var n := |items| - k;
    if n == 0 {
      assert rest + pushed == rest && done + Holes(0) == done && done + FullAll([]) == done;
    } else {
      var stack := rest + pushed;
      assert stack[..|stack| - 1] == rest + Pushed(items, depth, path, k + 1);
      assert stack[|stack| - 1] == Entry(items[k], depth, path + [k]);
      assert items[k..][1..] == items[k + 1..];
      if Visit(heap, media, items[k], depth, w).Valid? {
        var (node, after) := Visit(heap, media, items[k], depth, w).value;
        SetBelow(root, path, head, done + Holes(n), k, Full(node));
        assert (done + Holes(n))[k := Full(node)] == done + [Full(node)] + Holes(n - 1);
        ChildrenFinish(heap, media, rest, items, depth, path, k + 1, after, root, head, done + [Full(node)]);
        Regroup(heap, media, items[k..], depth, w, done);
      }
    }
  }

  lemma Regroup(heap: Heap, media: set<string>, items: seq<Js>, depth: nat, w: Walk, done: seq<Partial>)
    requires depth <= UI_DEPTH + 1 && items != [] && Visit(heap, media, items[0], depth, w).Valid?
    ensures var node, between := Visit(heap, media, items[0], depth, w).value.0, Visit(heap, media, items[0], depth, w).value.1;
      VisitAll(heap, media, items[1..], depth, between).Valid? ==>
        var others := VisitAll(heap, media, items[1..], depth, between).value.0;
        done + [Full(node)] + FullAll(others) == done + FullAll([node] + others)
  {
    hide Visit, VisitAll, Full;
    var (node, between) := Visit(heap, media, items[0], depth, w).value;
    if VisitAll(heap, media, items[1..], depth, between).Valid? {
      var others := VisitAll(heap, media, items[1..], depth, between).value.0;
      assert ([node] + others)[0] == node && ([node] + others)[1..] == others;
      assert done + [Full(node)] + FullAll(others) == done + ([Full(node)] + FullAll(others));
    }
  }

  /** One turn of the loop leaves what remains to be computed as it was. */
  lemma TurnKeeps(heap: Heap, media: set<string>, stack: seq<Entry>, w: Walk, root: Partial)
    requires stack != [] && Bound(stack)
    ensures var n := |stack| - 1;
      match Enter(heap, media, stack[n].input, stack[n].depth, w)
      case Refused(error) => Finish(heap, media, stack, w, root) == Refused(error)
      case Valid(e) =>
        if e.children == None
        then Finish(heap, media, stack, w, root)
          == Finish(heap, media, stack[..n], e.w, SetAt(root, stack[n].path, Closed(e.head)))
        else
          var pushed := Pushed(e.children.value, stack[n].depth + 1, stack[n].path, 0);
          && Bound(stack[..n] + pushed)
          && Finish(heap, media, stack, w, root)
          == Finish(heap, media, stack[..n] + pushed, e.w,
                    SetAt(root, stack[n].path, Open(e.head, Holes(|e.children.value|))))
  {
    hide Enter, SetAt;
    var n := |stack| - 1;
    match Enter(heap, media, stack[n].input, stack[n].depth, w) {
      case Refused(_) =>
      case Valid(e) =>
        EnterDepth(heap, media, stack[n].input, stack[n].depth, w);
        if e.children.Some? {
          var items := e.children.value;
          ChildrenFinish(heap, media, stack[..n], items, stack[n].depth + 1, stack[n].path, 0, e.w, root, e.head, []);
          assert [] + Holes(|items|) == Holes(|items|) && items[0..] == items;
          assert forall nodes: seq<Node> :: [] + FullAll(nodes) == FullAll(nodes);
        }
    }
  }

  lemma EnterDepth(heap: Heap, media: set<string>, v: Js, depth: nat, w: Walk)
    ensures Enter(heap, media, v, depth, w).Valid? ==> depth <= UI_DEPTH
  {
  }
}
