/** What ValidateUiTree accepts and returns, said of the input and the tree alone: no walk, no counters, no stack. */
module UiExact {
  import opened Options
  import opened UiContract
  import opened UiTree
  import opened UiRoundTrip
  import opened UiProperties

  function FieldsAt(heap: Heap, v: Js): map<string, Js> {
    if v.Object? && heap(v.ref).Plain? then heap(v.ref).fields else map[]
  }

  function ListOf(heap: Heap, v: Js): Js { FieldOf(FieldsAt(heap, v), "children") }

  function Items(heap: Heap, list: Js): seq<Js> {
    if list.Object? && heap(list.ref).List? then heap(list.ref).items else []
  }

  predicate IsList(heap: Heap, list: Js) {
    list == Absent || list == Null || (list.Object? && heap(list.ref).List? && heap(list.ref).dense)
  }

  /** A node record: identifier, type and properties, and nothing besides but children. */
  ghost predicate HeadRead(heap: Heap, media: set<string>, v: Js, head: Head) {
    && v.Object? && heap(v.ref).Plain?
    && var f := heap(v.ref).fields;
      && {"id", "type", "props"} <= f.Keys <= {"id", "type", "props", "children"}
      && Ident(f["id"]) && f["id"] == Text(head.id) && f["type"] == Text(TypeName(head.kind))
      && PropsRead(heap, head.kind, f["props"], media, head.props)
  }

  /** `n` is what `v` describes. */
  ghost predicate Describes(heap: Heap, media: set<string>, v: Js, n: Node)
    decreases n
  {
    && HeadRead(heap, media, v, n.head)
    && match n
      case Leaf(head) => !Container(head.kind) && "children" !in FieldsAt(heap, v)
      case Branch(head, children) =>
        Container(head.kind) && IsList(heap, ListOf(heap, v)) && AllDescribe(heap, media, Items(heap, ListOf(heap, v)), children)
  }

  ghost predicate AllDescribe(heap: Heap, media: set<string>, items: seq<Js>, nodes: seq<Node>)
    decreases nodes
  {
    && |items| == |nodes|
    && (nodes != [] ==> Describes(heap, media, items[0], nodes[0]) && AllDescribe(heap, media, items[1..], nodes[1..]))
  }

  /** The records and children arrays that make up the tree. */
  function Objects(heap: Heap, v: Js, n: Node): seq<Ref>
    decreases n
  {
    Own(v) + if n.Leaf? then [] else Own(ListOf(heap, v)) + AllObjects(heap, Items(heap, ListOf(heap, v)), n.children)
  }

  function AllObjects(heap: Heap, items: seq<Js>, nodes: seq<Node>): seq<Ref>
    decreases nodes
  {
    if items == [] || nodes == [] then [] else Objects(heap, items[0], nodes[0]) + AllObjects(heap, items[1..], nodes[1..])
  }

  function Own(v: Js): seq<Ref> { if v.Object? then [v.ref] else [] }

  // ---------------------------------------------------------------- lists of new things

  ghost predicate New<T>(s: seq<T>, seen: set<T>) {
    && (forall i, j :: 0 <= i < j < |s| ==> s[i] != s[j])
    && (forall i :: 0 <= i < |s| ==> s[i] !in seen)
  }

  ghost function With<T(!new)>(seen: set<T>, s: seq<T>): set<T> { seen + set x | x in s }

  lemma WithAppend<T(!new)>(seen: set<T>, a: seq<T>, b: seq<T>)
    ensures With(seen, a + b) == With(With(seen, a), b)
  {
  }

  lemma NewAppend<T(!new)>(seen: set<T>, a: seq<T>, b: seq<T>)
    ensures New(a + b, seen) <==> New(a, seen) && New(b, With(seen, a))
  {
    var s := a + b;
    if New(s, seen) {
      forall i, j | 0 <= i < j < |a| ensures a[i] != a[j] {
        assert s[i] != s[j];
      }
      forall i | 0 <= i < |a| ensures a[i] !in seen {
        assert s[i] !in seen;
      }
      forall i, j | 0 <= i < j < |b| ensures b[i] != b[j] {
        assert s[|a| + i] != s[|a| + j];
      }
      forall i | 0 <= i < |b| ensures b[i] !in With(seen, a) {
        assert s[|a| + i] !in seen;
        forall k | 0 <= k < |a| ensures a[k] != b[i] {
          assert s[k] != s[|a| + i];
        }
      }
    }
    if New(a, seen) && New(b, With(seen, a)) {
      forall i, j | 0 <= i < j < |s| ensures s[i] != s[j] {
        if i < |a| <= j {
          assert b[j - |a|] !in With(seen, a) && a[i] in a;
        }
      }
      forall i | 0 <= i < |s| ensures s[i] !in seen {
        if |a| <= i {
          assert b[i - |a|] !in With(seen, a);
        }
      }
    }
  }

  // ---------------------------------------------------------------- one subtree in a walk

  /** What a walk in progress lets a subtree be: everything in it new, and what is left of the counts enough for it. */
  ghost predicate Fits(w: Walk, depth: nat, ids: seq<string>, objects: seq<Ref>, height: nat, text: nat) {
    && depth + height <= UI_DEPTH + 1 && New(ids, w.ids) && New(objects, w.objects)
    && w.nodes + |ids| <= UI_NODES && w.bytes + text <= UI_TEXT_BYTES
  }

  ghost function After(w: Walk, ids: seq<string>, objects: seq<Ref>, text: nat): Walk {
    Walk(w.nodes + |ids|, w.bytes + text, With(w.ids, ids), With(w.objects, objects))
  }

  predicate Within(w: Walk) { w.nodes <= UI_NODES && w.bytes <= UI_TEXT_BYTES }

  lemma FitsAppend(
    w: Walk, depth: nat, a: seq<string>, b: seq<string>, x: seq<Ref>, y: seq<Ref>, h: nat, k: nat, s: nat, t: nat)
    ensures Fits(w, depth, a + b, x + y, if h > k then h else k, s + t) <==>
      Fits(w, depth, a, x, h, s) && Fits(After(w, a, x, s), depth, b, y, k, t)
    ensures After(After(w, a, x, s), b, y, t) == After(w, a + b, x + y, s + t)
  {
    NewAppend(w.ids, a, b);
    NewAppend(w.objects, x, y);
    WithAppend(w.ids, a, b);
    WithAppend(w.objects, x, y);
    hide New, With;
  }

  lemma FitsBelow(
    w: Walk, depth: nat, a: seq<string>, b: seq<string>, x: seq<Ref>, y: seq<Ref>, k: nat, s: nat, t: nat)
    ensures Fits(w, depth, a + b, x + y, 1 + k, s + t) <==>
      Fits(w, depth, a, x, 1, s) && Fits(After(w, a, x, s), depth + 1, b, y, k, t)
    ensures After(After(w, a, x, s), b, y, t) == After(w, a + b, x + y, s + t)
  {
    NewAppend(w.ids, a, b);
    NewAppend(w.objects, x, y);
    WithAppend(w.ids, a, b);
    WithAppend(w.objects, x, y);
    hide New, With;
  }

  // ---------------------------------------------------------------- one node

  /** The objects of a node without what its children add. */
  function Around(heap: Heap, v: Js, kind: NodeType): seq<Ref> {
    Own(v) + if Container(kind) then Own(ListOf(heap, v)) else []
  }

  ghost predicate ListRead(heap: Heap, v: Js, kind: NodeType, children: Option<seq<Js>>) {
    if Container(kind)
    then IsList(heap, ListOf(heap, v)) && |Items(heap, ListOf(heap, v))| <= UI_NODES && children == Some(Items(heap, ListOf(heap, v)))
    else "children" !in FieldsAt(heap, v) && children == None
  }

  lemma TypeExactly(v: Js, t: NodeType)
    ensures TypeOf(v) == Some(t) <==> v == Text(TypeName(t))
  {
  }

  lemma OwnNew(seen: set<Ref>, v: Js, list: Js)
    ensures New(Own(v) + Own(list), seen) <==>
      (v.Object? ==> v.ref !in seen) && (list.Object? ==> list.ref !in Remember(seen, v))
    ensures With(seen, Own(v) + Own(list)) == Remember(Remember(seen, v), list)
  {
    NewAppend(seen, Own(v), Own(list));
    WithAppend(seen, Own(v), Own(list));
  }

  lemma OneNew(seen: set<string>, id: string)
    ensures New([id], seen) <==> id !in seen
    ensures With(seen, [id]) == seen + {id}
  {
    var s := [id];
    assert s[0] == id;
    forall x ensures x in s <==> x == id {
    }
    assert forall i :: 0 <= i < |s| ==> s[i] == id;
  }

  /** Entering a node succeeds exactly on a record that reads as `head`, when the walk has room for it. */
  ghost predicate Enterable(
    heap: Heap, media: set<string>, v: Js, depth: nat, w: Walk, head: Head, children: Option<seq<Js>>)
  {
    && HeadRead(heap, media, v, head) && ListRead(heap, v, head.kind, children)
    && Fits(w, depth, [head.id], Around(heap, v, head.kind), 1, TextOf(head.props))
  }

  lemma HeadExactly(heap: Heap, media: set<string>, v: Js, head: Head)
    ensures HeadRead(heap, media, v, head) <==>
      && ExactObject(heap, v, {"id", "type", "props"}, {"children"}).Some?
      && var f := ExactObject(heap, v, {"id", "type", "props"}, {"children"}).value;
        && NodeId(FieldOf(f, "id")) && FieldOf(f, "id").s == head.id && TypeOf(FieldOf(f, "type")) == Some(head.kind)
        && PropsOf(heap, head.kind, FieldOf(f, "props"), media) == Valid(head.props)
  {
    hide PropsOf, PropsRead, NodeId, Ident, TypeOf, TypeName;
    assert {"id", "type", "props"} + {"children"} == {"id", "type", "props", "children"};
    if ExactObject(heap, v, {"id", "type", "props"}, {"children"}).Some? {
      var f := heap(v.ref).fields;
      IdentExactly(f["id"]);
      IdIsText(f["id"]);
      TypeExactly(f["type"], head.kind);
      PropsExactly(heap, head.kind, f["props"], media, head.props);
    }
  }

  lemma ListExactly(heap: Heap, v: Js, list: Js, kind: NodeType, children: Option<seq<Js>>)
    requires ExactObject(heap, v, {"id", "type", "props"}, {"children"}).Some? && list == ListOf(heap, v)
    ensures ListRead(heap, v, kind, children) <==>
      if Container(kind) then children.Some? && ChildrenOf(heap, list) == children
      else "children" !in FieldsAt(heap, v) && children == None
  {
  }

  lemma EnterExactly(heap: Heap, media: set<string>, v: Js, depth: nat, w: Walk, head: Head, children: Option<seq<Js>>)
    ensures Enterable(heap, media, v, depth, w, head, children) <==>
      var e := Enter(heap, media, v, depth, w); e.Valid? && e.value.head == head && e.value.children == children
    ensures Enterable(heap, media, v, depth, w, head, children) ==>
      Enter(heap, media, v, depth, w).value.w == After(w, [head.id], Around(heap, v, head.kind), TextOf(head.props))
  {
    hide PropsOf, HeadRead, NodeId, TypeOf, New, With, TextOf, ListRead, ChildrenOf;
    HeadExactly(heap, media, v, head);
    OneNew(w.ids, head.id);
    if ExactObject(heap, v, {"id", "type", "props"}, {"children"}).Some? {
      var f := heap(v.ref).fields;
      var list := FieldOf(f, "children");
      ListExactly(heap, v, list, head.kind, children);
      if Container(head.kind) {
        OwnNew(w.objects, v, list);
      } else {
        OwnNew(w.objects, v, Absent);
      }
    }
  }

  // ---------------------------------------------------------------- whole subtrees

  /** `n` is what `v` describes, and fits into the walk at this depth. */
  ghost predicate Visitable(heap: Heap, media: set<string>, v: Js, depth: nat, w: Walk, n: Node) {
    Describes(heap, media, v, n) && Fits(w, depth, Ids(n), Objects(heap, v, n), Height(n), TextBytes(n))
  }

  ghost predicate AllVisitable(heap: Heap, media: set<string>, items: seq<Js>, depth: nat, w: Walk, nodes: seq<Node>) {
    && AllDescribe(heap, media, items, nodes)
    && Fits(w, depth, AllIds(nodes), AllObjects(heap, items, nodes), MaxHeight(nodes), AllTextBytes(nodes))
  }

  lemma {:induction false} ManyIds(nodes: seq<Node>)
    ensures |AllIds(nodes)| >= |nodes|
  {
    if nodes != [] {
      ManyIds(nodes[1..]);
      assert |Ids(nodes[0])| >= 1;
    }
  }

  ghost predicate Returns(r: Checked<(Node, Walk)>, n: Node) { r.Valid? && r.value.0 == n }

  ghost predicate AllReturn(r: Checked<(seq<Node>, Walk)>, nodes: seq<Node>) { r.Valid? && r.value.0 == nodes }

  lemma LeafSplit(heap: Heap, media: set<string>, v: Js, depth: nat, w: Walk, n: Node)
    requires n.Leaf?
    ensures Visitable(heap, media, v, depth, w, n) <==> Enterable(heap, media, v, depth, w, n.head, None)
    ensures !Container(n.head.kind) ==> Objects(heap, v, n) == Around(heap, v, n.head.kind)
    ensures Ids(n) == [n.head.id] && TextBytes(n) == TextOf(n.head.props)
  {
    hide HeadRead, Fits, TextOf, Own, ListOf;
  }

  /** A container and its children, in turn. */
  lemma BranchSplit(heap: Heap, media: set<string>, v: Js, depth: nat, w: Walk, n: Node)
    requires n.Branch?
    ensures var items, around := Items(heap, ListOf(heap, v)), Around(heap, v, n.head.kind);
      var between := After(w, [n.head.id], around, TextOf(n.head.props));
      && (Visitable(heap, media, v, depth, w, n) <==>
            && Enterable(heap, media, v, depth, w, n.head, Some(items))
            && AllVisitable(heap, media, items, depth + 1, between, n.children))
      && (Container(n.head.kind) ==>
            After(between, AllIds(n.children), AllObjects(heap, items, n.children), AllTextBytes(n.children))
              == After(w, Ids(n), Objects(heap, v, n), TextBytes(n)))
  {
    hide HeadRead, Fits, TextOf, Own, ListOf, Items, IsList, AllDescribe, AllObjects, AllIds, After, MaxHeight, AllTextBytes;
    var list := ListOf(heap, v);
    var items, nodes := Items(heap, list), n.children;
    if Container(n.head.kind) {
      FitsBelow(w, depth, [n.head.id], AllIds(nodes), Own(v) + Own(list), AllObjects(heap, items, nodes), MaxHeight(nodes),
                TextOf(n.head.props), AllTextBytes(nodes));
      assert Own(v) + Own(list) + AllObjects(heap, items, nodes) == Objects(heap, v, n);
      ManyIds(nodes);
      DescribeCount(heap, media, items, nodes);
      FitsCount(w, depth, Ids(n), Objects(heap, v, n), Height(n), TextBytes(n));
    }
  }

  lemma DescribeCount(heap: Heap, media: set<string>, items: seq<Js>, nodes: seq<Node>)
    ensures AllDescribe(heap, media, items, nodes) ==> |items| == |nodes|
  {
  }

  lemma FitsCount(w: Walk, depth: nat, ids: seq<string>, objects: seq<Ref>, height: nat, text: nat)
    ensures Fits(w, depth, ids, objects, height, text) ==>
      && |ids| <= UI_NODES && (height > 0 ==> depth <= UI_DEPTH) && Within(After(w, ids, objects, text))
  {
    hide New, With;
  }

  lemma ListGiven(heap: Heap, media: set<string>, v: Js, depth: nat, w: Walk, head: Head, items: seq<Js>)
    ensures Enterable(heap, media, v, depth, w, head, Some(items)) ==> items == Items(heap, ListOf(heap, v)) && Container(head.kind)
  {
    hide HeadRead, Fits;
  }

  /** A subtree is returned exactly when it is what the input describes and it fits. */
  lemma {:induction false} VisitExactly(heap: Heap, media: set<string>, v: Js, depth: nat, w: Walk, n: Node)
    requires depth <= UI_DEPTH + 1 && Within(w)
    ensures Visitable(heap, media, v, depth, w, n) <==> Returns(Visit(heap, media, v, depth, w), n)
    ensures Visitable(heap, media, v, depth, w, n) ==>
      Visit(heap, media, v, depth, w).value.1 == After(w, Ids(n), Objects(heap, v, n), TextBytes(n))
    decreases n
  {
    hide Enter, Visitable, AllVisitable, Ids, AllIds, Objects, AllObjects, TextBytes, AllTextBytes, Items, ListOf, Around, After,
      TextOf, Fits, Within;
    if n.Leaf? {
      LeafSplit(heap, media, v, depth, w, n);
      EnterExactly(heap, media, v, depth, w, n.head, None);
      if Enterable(heap, media, v, depth, w, n.head, None) {
        EnterShape(heap, media, v, depth, w, n.head, None);
      }
    } else {
      var items := Items(heap, ListOf(heap, v));
      BranchSplit(heap, media, v, depth, w, n);
      EnterExactly(heap, media, v, depth, w, n.head, Some(items));
      if Enterable(heap, media, v, depth, w, n.head, Some(items)) {
        EnterShape(heap, media, v, depth, w, n.head, Some(items));
        var between := After(w, [n.head.id], Around(heap, v, n.head.kind), TextOf(n.head.props));
        AllVisitExactly(heap, media, items, depth + 1, between, n.children);
      }
      if Returns(Visit(heap, media, v, depth, w), n) {
        var given := Enter(heap, media, v, depth, w).value.children.value;
        EnterExactly(heap, media, v, depth, w, n.head, Some(given));
        ListGiven(heap, media, v, depth, w, n.head, given);
      }
    }
  }

  lemma EnterShape(heap: Heap, media: set<string>, v: Js, depth: nat, w: Walk, head: Head, children: Option<seq<Js>>)
    requires Enterable(heap, media, v, depth, w, head, children)
    ensures depth <= UI_DEPTH && Within(After(w, [head.id], Around(heap, v, head.kind), TextOf(head.props)))
    ensures Container(head.kind) <==> children.Some?
  {
    hide HeadRead, Fits, TextOf, Around, After, Within;
    FitsCount(w, depth, [head.id], Around(heap, v, head.kind), 1, TextOf(head.props));
  }

  lemma AllSplit(heap: Heap, media: set<string>, items: seq<Js>, depth: nat, w: Walk, nodes: seq<Node>)
    requires items != [] && nodes != []
    ensures var after := After(w, Ids(nodes[0]), Objects(heap, items[0], nodes[0]), TextBytes(nodes[0]));
      && (AllVisitable(heap, media, items, depth, w, nodes) <==>
            && Visitable(heap, media, items[0], depth, w, nodes[0])
            && AllVisitable(heap, media, items[1..], depth, after, nodes[1..]))
      && (After(after, AllIds(nodes[1..]), AllObjects(heap, items[1..], nodes[1..]), AllTextBytes(nodes[1..]))
          == After(w, AllIds(nodes), AllObjects(heap, items, nodes), AllTextBytes(nodes)))
      && (Visitable(heap, media, items[0], depth, w, nodes[0]) ==> Within(after))
  {
    hide Describes, Fits, Ids, Objects, TextBytes, Height, After, Within;
    var first, rest := nodes[0], nodes[1..];
    FitsAppend(w, depth, Ids(first), AllIds(rest), Objects(heap, items[0], first), AllObjects(heap, items[1..], rest),
               Height(first), MaxHeight(rest), TextBytes(first), AllTextBytes(rest));
    FitsCount(w, depth, Ids(first), Objects(heap, items[0], first), Height(first), TextBytes(first));
  }

  lemma NoneFit(heap: Heap, items: seq<Js>, depth: nat, w: Walk)
    requires depth <= UI_DEPTH + 1 && Within(w)
    ensures Fits(w, depth, [], AllObjects(heap, items, []), 0, 0) && After(w, [], AllObjects(heap, items, []), 0) == w
  {
    assert With(w.ids, []) == w.ids && With(w.objects, []) == w.objects;
  }

  lemma {:induction false} AllVisitExactly(heap: Heap, media: set<string>, items: seq<Js>, depth: nat, w: Walk, nodes: seq<Node>)
    requires depth <= UI_DEPTH + 1 && Within(w)
    ensures AllVisitable(heap, media, items, depth, w, nodes) <==> AllReturn(VisitAll(heap, media, items, depth, w), nodes)
    ensures AllVisitable(heap, media, items, depth, w, nodes) ==>
      VisitAll(heap, media, items, depth, w).value.1 == After(w, AllIds(nodes), AllObjects(heap, items, nodes), AllTextBytes(nodes))
    decreases nodes
  {
    hide Visit, Visitable, Ids, Objects, TextBytes, Height, After, Fits, Within, Describes;
    if nodes == [] {
      NoneFit(heap, items, depth, w);
    } else if items != [] {
      hide AllVisitable, AllDescribe, AllIds, AllObjects, AllTextBytes;
      var first, rest := nodes[0], nodes[1..];
      assert nodes == [first] + rest;
      AllSplit(heap, media, items, depth, w, nodes);
      VisitExactly(heap, media, items[0], depth, w, first);
      if Visitable(heap, media, items[0], depth, w, first) {
        var after := After(w, Ids(first), Objects(heap, items[0], first), TextBytes(first));
        AllVisitExactly(heap, media, items[1..], depth, after, rest);
      }
      AllReturnSplit(heap, media, items, depth, w, nodes);
    }
  }

  lemma AllReturnSplit(heap: Heap, media: set<string>, items: seq<Js>, depth: nat, w: Walk, nodes: seq<Node>)
    requires depth <= UI_DEPTH + 1 && items != [] && nodes != []
    ensures AllReturn(VisitAll(heap, media, items, depth, w), nodes) <==>
      && Returns(Visit(heap, media, items[0], depth, w), nodes[0])
      && AllReturn(VisitAll(heap, media, items[1..], depth, Visit(heap, media, items[0], depth, w).value.1), nodes[1..])
  {
    hide Visit;
    var first := Visit(heap, media, items[0], depth, w);
    if first.Valid? {
      var others := VisitAll(heap, media, items[1..], depth, first.value.1);
      if others.Valid? {
        assert ([first.value.0] + others.value.0)[1..] == others.value.0;
        assert nodes == [nodes[0]] + nodes[1..];
      }
    }
  }

  /**
   * ValidateUiTree returns `root` exactly when the input describes it, it is a screen, no identifier and no object is
   * used twice, and it is within the limits on nodes, depth and text.
   */
  lemma TreeExactly(heap: Heap, media: set<string>, v: Js, root: Node)
    ensures ValidateTree(heap, media, v) == Valid(root) <==>
      && Describes(heap, media, v, root) && root.head.kind == Screen
      && New(Ids(root), {}) && New(Objects(heap, v, root), {})
      && |Ids(root)| <= 1_024 && Height(root) <= 32 && TextBytes(root) <= 262_144
  {
    hide Visit, Describes, New, Ids, Objects, Height, TextBytes;
    VisitExactly(heap, media, v, 1, START, root);
  }

  // ---------------------------------------------------------------- media that was not granted

  function Asked(p: Props): set<string> { if p.MediaProps? then {p.handle} else {} }

  /** The media handles a tree shows. */
  function Handles(n: Node): set<string>
    decreases n
  {
    Asked(n.head.props) + if n.Leaf? then {} else AllHandles(n.children)
  }

  function AllHandles(nodes: seq<Node>): set<string>
    decreases nodes
  {
    if nodes == [] then {} else Handles(nodes[0]) + AllHandles(nodes[1..])
  }

  lemma PropsUnder(heap: Heap, t: NodeType, raw: Js, media: set<string>, all: set<string>, p: Props)
    requires PropsOf(heap, t, raw, all) == Valid(p) && media <= all
    ensures PropsOf(heap, t, raw, media) == if Asked(p) <= media then Valid(p) else Refused(CapabilityDenied)
  {
    hide Utf8, Bounded, NodeId, EnumOr, FlagOr, ResourceName;
  }

  lemma EnterUnder(heap: Heap, media: set<string>, all: set<string>, v: Js, depth: nat, w: Walk)
    requires Enter(heap, all, v, depth, w).Valid? && media <= all
    ensures var e := Enter(heap, all, v, depth, w).value;
      Enter(heap, media, v, depth, w) == if Asked(e.head.props) <= media then Valid(e) else Refused(CapabilityDenied)
  {
    hide PropsOf, TextOf, NodeId, TypeOf, ChildrenOf, Asked;
    var f := ExactObject(heap, v, {"id", "type", "props"}, {"children"}).value;
    var e := Enter(heap, all, v, depth, w).value;
    PropsUnder(heap, e.head.kind, FieldOf(f, "props"), media, all, e.head.props);
  }

  lemma {:induction false} VisitUnder(heap: Heap, media: set<string>, all: set<string>, v: Js, depth: nat, w: Walk)
    requires depth <= UI_DEPTH + 1 && Visit(heap, all, v, depth, w).Valid? && media <= all
    ensures Visit(heap, media, v, depth, w) ==
      if Handles(Visit(heap, all, v, depth, w).value.0) <= media then Visit(heap, all, v, depth, w) else Refused(CapabilityDenied)
    decreases UI_DEPTH + 1 - depth, 0
  {
    hide Enter, Asked;
    EnterUnder(heap, media, all, v, depth, w);
    EnterDepth(heap, all, v, depth, w);
    var e := Enter(heap, all, v, depth, w).value;
    if e.children.Some? {
      VisitAllUnder(heap, media, all, e.children.value, depth + 1, e.w);
    }
  }

  lemma {:induction false} VisitAllUnder(heap: Heap, media: set<string>, all: set<string>, items: seq<Js>, depth: nat, w: Walk)
    requires depth <= UI_DEPTH + 1 && VisitAll(heap, all, items, depth, w).Valid? && media <= all
    ensures VisitAll(heap, media, items, depth, w) ==
      if AllHandles(VisitAll(heap, all, items, depth, w).value.0) <= media then VisitAll(heap, all, items, depth, w)
      else Refused(CapabilityDenied)
    decreases UI_DEPTH + 1 - depth, 1, |items|
  {
    hide Visit, Handles;
    if items != [] {
      VisitUnder(heap, media, all, items[0], depth, w);
      var (first, between) := Visit(heap, all, items[0], depth, w).value;
      VisitAllUnder(heap, media, all, items[1..], depth, between);
      var others := VisitAll(heap, all, items[1..], depth, between).value.0;
      assert ([first] + others)[0] == first && ([first] + others)[1..] == others;
    }
  }

  /** A tree that only lacks grants is accepted exactly when its handles are granted, and otherwise refused for that. */
  lemma UngrantedHandle(heap: Heap, media: set<string>, all: set<string>, v: Js)
    requires ValidateTree(heap, all, v).Valid? && media <= all
    ensures var root := ValidateTree(heap, all, v).value;
      ValidateTree(heap, media, v) == if Handles(root) <= media then Valid(root) else Refused(CapabilityDenied)
  {
    hide Visit, Handles;
    VisitUnder(heap, media, all, v, 1, START);
  }
}
