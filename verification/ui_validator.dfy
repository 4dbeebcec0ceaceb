/** validateUiTree as it runs: an explicit stack, counters, sets of what was seen, one text budget. */
module UiValidators {
  import opened Wire
  import opened Options
  import opened UiContract
  import opened UiTree

  class TextBudget {
    var bytes: nat

    constructor ()
      ensures bytes == 0
    {
      bytes := 0;
    }

    method Charge(s: string) returns (ok: bool)
      modifies this
      ensures bytes == old(bytes) + |Utf8(s)| && (ok <==> bytes <= UI_TEXT_BYTES)
    {
      bytes := bytes + |Utf8(s)|;
      ok := bytes <= UI_TEXT_BYTES;
    }
  }

  /** The options of a select: shape, uniqueness and text, left to right. */
  method ValidateChoices(heap: Heap, items: seq<Js>, budget: TextBudget) returns (r: Option<seq<Choice>>)
    requires budget.bytes <= UI_TEXT_BYTES
    modifies budget
    ensures r.Some? <==> ChoicesOf(heap, items).Some? && old(budget.bytes) + ChoicesText(ChoicesOf(heap, items).value) <= UI_TEXT_BYTES
    ensures r.Some? ==> r == ChoicesOf(heap, items) && budget.bytes == old(budget.bytes) + ChoicesText(r.value)
  {
    hide ChoiceOf, ChoicesOf, ChoicesText, Named;
    var seen: set<string> := {};
    var options: seq<Choice> := [];
    NoChoices(heap);
    for i := 0 to |items|
      invariant ChoicesOf(heap, items[..i]) == Some(options)
      invariant forall s :: s in seen <==> Named(options, s)
      invariant budget.bytes == old(budget.bytes) + ChoicesText(options) <= UI_TEXT_BYTES
    {
      NextChoice(heap, items, i, options);
      var option := ChoiceOf(heap, items[i]);
      if option == None || option.value.value in seen {
        ChoicesStayRefused(heap, items, i + 1);
        return None;
      }
      var ok := budget.Charge(option.value.name);
      ghost var before := options;
      options := options + [option.value];
      forall s ensures Named(options, s) <==> Named(before, s) || s == option.value.value {
        NamedAppend(before, option.value, s);
      }
      seen := seen + {option.value.value};
      if !ok {
        ChoicesTextGrows(heap, items, i + 1);
        return None;
      }
    }
    assert items[..|items|] == items;
    r := Some(options);
  }

  lemma NoChoices(heap: Heap)
    ensures ChoicesOf(heap, []) == Some([]) && ChoicesText([]) == 0 && forall s :: !Named([], s)
  {
  }

  lemma NextChoice(heap: Heap, items: seq<Js>, i: nat, options: seq<Choice>)
    requires i < |items| && ChoicesOf(heap, items[..i]) == Some(options)
    ensures var next := ChoiceOf(heap, items[i]);
      && ChoicesOf(heap, items[..i + 1])
         == (if next == None || Named(options, next.value.value) then None else Some(options + [next.value]))
      && (next.Some? ==> ChoicesText(options + [next.value]) == ChoicesText(options) + |Utf8(next.value.name)|)
  {
    hide ChoiceOf, Named;
    assert items[..i + 1][..i] == items[..i];
    var next := ChoiceOf(heap, items[i]);
    if next.Some? {
      assert (options + [next.value])[..|options|] == options;
    }
  }

  lemma NamedAppend(options: seq<Choice>, last: Choice, s: string)
    ensures Named(options + [last], s) <==> Named(options, s) || s == last.value
  {
    if Named(options, s) {
      var i :| 0 <= i < |options| && options[i].value == s;
      assert (options + [last])[i].value == s;
    }
    assert (options + [last])[|options|] == last;
  }

  lemma {:induction false} ChoicesStayRefused(heap: Heap, items: seq<Js>, k: nat)
    requires k <= |items| && ChoicesOf(heap, items[..k]) == None
    ensures ChoicesOf(heap, items) == None
    decreases |items| - k
  {
    if k < |items| {
      assert items[..k + 1][..k] == items[..k];
      ChoicesStayRefused(heap, items, k + 1);
    } else {
      assert items[..k] == items;
    }
  }

  lemma {:induction false} ChoicesTextGrows(heap: Heap, items: seq<Js>, k: nat)
    requires k <= |items| && ChoicesOf(heap, items[..k]).Some?
    ensures ChoicesOf(heap, items).Some? ==>
      ChoicesText(ChoicesOf(heap, items).value) >= ChoicesText(ChoicesOf(heap, items[..k]).value)
    decreases |items| - k
  {
    if k < |items| {
      assert items[..k + 1][..k] == items[..k];
      if ChoicesOf(heap, items[..k + 1]) == None {
        ChoicesStayRefused(heap, items, k + 1);
      } else {
        var options := ChoicesOf(heap, items[..k + 1]).value;
        assert options[..|options| - 1] == ChoicesOf(heap, items[..k]).value;
        ChoicesTextGrows(heap, items, k + 1);
      }
    } else {
      assert items[..k] == items;
    }
  }

  /** The one text of a node type that has one. */
  function OnlyText(p: Props): string {
    match p
    case ScreenProps(title) => title
    case WordsProps(text, _, _) => text
    case ButtonProps(name, _, _, _, _) => name
    case ToggleProps(name, _, _, _, _) => name
    case InputProps(name, _, _, _, _, _, _) => name
    case ProgressProps(name, _) => name
    case MediaProps(name, _) => name
    case _ => ""
  }

  ghost predicate Charged(spec: Checked<(Props, nat)>, r: Checked<Props>, bytes: nat) {
    match spec
    case Refused(error) => r == Refused(error)
    case Valid((p, total)) => r == Valid(p) && bytes == total
  }

  method ValidateSelect(heap: Heap, raw: Js, media: set<string>, budget: TextBudget) returns (r: Checked<Props>)
    requires budget.bytes <= UI_TEXT_BYTES
    modifies budget
    ensures Charged(ValidateProps(heap, Select, raw, media, old(budget.bytes)), r, budget.bytes)
  {
    hide ChoicesOf, ChoicesText;
    var record := ExactObject(heap, raw, {"label", "value", "options", "handler"}, {"disabled", "pending"});
    if record == None {
      return Refused(RenderInvalid);
    }
    var f := record.value;
    var items := DenseArray(heap, FieldOf(f, "options"), SELECT_OPTIONS);
    if items == None {
      return Refused(RenderInvalid);
    }
    var options := ValidateChoices(heap, items.value, budget);
    if options == None {
      return Refused(RenderInvalid);
    }
    var value := FieldOf(f, "value");
    var disabled, pending := FlagOr(FieldOf(f, "disabled")), FlagOr(FieldOf(f, "pending"));
    if !Bounded(value, 256) || !Named(options.value, value.s) || !Bounded(FieldOf(f, "label"), TEXT_BYTES)
      || !NodeId(FieldOf(f, "handler")) || disabled == None || pending == None
    {
      return Refused(RenderInvalid);
    }
    var ok := budget.Charge(FieldOf(f, "label").s);
    if !ok {
      return Refused(RenderInvalid);
    }
    r := Valid(SelectProps(
      FieldOf(f, "label").s, value.s, options.value, FieldOf(f, "handler").s, disabled.value, pending.value));
  }

  method ValidateNodeProps(heap: Heap, t: NodeType, raw: Js, media: set<string>, budget: TextBudget) returns (r: Checked<Props>)
    requires budget.bytes <= UI_TEXT_BYTES
    modifies budget
    ensures Charged(ValidateProps(heap, t, raw, media, old(budget.bytes)), r, budget.bytes)
  {
    hide PropsOf, Utf8, ChoicesText;
    if t == Select {
      r := ValidateSelect(heap, raw, media, budget);
      return;
    }
    r := PropsOf(heap, t, raw, media);
    if r.Refused? {
      return;
    }
    NeverSelect(heap, t, raw, media);
    var ok, p := true, r.value;
    if p.SectionProps? || p.StatusProps? {
      var detail := if p.SectionProps? then p.description else p.detail;
      if detail.Some? {
        ok := budget.Charge(detail.value);
      }
      if ok {
        ok := budget.Charge(if p.SectionProps? then p.heading else p.name);
      }
    } else if !p.StackProps? && !p.GridProps? {
      ok := budget.Charge(OnlyText(p));
    }
    if !ok {
      r := Refused(RenderInvalid);
    }
  }

  lemma NeverSelect(heap: Heap, t: NodeType, raw: Js, media: set<string>)
    requires t != Select && PropsOf(heap, t, raw, media).Valid?
    ensures !PropsOf(heap, t, raw, media).value.SelectProps?
  {
  }

  // ---------------------------------------------------------------- the loop

  function Close(p: Partial): Option<Node> {
    match p
    case Hole => None
    case Closed(head) => Some(Leaf(head))
    case Open(head, children) =>
      match CloseAll(children)
      case None => None
      case Some(nodes) => Some(Branch(head, nodes))
  }

  function CloseAll(children: seq<Partial>): Option<seq<Node>> {
    if children == [] then Some([])
    else
      match (Close(children[0]), CloseAll(children[1..]))
      case (Some(first), Some(others)) => Some([first] + others)
      case _ => None
  }

  lemma {:induction false} CloseFull(n: Node)
    ensures Close(Full(n)) == Some(n)
  {
    if n.Branch? {
      CloseFullAll(n.children);
    }
  }

  lemma {:induction false} CloseFullAll(nodes: seq<Node>)
    ensures CloseAll(FullAll(nodes)) == Some(nodes)
  {
    if nodes != [] {
      CloseFull(nodes[0]);
      CloseFullAll(nodes[1..]);
      assert FullAll(nodes)[0] == Full(nodes[0]) && FullAll(nodes)[1..] == FullAll(nodes[1..]);
      assert [nodes[0]] + nodes[1..] == nodes;
    }
  }

  /** Everything popped and written: the recursive definition's tree, or its refusal. */
  lemma FinishIsVisit(heap: Heap, media: set<string>, v: Js)
    ensures Finish(heap, media, [Entry(v, 1, [])], START, Hole)
         == match Visit(heap, media, v, 1, START)
            case Refused(error) => Refused(error)
            case Valid((root, _)) => Valid(Full(root))
  {
    hide Visit;
    var stack := [Entry(v, 1, [])];
    assert stack[..0] == [];
    if Visit(heap, media, v, 1, START).Valid? {
      var root := Visit(heap, media, v, 1, START).value.0;
      assert SetAt(Hole, [], Full(root)) == Full(root);
    }
  }

  /** The head of one popped node: everything that happens to it before its children are pushed. */
  method EnterNode(
    heap: Heap, media: set<string>, entry: Entry, nodes: nat, ids: set<string>, objects: set<Ref>, budget: TextBudget)
    returns (r: Checked<Entered>)
    requires budget.bytes <= UI_TEXT_BYTES
    modifies budget
    ensures r == Enter(heap, media, entry.input, entry.depth, Walk(nodes, old(budget.bytes), ids, objects))
    ensures r.Valid? ==> budget.bytes == r.value.w.bytes <= UI_TEXT_BYTES
  {
    hide ValidateProps, ChildrenOf, TypeOf, Utf8;
    if entry.depth > UI_DEPTH {
      return Refused(RenderInvalid);
    }
    var record := ExactObject(heap, entry.input, {"id", "type", "props"}, {"children"});
    if record == None || entry.input.ref in objects || nodes >= UI_NODES {
      return Refused(RenderInvalid);
    }
    var f := record.value;
    var seen := objects + {entry.input.ref};
    var id, kind := FieldOf(f, "id"), TypeOf(FieldOf(f, "type"));
    if !NodeId(id) || id.s in ids || kind == None {
      return Refused(RenderInvalid);
    }
    PropsBound(heap, kind.value, FieldOf(f, "props"), media, budget.bytes);
    var props := ValidateNodeProps(heap, kind.value, FieldOf(f, "props"), media, budget);
    if props.Refused? {
      return Refused(props.error);
    }
    var head := Head(id.s, kind.value, props.value);
    if Container(kind.value) {
      var list := FieldOf(f, "children");
      var children := ChildrenOf(heap, list);
      if children == None || (list.Object? && list.ref in seen) {
        return Refused(RenderInvalid);
      }
      return Valid(Entered(head, children, Walk(nodes + 1, budget.bytes, ids + {id.s}, Remember(seen, list))));
    }
    if "children" in f {
      return Refused(RenderInvalid);
    }
    r := Valid(Entered(head, None, Walk(nodes + 1, budget.bytes, ids + {id.s}, seen)));
  }

  lemma PropsBound(heap: Heap, t: NodeType, raw: Js, media: set<string>, budget: nat)
    ensures ValidateProps(heap, t, raw, media, budget).Valid? ==> ValidateProps(heap, t, raw, media, budget).value.1 <= UI_TEXT_BYTES
  {
    hide PropsOf;
  }

  /** The explicit stack computes exactly what the recursive definition does, refusals included. */
  method ValidateUiTree(heap: Heap, media: set<string>, value: Js) returns (r: Checked<Node>)
    ensures r == ValidateTree(heap, media, value)
  {
    hide Enter, Visit, Finish, SetAt;
    var root := Hole;
    var stack := [Entry(value, 1, [])];
    var seenObjects: set<Ref> := {};
    var seenIds: set<string> := {};
    var budget := new TextBudget();
    var nodeCount: nat := 0;
    FinishIsVisit(heap, media, value);
    ghost var goal := Finish(heap, media, stack, START, Hole);
    while stack != []
      invariant Bound(stack) && budget.bytes <= UI_TEXT_BYTES && nodeCount <= UI_NODES
      invariant Finish(heap, media, stack, Walk(nodeCount, budget.bytes, seenIds, seenObjects), root) == goal
      invariant fresh(budget)
      decreases UI_NODES - nodeCount
    {
      ghost var before := Walk(nodeCount, budget.bytes, seenIds, seenObjects);
      var entry := stack[|stack| - 1];
      TurnKeeps(heap, media, stack, before, root);
      EnterCounts(heap, media, entry.input, entry.depth, before);
      stack := stack[..|stack| - 1];
      var entered := EnterNode(heap, media, entry, nodeCount, seenIds, seenObjects, budget);
      if entered.Refused? {
        return Refused(entered.error);
      }
      var e := entered.value;
      nodeCount, seenIds, seenObjects := e.w.nodes, e.w.ids, e.w.objects;
      if e.children == None {
        root := SetAt(root, entry.path, Closed(e.head));
      } else {
        var children := e.children.value;
        root := SetAt(root, entry.path, Open(e.head, Holes(|children|)));
        ghost var rest := stack;
        var index: nat := |children|;
        assert rest + Pushed(children, entry.depth + 1, entry.path, index) == rest;
        while index > 0
          invariant index <= |children|
          invariant stack == rest + Pushed(children, entry.depth + 1, entry.path, index)
        {
          index := index - 1;
          stack := stack + [Entry(children[index], entry.depth + 1, entry.path + [index])];
        }
      }
    }
    FinishEmpty(heap, media, Walk(nodeCount, budget.bytes, seenIds, seenObjects), root);
    var closed := Close(root);
    if Visit(heap, media, value, 1, START).Valid? {
      CloseFull(Visit(heap, media, value, 1, START).value.0);
    }
    if closed == None || closed.value.head.kind != Screen {
      return Refused(RenderInvalid);
    }
    r := Valid(closed.value);
  }

  lemma FinishEmpty(heap: Heap, media: set<string>, w: Walk, root: Partial)
    ensures Finish(heap, media, [], w, root) == Valid(root)
  {
  }

  lemma EnterCounts(heap: Heap, media: set<string>, v: Js, depth: nat, w: Walk)
    ensures Enter(heap, media, v, depth, w).Valid? ==>
      Enter(heap, media, v, depth, w).value.w.nodes == w.nodes + 1 <= UI_NODES && depth <= UI_DEPTH
  {
    hide ValidateProps, NodeId, ChildrenOf;
  }
}
