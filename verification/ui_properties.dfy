/** The properties of every node type as one table of rules and defaults, and that validation reads exactly that table. */
module UiProperties {
  import opened Wire
  import opened Names
  import opened Options
  import opened UiContract
  import opened UiRoundTrip
  import opened Utf8Text

  // ---------------------------------------------------------------- text by characters

  function Scalars(s: string): (cs: seq<Scalar>)
    ensures |cs| == |s| && forall i :: 0 <= i < |s| ==> cs[i] == s[i] as int
  {
    seq(|s|, i requires 0 <= i < |s| => s[i] as int)
  }

  lemma CharIsScalar(c: char)
    ensures Utf8Char(c) == EncodeScalar(c as int)
  {
    var n := c as int;
    assert n / 0x40 / 0x40 == n / 0x1000;
    assert n / 0x40 / 0x40 / 0x40 == n / 0x4_0000;
    assert n / 0x4_0000 % 0x10 == n / 0x4_0000;
  }

  lemma {:induction false} Utf8IsText(s: string)
    ensures Utf8(s) == EncodeText(Scalars(s))
  {
    hide Utf8Char, EncodeScalar;
    if s != [] {
      CharIsScalar(s[0]);
      Utf8IsText(s[1..]);
      assert Scalars(s)[1..] == Scalars(s[1..]);
    }
  }

  /** Some text, within its bytes, with no control character in it. */
  predicate Phrase(v: Js, most: nat) {
    v.Text? && v.s != "" && |EncodeText(Scalars(v.s))| <= most && forall i :: 0 <= i < |v.s| ==> !Control(v.s[i] as int)
  }

  lemma PhraseExactly(v: Js, most: nat)
    ensures Bounded(v, most) <==> Phrase(v, most)
  {
    hide Utf8, EncodeText, ContainsControl, Control;
    if v.Text? {
      Utf8IsText(v.s);
      ControlsExactly(Scalars(v.s));
    }
  }

  predicate IdChar(c: char) { Letter(c) || '0' <= c <= '9' || c == '.' || c == '_' || c == ':' || c == '-' }

  /** [A-Za-z][A-Za-z0-9._:-]{0,63}, and nothing else asked. */
  predicate Ident(v: Js) {
    v.Text? && 1 <= |v.s| <= 64 && Letter(v.s[0]) && forall i :: 0 <= i < |v.s| ==> IdChar(v.s[i])
  }

  lemma {:induction false} AsciiLength(cs: seq<Scalar>)
    requires forall i :: 0 <= i < |cs| ==> cs[i] < 0x80
    ensures |EncodeText(cs)| == |cs|
  {
    if cs != [] {
      AsciiLength(cs[1..]);
    }
  }

  lemma IdentExactly(v: Js)
    ensures NodeId(v) <==> Ident(v)
  {
    hide Bounded, EncodeText, Utf8;
    PhraseExactly(v, 64);
    if Ident(v) {
      assert forall i :: 0 <= i < |v.s| ==> Scalars(v.s)[i] < 0x80;
      AsciiLength(Scalars(v.s));
      assert Bounded(v, 64);
    }
  }

  // ---------------------------------------------------------------- the table

  datatype Rule =
    | Says(most: nat) | Holds(most: nat) | Names | Word(allowed: set<string>) | Bit
    | Count(most: nat) | Fraction | Handle | Menu

  function Rules(t: NodeType): map<string, Rule> {
    match t
    case Screen => map["title" := Says(8_192)]
    case Stack =>
      map["direction" := Word({"vertical", "horizontal"}), "gap" := Word({"none", "small", "medium", "large"}),
          "align" := Word({"start", "center", "end", "stretch"})]
    case Grid => map["columns" := Count(6), "gap" := Word({"none", "small", "medium", "large"})]
    case Section => map["heading" := Says(8_192), "description" := Says(8_192)]
    case Words =>
      map["text" := Says(8_192), "tone" := Word({"default", "muted", "positive", "warning", "critical"}),
          "emphasis" := Word({"normal", "strong"})]
    case Status =>
      map["label" := Says(8_192), "detail" := Says(8_192),
          "state" := Word({"idle", "pending", "accepted", "applied", "failed", "stale", "outcome_unknown"})]
    case Button =>
      map["label" := Says(8_192), "handler" := Names, "variant" := Word({"primary", "secondary", "danger"}),
          "disabled" := Bit, "pending" := Bit]
    case Toggle => map["label" := Says(8_192), "value" := Bit, "handler" := Names, "disabled" := Bit, "pending" := Bit]
    case Input =>
      map["label" := Says(8_192), "value" := Holds(16_384), "handler" := Names,
          "input_type" := Word({"text", "number", "email", "search"}), "max_length" := Count(16_384),
          "disabled" := Bit, "pending" := Bit]
    case Select =>
      map["label" := Says(8_192), "value" := Says(256), "options" := Menu, "handler" := Names, "disabled" := Bit,
          "pending" := Bit]
    case Progress => map["label" := Says(8_192), "value" := Fraction]
    case Media => map["label" := Says(8_192), "handle" := Handle]
  }

  /** The properties that may be left out, and what is shown then. */
  function Defaults(t: NodeType): map<string, Js> {
    match t
    case Screen => map[]
    case Stack => map["direction" := Text("vertical"), "gap" := Text("medium"), "align" := Text("stretch")]
    case Grid => map["gap" := Text("medium")]
    case Section => map["description" := Absent]
    case Words => map["tone" := Text("default"), "emphasis" := Text("normal")]
    case Status => map["detail" := Absent]
    case Button => map["variant" := Text("primary"), "disabled" := Flag(false), "pending" := Flag(false)]
    case Toggle => map["disabled" := Flag(false), "pending" := Flag(false)]
    case Input =>
      map["input_type" := Text("text"), "max_length" := Number(Finite(1_024.0)), "disabled" := Flag(false),
          "pending" := Flag(false)]
    case Select => map["disabled" := Flag(false), "pending" := Flag(false)]
    case Progress => map[]
    case Media => map[]
  }

  function KindOf(p: Props): NodeType {
    match p
    case ScreenProps(_) => Screen
    case StackProps(_, _, _) => Stack
    case GridProps(_, _) => Grid
    case SectionProps(_, _) => Section
    case WordsProps(_, _, _) => Words
    case StatusProps(_, _, _) => Status
    case ButtonProps(_, _, _, _, _) => Button
    case ToggleProps(_, _, _, _, _) => Toggle
    case InputProps(_, _, _, _, _, _, _) => Input
    case SelectProps(_, _, _, _, _, _) => Select
    case ProgressProps(_, _) => Progress
    case MediaProps(_, _) => Media
  }

  function Whole(n: int): Js { Number(Finite(n as real)) }

  predicate Meets(media: set<string>, rule: Rule, v: Js) {
    match rule
    case Says(most) => Phrase(v, most)
    case Holds(most) => v.Text? && |EncodeText(Scalars(v.s))| <= most
    case Names => Ident(v)
    case Word(allowed) => v.Text? && v.s in allowed
    case Bit => v.Flag?
    case Count(most) => exists n: int :: 1 <= n <= most && v == Whole(n)
    case Fraction => v.Number? && v.n.Finite? && 0.0 <= v.n.r <= 1.0
    case Handle => Phrase(v, 256) && DottedName(Utf8(v.s)) && v.s in media
    case Menu => true
  }

  /** One property: given and within its rule, or left out and shown by its default. */
  predicate KeyRead(t: NodeType, f: map<string, Js>, media: set<string>, p: Props, k: string)
    requires k in Rules(t)
  {
    var given, shown := FieldOf(f, k), FieldOf(PropFields(p, []), k);
    if given == Absent then k in Defaults(t) && shown == Defaults(t)[k]
    else Meets(media, Rules(t)[k], given) && (Rules(t)[k] != Menu ==> shown == given)
  }

  predicate ChoiceRead(heap: Heap, v: Js, c: Choice) {
    && v.Object? && heap(v.ref) == Plain(map["value" := Text(c.value), "label" := Text(c.name)])
    && Phrase(Text(c.value), 256) && Phrase(Text(c.name), 8_192)
  }

  /** A menu: at most a hundred options in their order, no value twice, the chosen value among them. */
  ghost predicate MenuRead(heap: Heap, v: Js, options: seq<Choice>, chosen: string) {
    && v.Object? && heap(v.ref).List? && heap(v.ref).dense && |heap(v.ref).items| == |options| <= 100
    && (forall i :: 0 <= i < |options| ==> ChoiceRead(heap, heap(v.ref).items[i], options[i]))
    && (forall i, j :: 0 <= i < j < |options| ==> options[i].value != options[j].value)
    && (exists i :: 0 <= i < |options| && options[i].value == chosen)
  }

  /** A property record read by the table. */
  ghost predicate PropsRead(heap: Heap, t: NodeType, raw: Js, media: set<string>, p: Props) {
    && raw.Object? && heap(raw.ref).Plain? && KindOf(p) == t
    && var f := heap(raw.ref).fields;
      && Rules(t).Keys - Defaults(t).Keys <= f.Keys <= Rules(t).Keys
      && (forall k :: k in Rules(t) ==> KeyRead(t, f, media, p, k))
      && (t == Select ==> MenuRead(heap, FieldOf(f, "options"), p.options, p.value))
  }

  // ---------------------------------------------------------------- rules

  lemma CountExactly(v: Js, most: int)
    requires most <= MAX_SAFE
    ensures PositiveInteger(v, most) <==> exists n: int :: 1 <= n <= most && v == Whole(n)
    ensures PositiveInteger(v, most) ==> v == Whole(v.n.r.Floor)
  {
    if PositiveInteger(v, most) {
      assert v == Whole(v.n.r.Floor);
    }
  }

  /** What the code asks of one property, by its rule. */
  predicate Asks(media: set<string>, rule: Rule, v: Js) {
    match rule
    case Says(most) => Bounded(v, most)
    case Holds(most) => v.Text? && |Utf8(v.s)| <= most
    case Names => NodeId(v)
    case Word(allowed) => v.Text? && v.s in allowed
    case Bit => v.Flag?
    case Count(most) => PositiveInteger(v, most)
    case Fraction => v.Number? && v.n.Finite? && 0.0 <= v.n.r <= 1.0
    case Handle => ResourceName(v) && v.s in media
    case Menu => true
  }

  lemma AsksMeets(media: set<string>, rule: Rule, v: Js)
    requires rule.Count? ==> rule.most <= MAX_SAFE
    ensures Asks(media, rule, v) <==> Meets(media, rule, v)
  {
    hide Bounded, Phrase, NodeId, Ident, Utf8, EncodeText, PositiveInteger, DottedName;
    match rule
    case Says(most) => PhraseExactly(v, most);
    case Holds(most) => if v.Text? { Utf8IsText(v.s); }
    case Names => IdentExactly(v);
    case Count(most) => CountExactly(v, most);
    case Handle => PhraseExactly(v, 256);
    case _ =>
  }

  /** One property as the code takes it. */
  predicate KeyTaken(t: NodeType, f: map<string, Js>, media: set<string>, p: Props, k: string)
    requires k in Rules(t)
  {
    var given, shown := FieldOf(f, k), FieldOf(PropFields(p, []), k);
    if given == Absent then k in Defaults(t) && shown == Defaults(t)[k]
    else Asks(media, Rules(t)[k], given) && (Rules(t)[k] != Menu ==> shown == given)
  }

  lemma KeyTakenRead(t: NodeType, f: map<string, Js>, media: set<string>, p: Props, k: string)
    requires k in Rules(t)
    ensures KeyTaken(t, f, media, p, k) <==> KeyRead(t, f, media, p, k)
  {
    SmallCounts(t, k);
    hide Rules, Defaults, Asks, Meets, PropFields;
    AsksMeets(media, Rules(t)[k], FieldOf(f, k));
  }

  lemma SmallCounts(t: NodeType, k: string)
    requires k in Rules(t)
    ensures Rules(t)[k].Count? ==> Rules(t)[k].most <= MAX_SAFE
  {
  }

  // ---------------------------------------------------------------- menus

  predicate ChoicesRead(heap: Heap, items: seq<Js>, options: seq<Choice>) {
    && |items| == |options|
    && (forall i :: 0 <= i < |options| ==> ChoiceRead(heap, items[i], options[i]))
    && (forall i, j :: 0 <= i < j < |options| ==> options[i].value != options[j].value)
  }

  lemma ChoiceExactly(heap: Heap, v: Js, c: Choice)
    ensures ChoiceOf(heap, v) == Some(c) <==> ChoiceRead(heap, v, c)
  {
    hide Bounded, Phrase;
    PhraseExactly(Text(c.value), 256);
    PhraseExactly(Text(c.name), TEXT_BYTES);
    if v.Object? && heap(v.ref).Plain? {
      var f, whole := heap(v.ref).fields, map["value" := Text(c.value), "label" := Text(c.name)];
      assert {"value", "label"} + {} == {"value", "label"};
      if f.Keys == {"value", "label"} && f["value"] == Text(c.value) && f["label"] == Text(c.name) {
        assert f == whole;
      }
      BoundedIsText(FieldOf(f, "value"), 256);
      BoundedIsText(FieldOf(f, "label"), TEXT_BYTES);
    }
  }

  lemma BoundedIsText(v: Js, most: nat)
    ensures Bounded(v, most) ==> v.Text? && v == Text(v.s)
  {
  }

  lemma {:induction false} ChoicesExactly(heap: Heap, items: seq<Js>, options: seq<Choice>)
    ensures ChoicesOf(heap, items) == Some(options) <==> ChoicesRead(heap, items, options)
    decreases |items|
  {
    hide ChoiceOf, ChoiceRead;
    if items != [] {
      var n := |items| - 1;
      if ChoicesOf(heap, items) == Some(options) {
        ChoicesExactly(heap, items[..n], ChoicesOf(heap, items[..n]).value);
        ChoiceExactly(heap, items[n], ChoiceOf(heap, items[n]).value);
      }
      if ChoicesRead(heap, items, options) {
        ChoicesExactly(heap, items[..n], options[..n]);
        ChoiceExactly(heap, items[n], options[n]);
        assert options[..n] + [options[n]] == options;
      }
    }
  }

  lemma MenuExactly(heap: Heap, v: Js, options: seq<Choice>, chosen: string)
    ensures MenuRead(heap, v, options, chosen) <==>
      && DenseArray(heap, v, SELECT_OPTIONS).Some? && Named(options, chosen)
      && ChoicesOf(heap, DenseArray(heap, v, SELECT_OPTIONS).value) == Some(options)
  {
    hide ChoicesOf, ChoiceRead;
    if v.Object? && heap(v.ref).List? {
      ChoicesExactly(heap, heap(v.ref).items, options);
    }
  }

  // ---------------------------------------------------------------- the table, type by type

  /** What the code reads out of a record with the right keys. */
  ghost predicate PropsTaken(heap: Heap, t: NodeType, raw: Js, media: set<string>, p: Props) {
    && raw.Object? && heap(raw.ref).Plain? && KindOf(p) == t
    && var f := heap(raw.ref).fields;
      && Rules(t).Keys - Defaults(t).Keys <= f.Keys <= Rules(t).Keys
      && (forall k :: k in Rules(t) ==> KeyTaken(t, f, media, p, k))
      && (t == Select ==>
            && DenseArray(heap, FieldOf(f, "options"), SELECT_OPTIONS).Some? && Named(p.options, p.value)
            && ChoicesOf(heap, DenseArray(heap, FieldOf(f, "options"), SELECT_OPTIONS).value) == Some(p.options))
  }

  lemma TakenIsRead(heap: Heap, t: NodeType, raw: Js, media: set<string>, p: Props)
    ensures PropsTaken(heap, t, raw, media, p) <==> PropsRead(heap, t, raw, media, p)
  {
    hide KeyTaken, KeyRead, Rules, Defaults, MenuRead, ChoicesOf, DenseArray, Named;
    if raw.Object? && heap(raw.ref).Plain? && KindOf(p) == t {
      var f := heap(raw.ref).fields;
      forall k | k in Rules(t) ensures KeyTaken(t, f, media, p, k) <==> KeyRead(t, f, media, p, k) {
        KeyTakenRead(t, f, media, p, k);
      }
      if t == Select {
        MenuExactly(heap, FieldOf(f, "options"), p.options, p.value);
      }
    }
  }

  lemma SaysKey(t: NodeType, f: map<string, Js>, media: set<string>, p: Props, k: string, most: nat, said: string)
    requires k in Rules(t) && Rules(t)[k] == Says(most) && k !in Defaults(t) && FieldOf(PropFields(p, []), k) == Text(said)
    ensures KeyTaken(t, f, media, p, k) <==> Bounded(FieldOf(f, k), most) && FieldOf(f, k).s == said
    ensures Bounded(FieldOf(f, k), most) ==> FieldOf(f, k).Text?
  {
    hide Bounded, Rules, Defaults, PropFields;
    BoundedIsText(FieldOf(f, k), most);
  }

  lemma NoteKey(t: NodeType, f: map<string, Js>, media: set<string>, p: Props, k: string, said: Option<string>)
    requires k in Rules(t) && Rules(t)[k] == Says(TEXT_BYTES) && k in Defaults(t) && Defaults(t)[k] == Absent
    requires FieldOf(PropFields(p, []), k) == (if said == None then Absent else Text(said.value))
    ensures KeyTaken(t, f, media, p, k) <==> OptionalBounded(FieldOf(f, k), TEXT_BYTES) && OptionalString(FieldOf(f, k)) == said
  {
    hide Bounded, Rules, Defaults, PropFields;
    BoundedIsText(FieldOf(f, k), TEXT_BYTES);
  }

  lemma NameKey(t: NodeType, f: map<string, Js>, media: set<string>, p: Props, k: string, said: string)
    requires k in Rules(t) && Rules(t)[k] == Names && k !in Defaults(t) && FieldOf(PropFields(p, []), k) == Text(said)
    ensures KeyTaken(t, f, media, p, k) <==> NodeId(FieldOf(f, k)) && FieldOf(f, k).s == said
    ensures NodeId(FieldOf(f, k)) ==> FieldOf(f, k).Text?
  {
    hide NodeId, Rules, Defaults, PropFields;
    IdIsText(FieldOf(f, k));
  }

  /** A property with no default that is taken as it is. */
  lemma OwnKey(t: NodeType, f: map<string, Js>, media: set<string>, p: Props, k: string, shown: Js)
    requires k in Rules(t) && k !in Defaults(t) && FieldOf(PropFields(p, []), k) == shown
    requires Rules(t)[k].Holds? || Rules(t)[k].Word? || Rules(t)[k].Bit? || Rules(t)[k].Fraction? || Rules(t)[k].Handle?
    ensures KeyTaken(t, f, media, p, k) <==> Asks(media, Rules(t)[k], FieldOf(f, k)) && FieldOf(f, k) == shown
  {
    hide Rules, Defaults, PropFields, ResourceName;
    NameIsText(FieldOf(f, k));
  }

  lemma NameIsText(v: Js)
    ensures ResourceName(v) ==> v.Text?
  {
    hide Utf8, ContainsControl, DottedName;
  }

  lemma CountKey(t: NodeType, f: map<string, Js>, media: set<string>, p: Props, k: string, most: nat, usual: nat, shown: int)
    requires k in Rules(t) && Rules(t)[k] == Count(most) && most <= MAX_SAFE
    requires k in Defaults(t) ==> Defaults(t)[k] == Whole(usual)
    requires FieldOf(PropFields(p, []), k) == Whole(shown)
    ensures KeyTaken(t, f, media, p, k) <==>
      if FieldOf(f, k) == Absent then k in Defaults(t) && shown == usual
      else PositiveInteger(FieldOf(f, k), most) && FieldOf(f, k).n.r.Floor == shown
    ensures PositiveInteger(FieldOf(f, k), most) ==> FieldOf(f, k).Number? && FieldOf(f, k).n.Finite?
  {
    hide Rules, Defaults, PropFields, PositiveInteger, Whole, Phrase, NodeId, Bounded, ResourceName;
    var v := FieldOf(f, k);
    CountIsNumber(v, most);
    WholeInjective(shown, usual);
    CountShown(v, most, shown);
  }

  lemma CountShown(v: Js, most: nat, shown: int)
    requires most <= MAX_SAFE
    ensures PositiveInteger(v, most) ==> (v == Whole(shown) <==> v.n.r.Floor == shown)
  {
    hide Whole, PositiveInteger;
    CountExactly(v, most);
    CountIsNumber(v, most);
    if PositiveInteger(v, most) {
      WholeInjective(shown, v.n.r.Floor);
    }
  }

  lemma CountIsNumber(v: Js, most: int)
    ensures PositiveInteger(v, most) ==> v.Number? && v.n.Finite?
  {
  }

  lemma WholeInjective(a: int, b: int)
    ensures Whole(a) == Whole(b) ==> a == b
  {
    assert (a as real).Floor == a && (b as real).Floor == b;
  }

  lemma IdIsText(v: Js)
    ensures NodeId(v) ==> v.Text? && v == Text(v.s)
  {
    hide Utf8, ContainsControl;
  }

  lemma WordKey(
    t: NodeType, f: map<string, Js>, media: set<string>, p: Props, k: string, allowed: set<string>, usual: string, said: string)
    requires k in Rules(t) && Rules(t)[k] == Word(allowed) && k in Defaults(t) && Defaults(t)[k] == Text(usual)
    requires FieldOf(PropFields(p, []), k) == Text(said)
    ensures KeyTaken(t, f, media, p, k) <==> EnumOr(FieldOf(f, k), allowed, usual) == Some(said)
  {
    hide Rules, Defaults, PropFields;
  }

  lemma FlagKey(t: NodeType, f: map<string, Js>, media: set<string>, p: Props, k: string, shown: bool)
    requires k in Rules(t) && Rules(t)[k] == Bit && k in Defaults(t) && Defaults(t)[k] == Flag(false)
    requires FieldOf(PropFields(p, []), k) == Flag(shown)
    ensures KeyTaken(t, f, media, p, k) <==> FlagOr(FieldOf(f, k)) == Some(shown)
  {
    hide Rules, Defaults, PropFields;
  }

  /** The record is there, with the keys of its type. */
  ghost predicate HasKeys(heap: Heap, raw: Js, required: set<string>, optional: set<string>) {
    raw.Object? && heap(raw.ref).Plain? && required <= heap(raw.ref).fields.Keys <= required + optional
  }

  lemma ExactHasKeys(heap: Heap, raw: Js, required: set<string>, optional: set<string>)
    ensures ExactObject(heap, raw, required, optional) ==
      if HasKeys(heap, raw, required, optional) then Some(heap(raw.ref).fields) else None
  {
  }

  function Taken(heap: Heap, raw: Js): map<string, Js> {
    if raw.Object? && heap(raw.ref).Plain? then heap(raw.ref).fields else map[]
  }

  lemma ScreenKeys()
    ensures Rules(Screen).Keys == {"title"} == {"title"} + {}
    ensures Rules(Screen).Keys - Defaults(Screen).Keys == {"title"} && Defaults(Screen).Keys == {}
  {
  }

  lemma ScreenTaken(heap: Heap, raw: Js, media: set<string>, p: Props)
    ensures PropsOf(heap, Screen, raw, media) == Valid(p) <==> PropsTaken(heap, Screen, raw, media, p)
  {
    hide Bounded, NodeId, EnumOr, FlagOr, ResourceName, OptionalString, OptionalBounded, PositiveInteger;
    ExactHasKeys(heap, raw, {"title"}, {});
    ScreenKeys();
    hide ExactObject;
    var f := Taken(heap, raw);
    if HasKeys(heap, raw, {"title"}, {}) && KindOf(p) == Screen {
      SaysKey(Screen, f, media, p, "title", TEXT_BYTES, p.title);
      hide KeyTaken;
    }
  }

  lemma StackKeys()
    ensures Rules(Stack).Keys == {"direction", "gap", "align"} == {} + {"direction", "gap", "align"}
    ensures Rules(Stack).Keys - Defaults(Stack).Keys == {} && Defaults(Stack).Keys == {"direction", "gap", "align"}
  {
  }

  lemma StackTaken(heap: Heap, raw: Js, media: set<string>, p: Props)
    ensures PropsOf(heap, Stack, raw, media) == Valid(p) <==> PropsTaken(heap, Stack, raw, media, p)
  {
    hide Bounded, NodeId, EnumOr, FlagOr, ResourceName, OptionalString, OptionalBounded, PositiveInteger;
    ExactHasKeys(heap, raw, {}, {"direction", "gap", "align"});
    StackKeys();
    hide ExactObject;
    var f := Taken(heap, raw);
    if HasKeys(heap, raw, {}, {"direction", "gap", "align"}) && KindOf(p) == Stack {
      WordKey(Stack, f, media, p, "direction", {"vertical", "horizontal"}, "vertical", p.direction);
      WordKey(Stack, f, media, p, "gap", GAPS, "medium", p.gap);
      WordKey(Stack, f, media, p, "align", {"start", "center", "end", "stretch"}, "stretch", p.align);
      hide KeyTaken;
    }
  }

  lemma GridKeys()
    ensures Rules(Grid).Keys == {"columns", "gap"} == {"columns"} + {"gap"}
    ensures Rules(Grid).Keys - Defaults(Grid).Keys == {"columns"} && Defaults(Grid).Keys == {"gap"}
  {
  }

  lemma GridTaken(heap: Heap, raw: Js, media: set<string>, p: Props)
    ensures PropsOf(heap, Grid, raw, media) == Valid(p) <==> PropsTaken(heap, Grid, raw, media, p)
  {
    hide Bounded, NodeId, EnumOr, FlagOr, ResourceName, OptionalString, OptionalBounded, PositiveInteger;
    ExactHasKeys(heap, raw, {"columns"}, {"gap"});
    GridKeys();
    hide ExactObject;
    var f := Taken(heap, raw);
    if HasKeys(heap, raw, {"columns"}, {"gap"}) && KindOf(p) == Grid {
      CountKey(Grid, f, media, p, "columns", 6, 0, p.columns);
      WordKey(Grid, f, media, p, "gap", GAPS, "medium", p.gap);
      hide KeyTaken;
    }
  }

  lemma SectionKeys()
    ensures Rules(Section).Keys == {"heading", "description"} == {"heading"} + {"description"}
    ensures Rules(Section).Keys - Defaults(Section).Keys == {"heading"} && Defaults(Section).Keys == {"description"}
  {
  }

  lemma SectionTaken(heap: Heap, raw: Js, media: set<string>, p: Props)
    ensures PropsOf(heap, Section, raw, media) == Valid(p) <==> PropsTaken(heap, Section, raw, media, p)
  {
    hide Bounded, NodeId, EnumOr, FlagOr, ResourceName, OptionalString, OptionalBounded, PositiveInteger;
    ExactHasKeys(heap, raw, {"heading"}, {"description"});
    SectionKeys();
    hide ExactObject;
    var f := Taken(heap, raw);
    if HasKeys(heap, raw, {"heading"}, {"description"}) && KindOf(p) == Section {
      SaysKey(Section, f, media, p, "heading", TEXT_BYTES, p.heading);
      NoteKey(Section, f, media, p, "description", p.description);
      hide KeyTaken;
    }
  }

  lemma WordsKeys()
    ensures Rules(Words).Keys == {"text", "tone", "emphasis"} == {"text"} + {"tone", "emphasis"}
    ensures Rules(Words).Keys - Defaults(Words).Keys == {"text"} && Defaults(Words).Keys == {"tone", "emphasis"}
  {
  }

  lemma WordsTaken(heap: Heap, raw: Js, media: set<string>, p: Props)
    ensures PropsOf(heap, Words, raw, media) == Valid(p) <==> PropsTaken(heap, Words, raw, media, p)
  {
    hide Bounded, NodeId, EnumOr, FlagOr, ResourceName, OptionalString, OptionalBounded, PositiveInteger;
    ExactHasKeys(heap, raw, {"text"}, {"tone", "emphasis"});
    WordsKeys();
    hide ExactObject;
    var f := Taken(heap, raw);
    if HasKeys(heap, raw, {"text"}, {"tone", "emphasis"}) && KindOf(p) == Words {
      SaysKey(Words, f, media, p, "text", TEXT_BYTES, p.text);
      WordKey(Words, f, media, p, "tone", TONES, "default", p.tone);
      WordKey(Words, f, media, p, "emphasis", {"normal", "strong"}, "normal", p.emphasis);
      hide KeyTaken;
    }
  }

  lemma StatusKeys()
    ensures Rules(Status).Keys == {"label", "state", "detail"} == {"label", "state"} + {"detail"}
    ensures Rules(Status).Keys - Defaults(Status).Keys == {"label", "state"} && Defaults(Status).Keys == {"detail"}
  {
  }

  lemma StatusTaken(heap: Heap, raw: Js, media: set<string>, p: Props)
    ensures PropsOf(heap, Status, raw, media) == Valid(p) <==> PropsTaken(heap, Status, raw, media, p)
  {
    hide Bounded, NodeId, EnumOr, FlagOr, ResourceName, OptionalString, OptionalBounded, PositiveInteger;
    ExactHasKeys(heap, raw, {"label", "state"}, {"detail"});
    StatusKeys();
    hide ExactObject;
    var f := Taken(heap, raw);
    if HasKeys(heap, raw, {"label", "state"}, {"detail"}) && KindOf(p) == Status {
      SaysKey(Status, f, media, p, "label", TEXT_BYTES, p.name);
      NoteKey(Status, f, media, p, "detail", p.detail);
      OwnKey(Status, f, media, p, "state", Text(p.state));
      hide KeyTaken;
    }
  }

  lemma ButtonKeys()
    ensures Rules(Button).Keys == {"label", "handler", "variant", "disabled", "pending"} == {"label", "handler"} + {"variant", "disabled", "pending"}
    ensures Rules(Button).Keys - Defaults(Button).Keys == {"label", "handler"} && Defaults(Button).Keys == {"variant", "disabled", "pending"}
    ensures var r, d := Rules(Button), Defaults(Button);
      && r["disabled"] == Bit && r["pending"] == Bit && d["disabled"] == Flag(false) && d["pending"] == Flag(false)
      && r["label"] == Says(TEXT_BYTES) && r["handler"] == Names
      && r["variant"] == Word({"primary", "secondary", "danger"}) && d["variant"] == Text("primary")
  {
  }

  lemma ButtonTaken(heap: Heap, raw: Js, media: set<string>, p: Props)
    ensures PropsOf(heap, Button, raw, media) == Valid(p) <==> PropsTaken(heap, Button, raw, media, p)
  {
    hide Bounded, NodeId, EnumOr, FlagOr, ResourceName, OptionalString, OptionalBounded, PositiveInteger, Rules, Defaults;
    ExactHasKeys(heap, raw, {"label", "handler"}, {"variant", "disabled", "pending"});
    ButtonKeys();
    hide ExactObject;
    var f := Taken(heap, raw);
    if HasKeys(heap, raw, {"label", "handler"}, {"variant", "disabled", "pending"}) && KindOf(p) == Button {
      SaysKey(Button, f, media, p, "label", TEXT_BYTES, p.name);
      NameKey(Button, f, media, p, "handler", p.handler);
      WordKey(Button, f, media, p, "variant", {"primary", "secondary", "danger"}, "primary", p.variant);
      FlagKey(Button, f, media, p, "disabled", p.disabled);
      FlagKey(Button, f, media, p, "pending", p.pending);
      hide KeyTaken;
    }
  }

  lemma ToggleKeys()
    ensures Rules(Toggle).Keys == {"label", "value", "handler", "disabled", "pending"} == {"label", "value", "handler"} + {"disabled", "pending"}
    ensures Rules(Toggle).Keys - Defaults(Toggle).Keys == {"label", "value", "handler"} && Defaults(Toggle).Keys == {"disabled", "pending"}
  {
  }

  lemma ToggleTaken(heap: Heap, raw: Js, media: set<string>, p: Props)
    ensures PropsOf(heap, Toggle, raw, media) == Valid(p) <==> PropsTaken(heap, Toggle, raw, media, p)
  {
    hide Bounded, NodeId, EnumOr, FlagOr, ResourceName, OptionalString, OptionalBounded, PositiveInteger;
    ExactHasKeys(heap, raw, {"label", "value", "handler"}, {"disabled", "pending"});
    ToggleKeys();
    hide ExactObject;
    var f := Taken(heap, raw);
    if HasKeys(heap, raw, {"label", "value", "handler"}, {"disabled", "pending"}) && KindOf(p) == Toggle {
      OwnKey(Toggle, f, media, p, "value", Flag(p.on));
      SaysKey(Toggle, f, media, p, "label", TEXT_BYTES, p.name);
      NameKey(Toggle, f, media, p, "handler", p.handler);
      FlagKey(Toggle, f, media, p, "disabled", p.disabled);
      FlagKey(Toggle, f, media, p, "pending", p.pending);
      hide KeyTaken;
    }
  }

  lemma InputKeys()
    ensures Rules(Input).Keys == {"label", "value", "handler", "input_type", "max_length", "disabled", "pending"} == {"label", "value", "handler"} + {"input_type", "max_length", "disabled", "pending"}
    ensures Rules(Input).Keys - Defaults(Input).Keys == {"label", "value", "handler"} && Defaults(Input).Keys == {"input_type", "max_length", "disabled", "pending"}
    ensures var r, d := Rules(Input), Defaults(Input);
      && r["disabled"] == Bit && r["pending"] == Bit && d["disabled"] == Flag(false) && d["pending"] == Flag(false)
      && r["label"] == Says(TEXT_BYTES) && r["handler"] == Names
      && r["value"] == Holds(INPUT_BYTES) && r["max_length"] == Count(16_384) && d["max_length"] == Whole(1_024)
      && r["input_type"] == Word({"text", "number", "email", "search"}) && d["input_type"] == Text("text")
  {
  }

  lemma InputFields(f: map<string, Js>, media: set<string>, p: Props)
    ensures InputOf(Some(f)) == Valid(p) <==> KindOf(p) == Input && forall k :: k in Rules(Input) ==> KeyTaken(Input, f, media, p, k)
  {
    hide Bounded, NodeId, EnumOr, FlagOr, PositiveInteger, Rules, Defaults, Utf8, Meets, KeyRead;
    InputKeys();
    if KindOf(p) == Input {
      OwnKey(Input, f, media, p, "value", Text(p.value));
      SaysKey(Input, f, media, p, "label", TEXT_BYTES, p.name);
      NameKey(Input, f, media, p, "handler", p.handler);
      WordKey(Input, f, media, p, "input_type", {"text", "number", "email", "search"}, "text", p.inputType);
      FlagKey(Input, f, media, p, "disabled", p.disabled);
      FlagKey(Input, f, media, p, "pending", p.pending);
      CountKey(Input, f, media, p, "max_length", 16_384, 1_024, p.maxLength);
      hide KeyTaken;
    }
  }

  lemma NoInput()
    ensures InputOf(None) == Refused(RenderInvalid)
  {
  }

  lemma InputTaken(heap: Heap, raw: Js, media: set<string>, p: Props)
    ensures PropsOf(heap, Input, raw, media) == Valid(p) <==> PropsTaken(heap, Input, raw, media, p)
  {
    hide Bounded, NodeId, EnumOr, FlagOr, ResourceName, OptionalString, OptionalBounded, PositiveInteger, Rules, Defaults, KeyTaken, InputOf;
    ExactHasKeys(heap, raw, {"label", "value", "handler"}, {"input_type", "max_length", "disabled", "pending"});
    InputKeys();
    hide ExactObject;
    var f := Taken(heap, raw);
    NoInput();
    if HasKeys(heap, raw, {"label", "value", "handler"}, {"input_type", "max_length", "disabled", "pending"}) {
      InputFields(f, media, p);
    }
  }

  lemma SelectKeys()
    ensures Rules(Select).Keys == {"label", "value", "options", "handler", "disabled", "pending"} == {"label", "value", "options", "handler"} + {"disabled", "pending"}
    ensures Rules(Select).Keys - Defaults(Select).Keys == {"label", "value", "options", "handler"} && Defaults(Select).Keys == {"disabled", "pending"}
    ensures var r, d := Rules(Select), Defaults(Select);
      && r["disabled"] == Bit && r["pending"] == Bit && d["disabled"] == Flag(false) && d["pending"] == Flag(false)
      && r["label"] == Says(TEXT_BYTES) && r["handler"] == Names
      && r["value"] == Says(256) && r["options"] == Menu
  {
  }

  lemma SelectTaken(heap: Heap, raw: Js, media: set<string>, p: Props)
    ensures PropsOf(heap, Select, raw, media) == Valid(p) <==> PropsTaken(heap, Select, raw, media, p)
  {
    hide Bounded, NodeId, EnumOr, FlagOr, ResourceName, OptionalString, OptionalBounded, PositiveInteger, Rules, Defaults;
    ExactHasKeys(heap, raw, {"label", "value", "options", "handler"}, {"disabled", "pending"});
    SelectKeys();
    hide ExactObject;
    var f := Taken(heap, raw);
    if HasKeys(heap, raw, {"label", "value", "options", "handler"}, {"disabled", "pending"}) && KindOf(p) == Select {
      SaysKey(Select, f, media, p, "label", TEXT_BYTES, p.name);
      SaysKey(Select, f, media, p, "value", 256, p.value);
      NameKey(Select, f, media, p, "handler", p.handler);
      FlagKey(Select, f, media, p, "disabled", p.disabled);
      FlagKey(Select, f, media, p, "pending", p.pending);
      hide KeyTaken;
    }
  }

  lemma ProgressKeys()
    ensures Rules(Progress).Keys == {"label", "value"} == {"label", "value"} + {}
    ensures Rules(Progress).Keys - Defaults(Progress).Keys == {"label", "value"} && Defaults(Progress).Keys == {}
  {
  }

  lemma ProgressTaken(heap: Heap, raw: Js, media: set<string>, p: Props)
    ensures PropsOf(heap, Progress, raw, media) == Valid(p) <==> PropsTaken(heap, Progress, raw, media, p)
  {
    hide Bounded, NodeId, EnumOr, FlagOr, ResourceName, OptionalString, OptionalBounded, PositiveInteger;
    ExactHasKeys(heap, raw, {"label", "value"}, {});
    ProgressKeys();
    hide ExactObject;
    var f := Taken(heap, raw);
    if HasKeys(heap, raw, {"label", "value"}, {}) && KindOf(p) == Progress {
      OwnKey(Progress, f, media, p, "value", Number(Finite(p.amount)));
      SaysKey(Progress, f, media, p, "label", TEXT_BYTES, p.name);
      hide KeyTaken;
    }
  }

  lemma MediaKeys()
    ensures Rules(Media).Keys == {"label", "handle"} == {"label", "handle"} + {}
    ensures Rules(Media).Keys - Defaults(Media).Keys == {"label", "handle"} && Defaults(Media).Keys == {}
  {
  }

  lemma MediaTaken(heap: Heap, raw: Js, media: set<string>, p: Props)
    ensures PropsOf(heap, Media, raw, media) == Valid(p) <==> PropsTaken(heap, Media, raw, media, p)
  {
    hide Bounded, NodeId, EnumOr, FlagOr, ResourceName, OptionalString, OptionalBounded, PositiveInteger;
    ExactHasKeys(heap, raw, {"label", "handle"}, {});
    MediaKeys();
    hide ExactObject;
    var f := Taken(heap, raw);
    if HasKeys(heap, raw, {"label", "handle"}, {}) && KindOf(p) == Media {
      NameIsText(FieldOf(f, "handle"));
      OwnKey(Media, f, media, p, "handle", Text(p.handle));
      SaysKey(Media, f, media, p, "label", TEXT_BYTES, p.name);
      hide KeyTaken;
    }
  }

  /** Validation returns `p` exactly when the table reads `p` out of the record. */
  lemma PropsExactly(heap: Heap, t: NodeType, raw: Js, media: set<string>, p: Props)
    ensures PropsOf(heap, t, raw, media) == Valid(p) <==> PropsRead(heap, t, raw, media, p)
  {
    hide PropsOf, PropsTaken, PropsRead;
    TakenIsRead(heap, t, raw, media, p);
    match t
    case Screen => ScreenTaken(heap, raw, media, p);
    case Stack => StackTaken(heap, raw, media, p);
    case Grid => GridTaken(heap, raw, media, p);
    case Section => SectionTaken(heap, raw, media, p);
    case Words => WordsTaken(heap, raw, media, p);
    case Status => StatusTaken(heap, raw, media, p);
    case Button => ButtonTaken(heap, raw, media, p);
    case Toggle => ToggleTaken(heap, raw, media, p);
    case Input => InputTaken(heap, raw, media, p);
    case Select => SelectTaken(heap, raw, media, p);
    case Progress => ProgressTaken(heap, raw, media, p);
    case Media => MediaTaken(heap, raw, media, p);
  }

  /** A refusal names the capability exactly when a media node asks for a well-formed handle that was not granted. */
  lemma DeniedExactly(heap: Heap, t: NodeType, raw: Js, media: set<string>)
    ensures PropsOf(heap, t, raw, media) == Refused(CapabilityDenied) <==>
      && t == Media && HasKeys(heap, raw, {"label", "handle"}, {})
      && var handle := FieldOf(heap(raw.ref).fields, "handle");
        Phrase(handle, 256) && DottedName(Utf8(handle.s)) && handle.s !in media
  {
    hide Bounded, Phrase, NodeId, EnumOr, FlagOr, DottedName, OptionalBounded, PositiveInteger, Utf8, ExactObject;
    if t == Media {
      ExactHasKeys(heap, raw, {"label", "handle"}, {});
      if HasKeys(heap, raw, {"label", "handle"}, {}) {
        PhraseExactly(FieldOf(heap(raw.ref).fields, "handle"), 256);
      }
    }
  }

  // ---------------------------------------------------------------- visible text

  /** The bytes of a property that is shown as text. */
  function Said(p: Props, k: string): nat {
    var v := FieldOf(PropFields(p, []), k);
    if v.Text? then |EncodeText(Scalars(v.s))| else 0
  }

  function MenuText(options: seq<Choice>): nat {
    if options == [] then 0 else |EncodeText(Scalars(options[0].name))| + MenuText(options[1..])
  }

  lemma {:induction false} MenuTextAppend(options: seq<Choice>, last: Choice)
    ensures MenuText(options + [last]) == MenuText(options) + |EncodeText(Scalars(last.name))|
  {
    hide EncodeText;
    if options == [] {
      assert options + [last] == [last];
      assert MenuText([last][1..]) == 0;
    } else {
      MenuTextAppend(options[1..], last);
      assert (options + [last])[1..] == options[1..] + [last];
    }
  }

  lemma {:induction false} MenuTextExactly(options: seq<Choice>)
    ensures ChoicesText(options) == MenuText(options)
    decreases |options|
  {
    hide Utf8, EncodeText;
    if options != [] {
      var n := |options| - 1;
      MenuTextExactly(options[..n]);
      MenuTextAppend(options[..n], options[n]);
      Utf8IsText(options[n].name);
      assert options[..n] + [options[n]] == options;
    }
  }

  /** Everything a node shows. */
  function Shows(p: Props): nat {
    Said(p, "title") + Said(p, "heading") + Said(p, "description") + Said(p, "text") + Said(p, "label") + Said(p, "detail")
    + if p.SelectProps? then MenuText(p.options) else 0
  }

  lemma SaidBytes(s: string)
    ensures |Utf8(s)| == |EncodeText(Scalars(s))|
  {
    hide Utf8, EncodeText;
    Utf8IsText(s);
  }

  lemma ControlText(p: Props)
    requires KindOf(p) in {Button, Toggle, Input, Select, Progress, Media}
    ensures TextOf(p) == Shows(p)
  {
    hide Utf8, EncodeText, ChoicesText, MenuText, Said;
    SaidBytes(p.name);
    OnlyLabel(p);
    if p.SelectProps? {
      MenuTextExactly(p.options);
    }
  }

  lemma OnlyLabel(p: Props)
    requires KindOf(p) in {Button, Toggle, Input, Select, Progress, Media}
    ensures Said(p, "label") == |EncodeText(Scalars(p.name))|
    ensures Said(p, "title") == Said(p, "heading") == Said(p, "description") == Said(p, "text") == Said(p, "detail") == 0
  {
    hide EncodeText;
  }

  lemma PlainText(p: Props)
    requires KindOf(p) in {Screen, Stack, Grid, Section, Words, Status}
    ensures TextOf(p) == Shows(p)
  {
    hide Utf8, EncodeText, ChoicesText, MenuText;
    match p {
      case ScreenProps(title) => SaidBytes(title);
      case SectionProps(heading, description) =>
        SaidBytes(heading);
        if description.Some? { SaidBytes(description.value); }
      case WordsProps(text, _, _) => SaidBytes(text);
      case StatusProps(name, _, detail) =>
        SaidBytes(name);
        if detail.Some? { SaidBytes(detail.value); }
      case _ =>
    }
  }

  /** A node adds what it shows: titles, headings, texts, labels, details, descriptions and the labels of options. */
  lemma TextExactly(p: Props)
    ensures TextOf(p) == Shows(p)
  {
    hide TextOf, Shows;
    if KindOf(p) in {Button, Toggle, Input, Select, Progress, Media} {
      ControlText(p);
    } else {
      PlainText(p);
    }
  }
}
