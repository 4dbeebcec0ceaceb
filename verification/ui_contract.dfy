/** The values a guest sends for a semantic tree, and what each node type demands of its properties. */
module UiContract {
  import opened Wire
  import opened Names
  import opened Options

  const UI_NODES := 1_024
  const UI_DEPTH := 32
  const UI_TEXT_BYTES := 262_144
  const TEXT_BYTES := 8_192
  const INPUT_BYTES := 16_384
  const SELECT_OPTIONS := 100
  const MAX_SAFE := 0x1f_ffff_ffff_ffff

  // ---------------------------------------------------------------- values

  /** Objects are identified by reference; the same object may be reached twice, or from itself. */
  type Ref = seq<nat>

  datatype Num = Finite(r: real) | NotFinite

  datatype Js = Absent | Null | Flag(b: bool) | Number(n: Num) | Text(s: string) | Object(ref: Ref)

  datatype Thing = Plain(fields: map<string, Js>) | List(dense: bool, items: seq<Js>) | Binary(size: nat) | Exotic

  type Heap = Ref -> Thing

  function Utf8Char(c: char): bytes {
    var n := c as int;
    if n < 0x80 then [n]
    else if n < 0x800 then [0xc0 + n / 0x40, 0x80 + n % 0x40]
    else if n < 0x1_0000 then [0xe0 + n / 0x1000, 0x80 + n / 0x40 % 0x40, 0x80 + n % 0x40]
    else [0xf0 + n / 0x4_0000 % 0x10, 0x80 + n / 0x1000 % 0x40, 0x80 + n / 0x40 % 0x40, 0x80 + n % 0x40]
  }

  function Utf8(s: string): bytes {
    if s == [] then [] else Utf8Char(s[0]) + Utf8(s[1..])
  }

  // ---------------------------------------------------------------- shapes

  datatype Refusal = RenderInvalid | CapabilityDenied

  datatype Checked<+T> = Valid(value: T) | Refused(error: Refusal)

  function FieldOf(fields: map<string, Js>, key: string): Js { if key in fields then fields[key] else Absent }

  /** A plain record with every required field and no field that is neither required nor optional. */
  function ExactObject(heap: Heap, v: Js, required: set<string>, optional: set<string>): Option<map<string, Js>> {
    if !v.Object? then None
    else
      match heap(v.ref)
      case Plain(fields) => if required <= fields.Keys <= required + optional then Some(fields) else None
      case _ => None
  }

  function DenseArray(heap: Heap, v: Js, maximum: nat): Option<seq<Js>> {
    if !v.Object? then None
    else
      match heap(v.ref)
      case List(dense, items) => if dense && |items| <= maximum then Some(items) else None
      case _ => None
  }

  predicate Bounded(v: Js, maximum: nat) {
    v.Text? && v.s != "" && !ContainsControl(Utf8(v.s)) && |Utf8(v.s)| <= maximum
  }

  predicate Letter(c: char) { 'A' <= c <= 'Z' || 'a' <= c <= 'z' }

  /** [A-Za-z][A-Za-z0-9._:-]{0,63} */
  predicate NodeId(v: Js) {
    && Bounded(v, 64) && Letter(v.s[0]) && |v.s| <= 64
    && forall i :: 0 < i < |v.s| ==> Letter(v.s[i]) || '0' <= v.s[i] <= '9' || v.s[i] in {'.', '_', ':', '-'}
  }

  predicate PositiveInteger(v: Js, maximum: int) {
    v.Number? && v.n.Finite? && v.n.r == v.n.r.Floor as real && 1 <= v.n.r.Floor <= MAX_SAFE && v.n.r.Floor <= maximum
  }

  function EnumOr(v: Js, allowed: set<string>, otherwise: string): Option<string> {
    if v == Absent then Some(otherwise) else if v.Text? && v.s in allowed then Some(v.s) else None
  }

  function FlagOr(v: Js): Option<bool> {
    if v == Absent then Some(false) else if v.Flag? then Some(v.b) else None
  }

  predicate ResourceName(v: Js) { Bounded(v, 256) && DottedName(Utf8(v.s)) }

  // ---------------------------------------------------------------- properties

  datatype NodeType =
    | Screen | Stack | Grid | Section | Words | Status | Button | Toggle | Input | Select | Progress | Media

  predicate Container(t: NodeType) { t in {Screen, Stack, Grid, Section} }

  function TypeName(t: NodeType): string {
    match t
    case Screen => "screen"
    case Stack => "stack"
    case Grid => "grid"
    case Section => "section"
    case Words => "text"
    case Status => "status"
    case Button => "button"
    case Toggle => "toggle"
    case Input => "input"
    case Select => "select"
    case Progress => "progress"
    case Media => "media"
  }

  function TypeOf(v: Js): Option<NodeType> {
    if !v.Text? then None
    else
      match v.s
      case "screen" => Some(Screen)
      case "stack" => Some(Stack)
      case "grid" => Some(Grid)
      case "section" => Some(Section)
      case "text" => Some(Words)
      case "status" => Some(Status)
      case "button" => Some(Button)
      case "toggle" => Some(Toggle)
      case "input" => Some(Input)
      case "select" => Some(Select)
      case "progress" => Some(Progress)
      case "media" => Some(Media)
      case _ => None
  }

  datatype Choice = Choice(value: string, name: string)

  datatype Props =
    | ScreenProps(title: string)
    | StackProps(direction: string, gap: string, align: string)
    | GridProps(columns: int, gap: string)
    | SectionProps(heading: string, description: Option<string>)
    | WordsProps(text: string, tone: string, emphasis: string)
    | StatusProps(name: string, state: string, detail: Option<string>)
    | ButtonProps(name: string, handler: string, variant: string, disabled: bool, pending: bool)
    | ToggleProps(name: string, on: bool, handler: string, disabled: bool, pending: bool)
    | InputProps(name: string, value: string, handler: string, inputType: string, maxLength: int, disabled: bool, pending: bool)
    | SelectProps(name: string, value: string, options: seq<Choice>, handler: string, disabled: bool, pending: bool)
    | ProgressProps(name: string, amount: real)
    | MediaProps(name: string, handle: string)

  const GAPS := {"none", "small", "medium", "large"}
  const TONES := {"default", "muted", "positive", "warning", "critical"}
  const STATES := {"idle", "pending", "accepted", "applied", "failed", "stale", "outcome_unknown"}

  /** The text a node adds to the aggregate. */
  function TextOf(p: Props): nat {
    match p
    case ScreenProps(title) => |Utf8(title)|
    case SectionProps(heading, description) => |Utf8(heading)| + OptionalText(description)
    case WordsProps(text, _, _) => |Utf8(text)|
    case StatusProps(name, _, detail) => |Utf8(name)| + OptionalText(detail)
    case SelectProps(name, _, options, _, _, _) => |Utf8(name)| + ChoicesText(options)
    case StackProps(_, _, _) => 0
    case GridProps(_, _) => 0
    case _ => |Utf8(p.name)|
  }

  function OptionalText(s: Option<string>): nat { if s.Some? then |Utf8(s.value)| else 0 }

  function ChoicesText(options: seq<Choice>): nat {
    if options == [] then 0 else ChoicesText(options[..|options| - 1]) + |Utf8(options[|options| - 1].name)|
  }

  predicate OptionalBounded(v: Js, maximum: nat) { v == Absent || Bounded(v, maximum) }

  function OptionalString(v: Js): Option<string> { if v.Text? then Some(v.s) else None }

  function ChoiceOf(heap: Heap, v: Js): Option<Choice> {
    match ExactObject(heap, v, {"value", "label"}, {})
    case None => None
    case Some(f) =>
      if Bounded(FieldOf(f, "value"), 256) && Bounded(FieldOf(f, "label"), TEXT_BYTES)
      then Some(Choice(FieldOf(f, "value").s, FieldOf(f, "label").s)) else None
  }

  /** The options of a select, left to right, no value twice. */
  function ChoicesOf(heap: Heap, items: seq<Js>): Option<seq<Choice>> {
    if items == [] then Some([])
    else
      var n := |items| - 1;
      match (ChoicesOf(heap, items[..n]), ChoiceOf(heap, items[n]))
      case (Some(before), Some(last)) => if Named(before, last.value) then None else Some(before + [last])
      case _ => None
  }

  predicate Named(options: seq<Choice>, value: string) { exists i :: 0 <= i < |options| && options[i].value == value }

  /** What a node type makes of its property record, text aggregate aside. */
  function PropsOf(heap: Heap, t: NodeType, raw: Js, media: set<string>): Checked<Props> {
    match t
    case Screen =>
      (match ExactObject(heap, raw, {"title"}, {})
       case Some(f) =>
         if Bounded(FieldOf(f, "title"), TEXT_BYTES) then Valid(ScreenProps(FieldOf(f, "title").s)) else Refused(RenderInvalid)
       case None => Refused(RenderInvalid))
    case Stack =>
      (match ExactObject(heap, raw, {}, {"direction", "gap", "align"})
       case Some(f) =>
         var direction := EnumOr(FieldOf(f, "direction"), {"vertical", "horizontal"}, "vertical");
         var gap := EnumOr(FieldOf(f, "gap"), GAPS, "medium");
         var align := EnumOr(FieldOf(f, "align"), {"start", "center", "end", "stretch"}, "stretch");
         if direction == None || gap == None || align == None then Refused(RenderInvalid)
         else Valid(StackProps(direction.value, gap.value, align.value))
       case None => Refused(RenderInvalid))
    case Grid =>
      (match ExactObject(heap, raw, {"columns"}, {"gap"})
       case Some(f) =>
         var gap := EnumOr(FieldOf(f, "gap"), GAPS, "medium");
         if !PositiveInteger(FieldOf(f, "columns"), 6) || gap == None then Refused(RenderInvalid)
         else Valid(GridProps(FieldOf(f, "columns").n.r.Floor, gap.value))
       case None => Refused(RenderInvalid))
    case Section =>
      (match ExactObject(heap, raw, {"heading"}, {"description"})
       case Some(f) =>
         var description := FieldOf(f, "description");
         if !OptionalBounded(description, TEXT_BYTES) || !Bounded(FieldOf(f, "heading"), TEXT_BYTES) then Refused(RenderInvalid)
         else Valid(SectionProps(FieldOf(f, "heading").s, OptionalString(description)))
       case None => Refused(RenderInvalid))
    case Words =>
      (match ExactObject(heap, raw, {"text"}, {"tone", "emphasis"})
       case Some(f) =>
         var tone := EnumOr(FieldOf(f, "tone"), TONES, "default");
         var emphasis := EnumOr(FieldOf(f, "emphasis"), {"normal", "strong"}, "normal");
         if !Bounded(FieldOf(f, "text"), TEXT_BYTES) || tone == None || emphasis == None then Refused(RenderInvalid)
         else Valid(WordsProps(FieldOf(f, "text").s, tone.value, emphasis.value))
       case None => Refused(RenderInvalid))
    case Status =>
      (match ExactObject(heap, raw, {"label", "state"}, {"detail"})
       case Some(f) =>
         var detail, state := FieldOf(f, "detail"), FieldOf(f, "state");
         if !OptionalBounded(detail, TEXT_BYTES) || !Bounded(FieldOf(f, "label"), TEXT_BYTES)
           || !state.Text? || state.s !in STATES
         then Refused(RenderInvalid)
         else Valid(StatusProps(FieldOf(f, "label").s, state.s, OptionalString(detail)))
       case None => Refused(RenderInvalid))
    case Button =>
      (match ExactObject(heap, raw, {"label", "handler"}, {"variant", "disabled", "pending"})
       case Some(f) =>
         var variant := EnumOr(FieldOf(f, "variant"), {"primary", "secondary", "danger"}, "primary");
         var disabled, pending := FlagOr(FieldOf(f, "disabled")), FlagOr(FieldOf(f, "pending"));
         if !Bounded(FieldOf(f, "label"), TEXT_BYTES) || !NodeId(FieldOf(f, "handler")) || variant == None
           || disabled == None || pending == None
         then Refused(RenderInvalid)
         else
           Valid(ButtonProps(
             FieldOf(f, "label").s, FieldOf(f, "handler").s, variant.value, disabled.value, pending.value))
       case None => Refused(RenderInvalid))
    case Toggle =>
      (match ExactObject(heap, raw, {"label", "value", "handler"}, {"disabled", "pending"})
       case Some(f) =>
         var disabled, pending := FlagOr(FieldOf(f, "disabled")), FlagOr(FieldOf(f, "pending"));
         if !FieldOf(f, "value").Flag? || !Bounded(FieldOf(f, "label"), TEXT_BYTES) || !NodeId(FieldOf(f, "handler"))
           || disabled == None || pending == None
         then Refused(RenderInvalid)
         else
           Valid(ToggleProps(
             FieldOf(f, "label").s, FieldOf(f, "value").b, FieldOf(f, "handler").s, disabled.value, pending.value))
       case None => Refused(RenderInvalid))
    case Input => InputOf(ExactObject(heap, raw, {"label", "value", "handler"}, {"input_type", "max_length", "disabled", "pending"}))
    case Select =>
      SelectOf(heap, ExactObject(heap, raw, {"label", "value", "options", "handler"}, {"disabled", "pending"}))
    case Progress =>
      (match ExactObject(heap, raw, {"label", "value"}, {})
       case Some(f) =>
         var value := FieldOf(f, "value");
         if !value.Number? || !value.n.Finite? || value.n.r < 0.0 || value.n.r > 1.0 || !Bounded(FieldOf(f, "label"), TEXT_BYTES)
         then Refused(RenderInvalid)
         else Valid(ProgressProps(FieldOf(f, "label").s, value.n.r))
       case None => Refused(RenderInvalid))
    case Media =>
      (match ExactObject(heap, raw, {"label", "handle"}, {})
       case Some(f) =>
         var handle := FieldOf(f, "handle");
         if !ResourceName(handle) then Refused(RenderInvalid)
         else if handle.s !in media then Refused(CapabilityDenied)
         else if !Bounded(FieldOf(f, "label"), TEXT_BYTES) then Refused(RenderInvalid)
         else Valid(MediaProps(FieldOf(f, "label").s, handle.s))
       case None => Refused(RenderInvalid))
  }

  function InputOf(record: Option<map<string, Js>>): Checked<Props> {
    match record
    case None => Refused(RenderInvalid)
    case Some(f) =>
      var value, limit := FieldOf(f, "value"), FieldOf(f, "max_length");
      var inputType := EnumOr(FieldOf(f, "input_type"), {"text", "number", "email", "search"}, "text");
      var disabled, pending := FlagOr(FieldOf(f, "disabled")), FlagOr(FieldOf(f, "pending"));
      if !value.Text? || |Utf8(value.s)| > INPUT_BYTES || (limit != Absent && !PositiveInteger(limit, 16_384))
        || !Bounded(FieldOf(f, "label"), TEXT_BYTES) || !NodeId(FieldOf(f, "handler")) || inputType == None
        || disabled == None || pending == None
      then Refused(RenderInvalid)
      else
        Valid(InputProps(
          FieldOf(f, "label").s, value.s, FieldOf(f, "handler").s, inputType.value,
          if limit == Absent then 1_024 else limit.n.r.Floor, disabled.value, pending.value))
  }

  function SelectOf(heap: Heap, record: Option<map<string, Js>>): Checked<Props> {
    match record
    case None => Refused(RenderInvalid)
    case Some(f) =>
      match DenseArray(heap, FieldOf(f, "options"), SELECT_OPTIONS)
      case None => Refused(RenderInvalid)
      case Some(items) =>
        var value := FieldOf(f, "value");
        var disabled, pending := FlagOr(FieldOf(f, "disabled")), FlagOr(FieldOf(f, "pending"));
        match ChoicesOf(heap, items)
        case None => Refused(RenderInvalid)
        case Some(options) =>
          if !Bounded(value, 256) || !Named(options, value.s) || !Bounded(FieldOf(f, "label"), TEXT_BYTES)
            || !NodeId(FieldOf(f, "handler")) || disabled == None || pending == None
          then Refused(RenderInvalid)
          else
            Valid(SelectProps(
              FieldOf(f, "label").s, value.s, options, FieldOf(f, "handler").s, disabled.value, pending.value))
  }

  /** validateProps: the properties, and the aggregate they bring the tree's text to. */
  function ValidateProps(heap: Heap, t: NodeType, raw: Js, media: set<string>, budget: nat): Checked<(Props, nat)> {
    match PropsOf(heap, t, raw, media)
    case Refused(error) => Refused(error)
    case Valid(p) => if budget + TextOf(p) > UI_TEXT_BYTES then Refused(RenderInvalid) else Valid((p, budget + TextOf(p)))
  }
}
