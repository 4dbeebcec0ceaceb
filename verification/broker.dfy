/** The runtime broker: what one message from the guest or the host does to its state, and what it forwards. */
module Broker {
  import opened Wire
  import opened Names
  import opened Options
  import opened Capabilities
  import Ui = UiContract
  import opened UiTree

  const OUTSTANDING_CALLS := 32
  const CALL_CREDIT := 32
  const CALL_DEADLINE_MS := 300_000
  const GUEST_MESSAGES_PER_SECOND := 120
  const RENDERS_PER_SECOND := 30
  const INPUT_BYTES := 16_384

  type Name = bytes
  type Data = bytes

  datatype Grant = Grant(stateRead: seq<bytes>, subscribe: seq<bytes>, publish: seq<bytes>, call: seq<bytes>, media: set<string>)

  /** What the accepted load message fixed. */
  datatype Launch = Launch(grant: Grant, initial: map<Name, Data>, revision: int, staging: bool)

  datatype Code = ProtocolViolation | CapabilityDenied | RenderInvalid | BootFailed

  // ---------------------------------------------------------------- messages

  /** A field is None when it fails the check of its own form. */
  datatype GuestMessage =
    | Ready(abiOk: bool)
    | Render(revision: Option<int>, heap: Ui.Heap, tree: Ui.Js)
    | Subscribe(name: Option<Name>)
    | Unsubscribe(name: Option<Name>)
    | Publish(name: Option<Name>, data: Option<Data>)
    | StartCall(id: Option<int>, name: Option<Name>, args: Option<Data>, deadline: Deadline)
    | GrantCredit(id: Option<int>, credit: Option<int>)
    | CancelCall(id: Option<int>)
    | WriteLog(ok: bool)
    | GuestMalformed

  datatype Deadline = NoDeadline | DeadlineMs(ms: int) | BadDeadline

  datatype Mutation = SetPath(path: Name, value: Data) | DeletePath(path: Name)

  datatype InteractionValue = NoValue | BoolValue(b: bool) | TextValue(s: string, units: nat) | OtherValue

  datatype HostMessage =
    | Activate
    | Ping(echo: Data)
    | Interact(rendered: int, node: Option<string>, event: string, choice: InteractionValue)
    | Snapshot(revision: Option<int>, values: Option<seq<(Name, Data)>>)
    | Patch(base: Option<int>, revision: Option<int>, mutations: Option<seq<Mutation>>)
    | Stale(revision: Option<int>, reasonOk: bool)
    | Deliver(name: Option<Name>, data: Option<Data>)
    | CallAccepted(id: Option<int>)
    | CallChunk(id: Option<int>, value: Option<Data>)
    | CallResult(id: Option<int>, value: Option<Data>)
    | CallError(id: Option<int>, ok: bool)
    | CallOutcomeUnknown(id: Option<int>, ok: bool)
    | Suspend
    | Resume
    | Dispose
    | HostMalformed

  datatype ToHost =
    | WorkerReady | Rendered(revision: int, tree: Node) | Subscribed(name: Name) | Unsubscribed(name: Name)
    | Published(name: Name, data: Data) | Started(id: int, name: Name, args: Data, deadline: Deadline)
    | Credited(id: int, credit: int) | Cancelled(id: int) | Logged | Active(revision: int) | Pong(data: Data)
    | Failed(code: Code) | Terminated

  datatype ToGuest =
    | Boot | StateSnapshot(revision: int, values: map<Name, Data>)
    | StatePatch(base: int, revision: int, mutations: seq<Mutation>) | StateStale(revision: int)
    | Interaction(revision: int, node: string, handler: string, event: string, choice: InteractionValue)
    | Event(name: Name, data: Data) | Accepted(id: int) | Chunk(id: int, value: Data) | Result(id: int, value: Data)
    | Error(id: int) | OutcomeUnknown(id: int) | Suspended | Resumed | Disposed

  // ---------------------------------------------------------------- state

  datatype Target = Target(handler: string, event: string, disabled: bool, kind: Ui.NodeType, options: set<string>, maxLength: int)

  datatype Call = Call(accepted: bool, credit: int)

  datatype State = State(
    closed: bool, ready: bool, staging: bool, active: bool, suspended: bool, hostSeq: int,
    stateRevision: int, stale: bool, renderRevision: int, targets: map<string, Target>,
    guestTimes: seq<real>, renderTimes: seq<real>, subscriptions: set<Name>,
    calls: map<int, Call>, seen: set<int>, toHost: seq<ToHost>, toGuest: seq<ToGuest>)

  /** The broker once its Worker is launched. */
  function Launched(l: Launch): State {
    State(false, false, l.staging, false, false, 1, l.revision, false, 0, map[], [], [], {}, map[], {}, [], [])
  }

  function Send(st: State, m: ToHost): State { st.(toHost := st.toHost + [m]) }

  function Forward(st: State, m: ToGuest): State { st.(toGuest := st.toGuest + [m]) }

  function Shut(st: State): State { st.(closed := true, targets := map[], subscriptions := {}, calls := map[], seen := {}) }

  function Fail(st: State, code: Code): State { Shut(st.(toHost := st.toHost + [Failed(code), Terminated])) }

  // ---------------------------------------------------------------- rates

  /** The times within the last second. */
  function Recent(times: seq<real>, now: real): seq<real> {
    if times != [] && times[0] <= now - 1_000.0 then Recent(times[1..], now) else times
  }

  function Rate(times: seq<real>, now: real): seq<real> { Recent(times, now) + [now] }

  // ---------------------------------------------------------------- interaction targets

  predicate Control(h: Head) {
    match h.props
    case ButtonProps(_, _, _, _, _) => true
    case ToggleProps(_, _, _, _, _) => true
    case InputProps(_, _, _, _, _, _, _) => true
    case SelectProps(_, _, _, _, _, _) => true
    case _ => false
  }

  function OptionValues(options: seq<Ui.Choice>): set<string> { set i | 0 <= i < |options| :: options[i].value }

  function TargetOf(h: Head): Target
    requires Control(h)
  {
    match h.props
    case ButtonProps(_, handler, _, disabled, pending) => Target(handler, "press", disabled || pending, Ui.Button, {}, 0)
    case ToggleProps(_, _, handler, disabled, pending) => Target(handler, "change", disabled || pending, Ui.Toggle, {}, 0)
    case InputProps(_, _, handler, _, limit, disabled, pending) =>
      Target(handler, "change", disabled || pending, Ui.Input, {}, limit)
    case SelectProps(_, _, options, handler, disabled, pending) =>
      Target(handler, "change", disabled || pending, Ui.Select, OptionValues(options), 0)
  }

  function Heads(n: Node): seq<Head> {
    match n
    case Leaf(head) => [head]
    case Branch(head, children) => [head] + AllHeads(children)
  }

  function AllHeads(nodes: seq<Node>): seq<Head> {
    if nodes == [] then [] else Heads(nodes[0]) + AllHeads(nodes[1..])
  }

  function TargetsOf(heads: seq<Head>): map<string, Target> {
    if heads == [] then map[]
    else
      var last := heads[|heads| - 1];
      var before := TargetsOf(heads[..|heads| - 1]);
      if Control(last) then before[last.id := TargetOf(last)] else before
  }

  /** The value an interaction may carry to a target of its kind. */
  predicate ValueOk(t: Target, v: InteractionValue) {
    match t.kind
    case Button => v == NoValue
    case Toggle => v.BoolValue?
    case Input => v.TextValue? && v.units <= t.maxLength && |Ui.Utf8(v.s)| <= INPUT_BYTES
    case Select => v.TextValue? && v.s in t.options
    case _ => true
  }

  // ---------------------------------------------------------------- messages from the guest

  function RenderStep(l: Launch, st: State, m: GuestMessage, now: real): State
    requires m.Render?
  {
    var times := Rate(st.renderTimes, now);
    var timed := st.(renderTimes := times);
    if |times| > RENDERS_PER_SECOND then Fail(timed, ProtocolViolation)
    else if m.revision == None then Fail(timed, ProtocolViolation)
    else if m.revision.value != st.renderRevision + 1 then Fail(timed, RenderInvalid)
    else DrawStep(l, timed, m)
  }

  function DrawStep(l: Launch, st: State, m: GuestMessage): State
    requires m.Render? && m.revision.Some?
  {
    match ValidateTree(m.heap, l.grant.media, m.tree)
    case Refused(error) => Fail(st, if error == Ui.CapabilityDenied then CapabilityDenied else RenderInvalid)
    case Valid(tree) =>
      Send(st.(renderRevision := m.revision.value, targets := TargetsOf(Heads(tree))), Rendered(m.revision.value, tree))
  }

  predicate Running(st: State) { st.active && !st.staging && !st.suspended }

  function NameCheck(patterns: seq<bytes>, name: Option<Name>): Option<Code> {
    if name == None || !DottedName(name.value) then Some(ProtocolViolation)
    else if !Grants(patterns, name.value) then Some(CapabilityDenied)
    else None
  }

  /** Messages that name a topic the grant must cover. */
  function TopicStep(l: Launch, st: State, m: GuestMessage): State
    requires m.Subscribe? || m.Unsubscribe? || m.Publish?
  {
    if m.Publish? && !Running(st) then Fail(st, CapabilityDenied)
    else
      match NameCheck(if m.Publish? then l.grant.publish else l.grant.subscribe, m.name)
      case Some(code) => Fail(st, code)
      case None =>
        if m.Subscribe? then Send(st.(subscriptions := st.subscriptions + {m.name.value}), Subscribed(m.name.value))
        else if m.Unsubscribe? then Send(st.(subscriptions := st.subscriptions - {m.name.value}), Unsubscribed(m.name.value))
        else if m.data == None then Fail(st, ProtocolViolation)
        else Send(st, Published(m.name.value, m.data.value))
  }

  function StartStep(l: Launch, st: State, m: GuestMessage): State
    requires m.StartCall?
  {
    if !Running(st) then Fail(st, CapabilityDenied)
    else
      match NameCheck(l.grant.call, m.name)
      case Some(code) => Fail(st, code)
      case None =>
        if m.id == None || m.id.value in st.seen || |st.calls| >= OUTSTANDING_CALLS then Fail(st, ProtocolViolation)
        else if m.deadline == BadDeadline || (m.deadline.DeadlineMs? && m.deadline.ms > CALL_DEADLINE_MS)
        then Fail(st, ProtocolViolation)
        else if m.args == None then Fail(st, ProtocolViolation)
        else
          var id := m.id.value;
          Send(st.(seen := st.seen + {id}, calls := st.calls[id := Call(false, 0)]), Started(id, m.name.value, m.args.value, m.deadline))
  }

  function CreditStep(st: State, m: GuestMessage): State
    requires m.GrantCredit?
  {
    if !Running(st) then Fail(st, CapabilityDenied)
    else if m.id == None || m.id.value !in st.calls then Fail(st, ProtocolViolation)
    else
      var id, call := m.id.value, st.calls[m.id.value];
      if m.credit == None || m.credit.value <= 0 || m.credit.value > CALL_CREDIT || call.credit + m.credit.value > CALL_CREDIT
      then Fail(st, ProtocolViolation)
      else
        Send(st.(calls := st.calls[id := call.(credit := call.credit + m.credit.value)]), Credited(id, m.credit.value))
  }

  function GuestStep(l: Launch, st: State, m: GuestMessage, now: real): State {
    if st.closed then st
    else
      var times := Rate(st.guestTimes, now);
      var s := st.(guestTimes := times);
      if |times| > GUEST_MESSAGES_PER_SECOND then Fail(s, ProtocolViolation)
      else if m.GuestMalformed? then Fail(s, ProtocolViolation)
      else if !st.ready then
        if !m.Ready? || !m.abiOk then Fail(s, BootFailed)
        else
          s.(ready := true, toGuest := s.toGuest + [Boot, StateSnapshot(st.stateRevision, l.initial)],
             toHost := s.toHost + [WorkerReady])
      else ReceiveStep(l, s, m, now)
  }

  /** What a ready broker does with a guest message. */
  function ReceiveStep(l: Launch, s: State, m: GuestMessage, now: real): State {
    match m
    case Render(_, _, _) => RenderStep(l, s, m, now)
    case Subscribe(_) => TopicStep(l, s, m)
    case Unsubscribe(_) => TopicStep(l, s, m)
    case Publish(_, _) => TopicStep(l, s, m)
    case StartCall(_, _, _, _) => StartStep(l, s, m)
    case GrantCredit(_, _) => CreditStep(s, m)
    case CancelCall(id) =>
      if !Running(s) then Fail(s, CapabilityDenied)
      else if id == None || id.value !in s.calls then Fail(s, ProtocolViolation)
      else Send(s, Cancelled(id.value))
    case WriteLog(ok) => if ok then Send(s, Logged) else Fail(s, ProtocolViolation)
    case _ => Fail(s, ProtocolViolation)
  }

  // ---------------------------------------------------------------- messages from the host

  predicate ReadablePath(l: Launch, path: Name) { DottedName(path) && Grants(l.grant.stateRead, path) }

  function StateCode(path: Name): Code { if DottedName(path) then CapabilityDenied else ProtocolViolation }

  /** What is wrong with the first path, in order, that the grant does not let the guest read. */
  function FirstDenied(l: Launch, paths: seq<Name>): Option<Code> {
    if paths == [] then None
    else if !ReadablePath(l, paths[0]) then Some(StateCode(paths[0]))
    else FirstDenied(l, paths[1..])
  }

  function EntryPaths(entries: seq<(Name, Data)>): seq<Name> { seq(|entries|, i requires 0 <= i < |entries| => entries[i].0) }

  function Paths(mutations: seq<Mutation>): seq<Name> {
    seq(|mutations|, i requires 0 <= i < |mutations| => mutations[i].path)
  }

  function MapOf(entries: seq<(Name, Data)>): map<Name, Data> {
    if entries == [] then map[]
    else MapOf(entries[..|entries| - 1])[entries[|entries| - 1].0 := entries[|entries| - 1].1]
  }

  function InteractStep(st: State, m: HostMessage): State
    requires m.Interact?
  {
    if !Running(st) then Fail(st, CapabilityDenied)
    else if m.rendered != st.renderRevision then Fail(st, RenderInvalid)
    else if m.node == None then Fail(st, ProtocolViolation)
    else if m.node.value !in st.targets then Fail(st, RenderInvalid)
    else
      var t := st.targets[m.node.value];
      if t.disabled || m.event != t.event || !ValueOk(t, m.choice) then Fail(st, RenderInvalid)
      else Forward(st, Interaction(st.renderRevision, m.node.value, t.handler, t.event, m.choice))
  }

  function SnapshotStep(l: Launch, st: State, m: HostMessage): State
    requires m.Snapshot?
  {
    if m.revision == None || m.revision.value < st.stateRevision || m.values == None then Fail(st, ProtocolViolation)
    else
      match FirstDenied(l, EntryPaths(m.values.value))
      case Some(code) => Fail(st, code)
      case None =>
        Forward(
          st.(stateRevision := m.revision.value, stale := false), StateSnapshot(m.revision.value, MapOf(m.values.value)))
  }

  function PatchStep(l: Launch, st: State, m: HostMessage): State
    requires m.Patch?
  {
    if m.base == None || m.revision == None then Fail(st, ProtocolViolation)
    else if m.base.value != st.stateRevision || m.revision.value != m.base.value + 1 then
      Forward(st.(stale := true), StateStale(st.stateRevision))
    else if m.mutations == None then Fail(st, ProtocolViolation)
    else
      match FirstDenied(l, Paths(m.mutations.value))
      case Some(code) => Fail(st, code)
      case None =>
        if st.stale then st
        else
          Forward(st.(stateRevision := m.revision.value), StatePatch(m.base.value, m.revision.value, m.mutations.value))
  }

  function ChunkStep(st: State, m: HostMessage): State
    requires m.CallChunk?
  {
    if m.id == None || m.id.value !in st.calls then Fail(st, ProtocolViolation)
    else
      var id, call := m.id.value, st.calls[m.id.value];
      if !call.accepted || call.credit <= 0 || m.value == None then Fail(st, ProtocolViolation)
      else Forward(st.(calls := st.calls[id := call.(credit := call.credit - 1)]), Chunk(id, m.value.value))
  }

  function EndStep(st: State, id: Option<int>, ok: bool, last: ToGuest): State {
    if id == None || id.value !in st.calls || !ok then Fail(st, ProtocolViolation)
    else Forward(st.(calls := st.calls - {id.value}), last)
  }

  function EndingStep(st: State, m: HostMessage): State
    requires m.CallResult? || m.CallError? || m.CallOutcomeUnknown?
  {
    match m
    case CallResult(id, value) =>
      EndStep(st, id, value.Some?, if id.Some? && value.Some? then Result(id.value, value.value) else Suspended)
    case CallError(id, ok) => EndStep(st, id, ok, if id.Some? then Error(id.value) else Suspended)
    case CallOutcomeUnknown(id, ok) => EndStep(st, id, ok, if id.Some? then OutcomeUnknown(id.value) else Suspended)
  }

  /** Messages that none of the larger steps above handles. */
  predicate Other(m: HostMessage) {
    !m.Interact? && !m.Snapshot? && !m.Patch? && !m.CallChunk? && !m.CallResult? && !m.CallError? && !m.CallOutcomeUnknown?
  }

  function OtherStep(l: Launch, st: State, m: HostMessage): State
    requires Other(m)
  {
    match m
    case Activate =>
      if st.renderRevision == 0 then Fail(st, ProtocolViolation)
      else
        st.(staging := false, active := true, suspended := false, toGuest := st.toGuest + [Resumed],
            toHost := st.toHost + [Active(st.renderRevision)])
    case Ping(data) => Send(st, Pong(data))
    case Stale(revision, ok) =>
      if revision == None || !ok then Fail(st.(stale := true), ProtocolViolation)
      else Forward(st.(stale := true), StateStale(revision.value))
    case Deliver(name, data) =>
      (match NameCheck(l.grant.subscribe, name)
       case Some(code) => Fail(st, code)
       case None =>
         if name.value !in st.subscriptions then Fail(st, CapabilityDenied)
         else if data == None then Fail(st, ProtocolViolation)
         else Forward(st, Event(name.value, data.value)))
    case CallAccepted(id) =>
      if id == None || id.value !in st.calls || st.calls[id.value].accepted then Fail(st, ProtocolViolation)
      else Forward(st.(calls := st.calls[id.value := st.calls[id.value].(accepted := true)]), Accepted(id.value))
    case Suspend =>
      if !st.active || st.suspended then Fail(st, ProtocolViolation) else Forward(st.(suspended := true), Suspended)
    case Resume =>
      if !st.active || !st.suspended then Fail(st, ProtocolViolation) else Forward(st.(suspended := false), Resumed)
    case _ => Fail(st, ProtocolViolation)
  }

  /** What a ready broker does with a host message other than disposal. */
  function Dispatch(l: Launch, s: State, m: HostMessage): State {
    if m.Interact? then InteractStep(s, m)
    else if m.Snapshot? then SnapshotStep(l, s, m)
    else if m.Patch? then PatchStep(l, s, m)
    else if m.CallChunk? then ChunkStep(s, m)
    else if m.CallResult? || m.CallError? || m.CallOutcomeUnknown? then EndingStep(s, m)
    else OtherStep(l, s, m)
  }

  function HostStep(l: Launch, st: State, seqno: int, m: HostMessage): State {
    if st.closed then st
    else if m.HostMalformed? || seqno != st.hostSeq then Fail(st, ProtocolViolation)
    else
      OrderedStep(l, st.(hostSeq := st.hostSeq + 1), m)
  }

  /** A host message that came in its turn. */
  function OrderedStep(l: Launch, s: State, m: HostMessage): State {
    if m.Dispose? then Shut(s.(toGuest := s.toGuest + [Disposed], toHost := s.toHost + [Terminated]))
    else if !s.ready then Fail(s, ProtocolViolation)
    else Dispatch(l, s, m)
  }

  // ---------------------------------------------------------------- runs

  datatype Input = FromGuest(m: GuestMessage, now: real) | FromHost(seqno: int, h: HostMessage)

  function Step(l: Launch, st: State, i: Input): State {
    match i
    case FromGuest(m, now) => GuestStep(l, st, m, now)
    case FromHost(seqno, h) => HostStep(l, st, seqno, h)
  }

  function Run(l: Launch, inputs: seq<Input>): State {
    if inputs == [] then Launched(l) else Step(l, Run(l, inputs[..|inputs| - 1]), inputs[|inputs| - 1])
  }
}
