/** Calls through the broker: each starts, is accepted and ends at most once, and credit is conserved. */
module BrokerCalls {
  import opened Wire
  import opened Options
  import opened UiTree
  import opened Broker

  // ---------------------------------------------------------------- what was forwarded for one operation

  /** Messages forwarded to the host for one operation ID, and to the guest. */
  datatype Sent = Sent(starts: int, credit: int)

  /** `ordered`: one acceptance at most, chunks only after it, and nothing after the end. */
  datatype Received = Received(chunks: int, acceptances: int, ends: int, ordered: bool)

  function Add(t: Sent, m: ToHost, id: int): Sent {
    match m
    case Started(n, _, _, _) => if n == id then t.(starts := t.starts + 1) else t
    case Credited(n, credit) => if n == id then t.(credit := t.credit + credit) else t
    case _ => t
  }

  function Count(t: Received, m: ToGuest, id: int): Received {
    match m
    case Accepted(n) =>
      if n == id then t.(acceptances := t.acceptances + 1, ordered := t.ordered && t.acceptances == 0 && t.ends == 0) else t
    case Chunk(n, _) =>
      if n == id then t.(chunks := t.chunks + 1, ordered := t.ordered && t.acceptances == 1 && t.ends == 0) else t
    case Result(n, _) => if n == id then Ended(t) else t
    case Error(n) => if n == id then Ended(t) else t
    case OutcomeUnknown(n) => if n == id then Ended(t) else t
    case _ => t
  }

  function Ended(t: Received): Received { t.(ends := t.ends + 1, ordered := t.ordered && t.ends == 0) }

  function SentFor(log: seq<ToHost>, id: int): Sent {
    if log == [] then Sent(0, 0) else Add(SentFor(log[..|log| - 1], id), log[|log| - 1], id)
  }

  function ReceivedFor(log: seq<ToGuest>, id: int): Received {
    if log == [] then Received(0, 0, 0, true) else Count(ReceivedFor(log[..|log| - 1], id), log[|log| - 1], id)
  }

  lemma SendTotal(st: State, m: ToHost, id: int)
    ensures SentFor(Send(st, m).toHost, id) == Add(SentFor(st.toHost, id), m, id)
    ensures ReceivedFor(Send(st, m).toGuest, id) == ReceivedFor(st.toGuest, id)
  {
    hide Add, Count;
    assert (st.toHost + [m])[..|st.toHost|] == st.toHost;
  }

  lemma ForwardTotal(st: State, m: ToGuest, id: int)
    ensures ReceivedFor(Forward(st, m).toGuest, id) == Count(ReceivedFor(st.toGuest, id), m, id)
    ensures SentFor(Forward(st, m).toHost, id) == SentFor(st.toHost, id)
  {
    hide Add, Count;
    assert (st.toGuest + [m])[..|st.toGuest|] == st.toGuest;
  }

  // ---------------------------------------------------------------- the invariant

  /** What holds of an operation at any time. */
  predicate Conserved(a: Sent, b: Received) {
    b.ordered && a.starts <= 1 && b.acceptances <= 1 && b.ends <= 1 && b.chunks <= a.credit <= b.chunks + CALL_CREDIT
  }

  /** What holds of it while the broker runs: the call record says exactly what is left. */
  predicate Recorded(st: State, id: int, a: Sent, b: Received) {
    if id in st.calls then
      var c := st.calls[id];
      && id in st.seen && a.starts == 1 && b.ends == 0 && b.acceptances == (if c.accepted then 1 else 0)
      && a.credit == b.chunks + c.credit && 0 <= c.credit <= CALL_CREDIT
    else if id in st.seen then a.starts == 1 && b.ends == 1
    else a == Sent(0, 0) && b == Received(0, 0, 0, true)
  }

  predicate CallOk(st: State, id: int) {
    && Conserved(SentFor(st.toHost, id), ReceivedFor(st.toGuest, id))
    && (!st.closed ==>
          Recorded(st, id, SentFor(st.toHost, id), ReceivedFor(st.toGuest, id)) && |st.calls| <= OUTSTANDING_CALLS)
  }

  /** The message is not about any operation. */
  predicate SilentToHost(m: ToHost) { !m.Started? && !m.Credited? }

  predicate SilentToGuest(m: ToGuest) {
    !m.Accepted? && !m.Chunk? && !m.Result? && !m.Error? && !m.OutcomeUnknown?
  }

  /** Nothing of this operation's state or messages changed. */
  predicate Untouched(a: State, b: State, id: int) {
    && a.toHost == b.toHost && a.toGuest == b.toGuest && a.closed == b.closed
    && a.calls == b.calls && (id in a.seen <==> id in b.seen)
  }

  lemma UntouchedOk(a: State, b: State, id: int)
    requires CallOk(a, id) && Untouched(a, b, id)
    ensures CallOk(b, id)
  {
  }

  lemma SilentSend(st: State, m: ToHost, id: int)
    requires CallOk(st, id) && SilentToHost(m)
    ensures CallOk(Send(st, m), id)
  {
    hide SentFor, ReceivedFor;
    SendTotal(st, m, id);
  }

  lemma SilentForward(st: State, m: ToGuest, id: int)
    requires CallOk(st, id) && SilentToGuest(m)
    ensures CallOk(Forward(st, m), id)
  {
    hide SentFor, ReceivedFor;
    ForwardTotal(st, m, id);
  }

  lemma ClosedOk(st: State, id: int)
    requires CallOk(st, id)
    ensures CallOk(Shut(st), id)
  {
  }

  lemma FailOk(st: State, code: Code, id: int)
    requires CallOk(st, id)
    ensures CallOk(Fail(st, code), id)
  {
    hide CallOk, Shut;
    SilentSend(st, Failed(code), id);
    SilentSend(Send(st, Failed(code)), Terminated, id);
    assert st.toHost + [Failed(code)] + [Terminated] == st.toHost + [Failed(code), Terminated];
    ClosedOk(Send(Send(st, Failed(code)), Terminated), id);
  }

  // ---------------------------------------------------------------- steps

  lemma NameChecked(patterns: seq<bytes>, name: Option<Name>)
    ensures NameCheck(patterns, name) == None ==> name.Some?
  {
  }

  lemma StartedOk(st: State, m: ToHost, id: int)
    requires CallOk(st, id) && !st.closed && m.Started? && m.id !in st.seen && |st.calls| < OUTSTANDING_CALLS
    ensures CallOk(Send(st.(seen := st.seen + {m.id}, calls := st.calls[m.id := Call(false, 0)]), m), id)
  {
    hide SentFor, ReceivedFor;
    var s := st.(seen := st.seen + {m.id}, calls := st.calls[m.id := Call(false, 0)]);
    SameLogs(st, s, id);
    SendTotal(s, m, id);
    CallsGrow(st.calls, m.id);
  }

  lemma CallsGrow(calls: map<int, Call>, n: int)
    ensures |calls[n := Call(false, 0)]| <= |calls| + 1
  {
    assert calls[n := Call(false, 0)].Keys == calls.Keys + {n};
  }

  lemma StartOk(l: Launch, st: State, m: GuestMessage, id: int)
    requires m.StartCall? && CallOk(st, id) && !st.closed
    ensures CallOk(StartStep(l, st, m), id)
  {
    hide CallOk, NameCheck, Fail, Send;
    forall code ensures CallOk(Fail(st, code), id) {
      FailOk(st, code, id);
    }
    NameChecked(l.grant.call, m.name);
    if m.id.Some? && m.id.value !in st.seen && |st.calls| < OUTSTANDING_CALLS && m.name.Some? && m.args.Some? {
      StartedOk(st, Started(m.id.value, m.name.value, m.args.value, m.deadline), id);
    }
  }

  lemma SameLogs(a: State, b: State, id: int)
    requires a.toHost == b.toHost && a.toGuest == b.toGuest
    ensures SentFor(a.toHost, id) == SentFor(b.toHost, id) && ReceivedFor(a.toGuest, id) == ReceivedFor(b.toGuest, id)
  {
  }

  lemma CreditOk(st: State, m: GuestMessage, id: int)
    requires m.GrantCredit? && CallOk(st, id) && !st.closed
    ensures CallOk(CreditStep(st, m), id)
  {
    hide SentFor, ReceivedFor, Fail;
    forall code ensures CallOk(Fail(st, code), id) {
      FailOk(st, code, id);
    }
    if m.id.Some? && m.id.value in st.calls && m.credit.Some? {
      var n, call := m.id.value, st.calls[m.id.value];
      var s := st.(calls := st.calls[n := call.(credit := call.credit + m.credit.value)]);
      SameLogs(st, s, id);
      SendTotal(s, Credited(n, m.credit.value), id);
      assert s.calls.Keys == st.calls.Keys;
    }
  }

  lemma RenderOk(l: Launch, st: State, m: GuestMessage, now: real, id: int)
    requires m.Render? && CallOk(st, id)
    ensures CallOk(RenderStep(l, st, m, now), id)
  {
    hide SentFor, ReceivedFor, Fail, CallOk, Rate, TargetsOf, Send;
    var timed := st.(renderTimes := Rate(st.renderTimes, now));
    UntouchedOk(st, timed, id);
    forall code ensures CallOk(Fail(timed, code), id) {
      FailOk(timed, code, id);
    }
    if m.revision.Some? {
      match ValidateTree(m.heap, l.grant.media, m.tree)
      case Refused(_) =>
      case Valid(tree) =>
        var s := timed.(renderRevision := m.revision.value, targets := TargetsOf(Heads(tree)));
        UntouchedOk(timed, s, id);
        SilentSend(s, Rendered(m.revision.value, tree), id);
    }
  }

  lemma ReadyOk(st: State, l: Launch, id: int)
    requires CallOk(st, id)
    ensures CallOk(st.(ready := true, toGuest := st.toGuest + [Boot, StateSnapshot(st.stateRevision, l.initial)],
                       toHost := st.toHost + [WorkerReady]), id)
  {
    hide SentFor, ReceivedFor, CallOk;
    var ready := st.(ready := true);
    UntouchedOk(st, ready, id);
    SilentForward(ready, Boot, id);
    SilentForward(Forward(ready, Boot), StateSnapshot(st.stateRevision, l.initial), id);
    SilentSend(Forward(Forward(ready, Boot), StateSnapshot(st.stateRevision, l.initial)), WorkerReady, id);
    assert st.toGuest + [Boot] + [StateSnapshot(st.stateRevision, l.initial)]
        == st.toGuest + [Boot, StateSnapshot(st.stateRevision, l.initial)];
  }

  lemma GuestOk(l: Launch, st: State, m: GuestMessage, now: real, id: int)
    requires CallOk(st, id)
    ensures CallOk(GuestStep(l, st, m, now), id)
  {
    hide SentFor, ReceivedFor, Fail, CallOk, Rate, RenderStep, StartStep, CreditStep, NameCheck, Send;
    var s := st.(guestTimes := Rate(st.guestTimes, now));
    UntouchedOk(st, s, id);
    forall code ensures CallOk(Fail(s, code), id) {
      FailOk(s, code, id);
    }
    ReadyOk(s, l, id);
    NameChecked(l.grant.subscribe, if m.Subscribe? || m.Unsubscribe? then m.name else None);
    NameChecked(l.grant.publish, if m.Publish? then m.name else None);
    if !st.closed && st.ready {
      match m
      case Render(_, _, _) => RenderOk(l, s, m, now, id);
      case Subscribe(name) =>
        if name.Some? {
          UntouchedOk(s, s.(subscriptions := s.subscriptions + {name.value}), id);
          SilentSend(s.(subscriptions := s.subscriptions + {name.value}), Subscribed(name.value), id);
        }
      case Unsubscribe(name) =>
        if name.Some? {
          UntouchedOk(s, s.(subscriptions := s.subscriptions - {name.value}), id);
          SilentSend(s.(subscriptions := s.subscriptions - {name.value}), Unsubscribed(name.value), id);
        }
      case Publish(name, data) =>
        if name.Some? && data.Some? { SilentSend(s, Published(name.value, data.value), id); }
      case StartCall(_, _, _, _) => StartOk(l, s, m, id);
      case GrantCredit(_, _) => CreditOk(s, m, id);
      case CancelCall(n) => if n.Some? { SilentSend(s, Cancelled(n.value), id); }
      case WriteLog(_) => SilentSend(s, Logged, id);
      case _ =>
    }
  }

  lemma ChunkOk(st: State, m: HostMessage, id: int)
    requires m.CallChunk? && CallOk(st, id) && !st.closed
    ensures CallOk(ChunkStep(st, m), id)
  {
    hide SentFor, ReceivedFor, Fail;
    forall code ensures CallOk(Fail(st, code), id) {
      FailOk(st, code, id);
    }
    if m.id.Some? && m.id.value in st.calls && m.value.Some? {
      var n, call := m.id.value, st.calls[m.id.value];
      var s := st.(calls := st.calls[n := call.(credit := call.credit - 1)]);
      SameLogs(st, s, id);
      ForwardTotal(s, Chunk(n, m.value.value), id);
      assert s.calls.Keys == st.calls.Keys;
    }
  }

  predicate Ends(m: ToGuest, id: int) { (m.Result? || m.Error? || m.OutcomeUnknown?) && m.id == id }

  lemma EndOk(st: State, n: Option<int>, ok: bool, last: ToGuest, id: int)
    requires CallOk(st, id) && !st.closed
    requires n.Some? && ok ==> Ends(last, n.value)
    ensures CallOk(EndStep(st, n, ok, last), id)
  {
    hide SentFor, ReceivedFor, Fail;
    FailOk(st, ProtocolViolation, id);
    if n.Some? && n.value in st.calls && ok {
      var s := st.(calls := st.calls - {n.value});
      SameLogs(st, s, id);
      ForwardTotal(s, last, id);
      assert s.calls.Keys == st.calls.Keys - {n.value};
    }
  }

  lemma AcceptOk(st: State, n: int, id: int)
    requires CallOk(st, id) && !st.closed && n in st.calls && !st.calls[n].accepted
    ensures CallOk(Forward(st.(calls := st.calls[n := st.calls[n].(accepted := true)]), Accepted(n)), id)
  {
    hide SentFor, ReceivedFor;
    var s := st.(calls := st.calls[n := st.calls[n].(accepted := true)]);
    SameLogs(st, s, id);
    ForwardTotal(s, Accepted(n), id);
    assert s.calls.Keys == st.calls.Keys;
  }

  lemma SnapshotOk(l: Launch, st: State, m: HostMessage, id: int)
    requires m.Snapshot? && CallOk(st, id)
    ensures CallOk(SnapshotStep(l, st, m), id)
  {
    hide Fail, CallOk, Forward, FirstDenied, MapOf;
    forall code ensures CallOk(Fail(st, code), id) {
      FailOk(st, code, id);
    }
    if m.revision.Some? && m.values.Some? {
      var s := st.(stateRevision := m.revision.value, stale := false);
      UntouchedOk(st, s, id);
      SilentForward(s, StateSnapshot(m.revision.value, MapOf(m.values.value)), id);
    }
  }

  lemma PatchOk(l: Launch, st: State, m: HostMessage, id: int)
    requires m.Patch? && CallOk(st, id)
    ensures CallOk(PatchStep(l, st, m), id)
  {
    hide Fail, CallOk, Forward, FirstDenied;
    forall code ensures CallOk(Fail(st, code), id) {
      FailOk(st, code, id);
    }
    UntouchedOk(st, st.(stale := true), id);
    SilentForward(st.(stale := true), StateStale(st.stateRevision), id);
    if m.base.Some? && m.revision.Some? && m.mutations.Some? {
      var s := st.(stateRevision := m.revision.value);
      UntouchedOk(st, s, id);
      SilentForward(s, StatePatch(m.base.value, m.revision.value, m.mutations.value), id);
    }
  }

  lemma InteractOk(st: State, m: HostMessage, id: int)
    requires m.Interact? && CallOk(st, id)
    ensures CallOk(InteractStep(st, m), id)
  {
    hide Fail, CallOk, Forward, ValueOk;
    forall code ensures CallOk(Fail(st, code), id) {
      FailOk(st, code, id);
    }
    if m.node.Some? && m.node.value in st.targets {
      var t := st.targets[m.node.value];
      SilentForward(st, Interaction(st.renderRevision, m.node.value, t.handler, t.event, m.choice), id);
    }
  }

  lemma LifecycleOk(st: State, id: int)
    requires CallOk(st, id)
    ensures CallOk(Shut(st.(toGuest := st.toGuest + [Disposed], toHost := st.toHost + [Terminated])), id)
    ensures CallOk(st.(staging := false, active := true, suspended := false, toGuest := st.toGuest + [Resumed],
                       toHost := st.toHost + [Active(st.renderRevision)]), id)
    ensures CallOk(Forward(st.(suspended := true), Suspended), id) && CallOk(Forward(st.(suspended := false), Resumed), id)
  {
    hide CallOk, Shut;
    SilentForward(st, Disposed, id);
    SilentSend(Forward(st, Disposed), Terminated, id);
    ClosedOk(Send(Forward(st, Disposed), Terminated), id);
    var on, off := st.(staging := false, active := true, suspended := false), st.(suspended := true);
    UntouchedOk(st, on, id);
    SilentForward(on, Resumed, id);
    SilentSend(Forward(on, Resumed), Active(st.renderRevision), id);
    UntouchedOk(st, off, id);
    SilentForward(off, Suspended, id);
    UntouchedOk(st, st.(suspended := false), id);
    SilentForward(st.(suspended := false), Resumed, id);
  }

  lemma HostOk(l: Launch, st: State, seqno: int, m: HostMessage, id: int)
    requires CallOk(st, id)
    ensures CallOk(HostStep(l, st, seqno, m), id)
  {
    hide SentFor, ReceivedFor, Fail, CallOk, Shut, SnapshotStep, PatchStep, InteractStep, ChunkStep, EndStep, NameCheck, Send, Forward;
    var s := st.(hostSeq := st.hostSeq + 1);
    UntouchedOk(st, s, id);
    UntouchedOk(s, s.(stale := true), id);
    forall code ensures CallOk(Fail(s, code), id) && CallOk(Fail(st, code), id) && CallOk(Fail(s.(stale := true), code), id) {
      FailOk(s, code, id);
      FailOk(st, code, id);
      FailOk(s.(stale := true), code, id);
    }
    LifecycleOk(s, id);
    NameChecked(l.grant.subscribe, if m.Deliver? then m.name else None);
    if !st.closed && st.ready {
      match m
      case Ping(data) => SilentSend(s, Pong(data), id);
      case Interact(_, _, _, _) => InteractOk(s, m, id);
      case Snapshot(_, _) => SnapshotOk(l, s, m, id);
      case Patch(_, _, _) => PatchOk(l, s, m, id);
      case Stale(revision, _) => if revision.Some? { SilentForward(s.(stale := true), StateStale(revision.value), id); }
      case Deliver(name, data) => if name.Some? && data.Some? { SilentForward(s, Event(name.value, data.value), id); }
      case CallAccepted(n) => if n.Some? && n.value in s.calls && !s.calls[n.value].accepted { AcceptOk(s, n.value, id); }
      case CallChunk(_, _) => ChunkOk(s, m, id);
      case CallResult(n, value) =>
        EndOk(s, n, value.Some?, if n.Some? && value.Some? then Result(n.value, value.value) else Suspended, id);
      case CallError(n, ok) => EndOk(s, n, ok, if n.Some? then Error(n.value) else Suspended, id);
      case CallOutcomeUnknown(n, ok) => EndOk(s, n, ok, if n.Some? then OutcomeUnknown(n.value) else Suspended, id);
      case _ =>
    }
  }

  lemma {:induction false} RunOk(l: Launch, inputs: seq<Input>, id: int)
    ensures CallOk(Run(l, inputs), id)
  {
    hide CallOk, GuestStep, HostStep;
    if inputs == [] {
      LaunchedOk(l, id);
    } else {
      var before, last := inputs[..|inputs| - 1], inputs[|inputs| - 1];
      RunOk(l, before, id);
      match last
      case FromGuest(m, now) => GuestOk(l, Run(l, before), m, now, id);
      case FromHost(seqno, h) => HostOk(l, Run(l, before), seqno, h, id);
    }
  }

  lemma LaunchedOk(l: Launch, id: int)
    ensures CallOk(Launched(l), id)
  {
  }

  // ---------------------------------------------------------------- the theorems

  /**
   * In every run an operation ID is started at most once, accepted at most once and ended at most
   * once, with nothing after the end; the chunks forwarded never exceed the credit granted, by at most 32; and while the call is
   * outstanding its remaining credit is exactly the difference.
   */
  lemma CallConservation(l: Launch, inputs: seq<Input>, id: int)
    ensures var st := Run(l, inputs);
      var a, b := SentFor(st.toHost, id), ReceivedFor(st.toGuest, id);
      && a.starts <= 1 && b.acceptances <= 1 && b.ends <= 1 && b.ordered
      && b.chunks <= a.credit <= b.chunks + CALL_CREDIT
      && (!st.closed ==>
            && |st.calls| <= OUTSTANDING_CALLS
            && (id in st.calls <==> a.starts == 1 && b.ends == 0)
            && (id in st.calls ==> a.credit == b.chunks + st.calls[id].credit && 0 <= st.calls[id].credit <= CALL_CREDIT))
  {
    hide Run, SentFor, ReceivedFor;
    RunOk(l, inputs, id);
  }
}
