/** Every message in the broker's two logs was called for by one input, says what that input said, and was allowed. */
module BrokerCauses {
  import opened Wire
  import opened Names
  import opened Options
  import opened Capabilities
  import Ui = UiContract
  import opened UiTree
  import opened Broker

  /** A well-formed name that some pattern of the grant admits. */
  predicate Admitted(patterns: seq<bytes>, name: Name) { DottedName(name) && Grants(patterns, name) }

  lemma NameCheckExactly(patterns: seq<bytes>, name: Option<Name>)
    ensures NameCheck(patterns, name) == None <==> name.Some? && Admitted(patterns, name.value)
    ensures NameCheck(patterns, name) == Some(ProtocolViolation) <==> name == None || !DottedName(name.value)
    ensures NameCheck(patterns, name) == Some(CapabilityDenied) <==>
      name.Some? && DottedName(name.value) && !Grants(patterns, name.value)
  {
    hide DottedName, Grants;
  }

  /** Every path may be read. */
  predicate Readable(l: Launch, paths: seq<Name>) { forall i :: 0 <= i < |paths| ==> Admitted(l.grant.stateRead, paths[i]) }

  lemma {:induction false} FirstDeniedExactly(l: Launch, paths: seq<Name>)
    ensures FirstDenied(l, paths) == None <==> Readable(l, paths)
  {
    hide DottedName, Grants;
    if paths != [] {
      FirstDeniedExactly(l, paths[1..]);
      assert forall i :: 1 <= i < |paths| ==> paths[i] == paths[1..][i - 1];
    }
  }

  // ---------------------------------------------------------------- what may be sent, and when

  /** What the state `st` and the input `i` have to be for the host to be sent `m`. */
  ghost predicate HostCause(l: Launch, st: State, i: Input, m: ToHost) {
    !st.closed &&
    match m
    case WorkerReady => i.FromGuest? && i.m == Ready(true) && !st.ready
    case Rendered(revision, tree) =>
      && st.ready && i.FromGuest? && i.m.Render? && i.m.revision == Some(revision) && revision == st.renderRevision + 1
      && ValidateTree(i.m.heap, l.grant.media, i.m.tree) == Ui.Valid(tree)
    case Subscribed(name) => st.ready && i.FromGuest? && i.m == Subscribe(Some(name)) && Admitted(l.grant.subscribe, name)
    case Unsubscribed(name) => st.ready && i.FromGuest? && i.m == Unsubscribe(Some(name)) && Admitted(l.grant.subscribe, name)
    case Published(name, data) =>
      st.ready && Running(st) && i.FromGuest? && i.m == Publish(Some(name), Some(data)) && Admitted(l.grant.publish, name)
    case Started(id, name, args, deadline) =>
      && st.ready && Running(st) && i.FromGuest? && i.m == StartCall(Some(id), Some(name), Some(args), deadline)
      && Admitted(l.grant.call, name) && id !in st.seen && |st.calls| < 32
      && !deadline.BadDeadline? && (deadline.DeadlineMs? ==> deadline.ms <= 300_000)
    case Credited(id, credit) =>
      && st.ready && Running(st) && i.FromGuest? && i.m == GrantCredit(Some(id), Some(credit)) && id in st.calls
      && 1 <= credit && st.calls[id].credit + credit <= 32
    case Cancelled(id) => st.ready && Running(st) && i.FromGuest? && i.m == CancelCall(Some(id)) && id in st.calls
    case Logged => st.ready && i.FromGuest? && i.m == WriteLog(true)
    case Active(revision) => st.ready && i.FromHost? && i.h == Activate && revision == st.renderRevision != 0
    case Pong(data) => st.ready && i.FromHost? && i.h == Ping(data)
    case Failed(_) => true
    case Terminated => true
  }

  /** What they have to be for the guest to be sent `m`. */
  ghost predicate GuestCause(l: Launch, st: State, i: Input, m: ToGuest) {
    !st.closed &&
    match m
    case Boot => i.FromGuest? && i.m == Ready(true) && !st.ready
    case StateSnapshot(revision, values) =>
      || (i.FromGuest? && i.m == Ready(true) && !st.ready && revision == st.stateRevision && values == l.initial)
      || (&& st.ready && i.FromHost? && i.h.Snapshot? && i.h.revision == Some(revision) && revision >= st.stateRevision
          && i.h.values.Some? && Readable(l, EntryPaths(i.h.values.value)) && values == MapOf(i.h.values.value))
    case StatePatch(base, revision, mutations) =>
      && st.ready && i.FromHost? && i.h == Patch(Some(base), Some(revision), Some(mutations)) && !st.stale
      && base == st.stateRevision && revision == base + 1 && Readable(l, Paths(mutations))
    case StateStale(revision) =>
      st.ready && i.FromHost? &&
      (|| (i.h.Stale? && i.h.revision == Some(revision) && i.h.reasonOk)
       || (i.h.Patch? && revision == st.stateRevision && i.h.base.Some? && i.h.revision.Some?
           && (i.h.base.value != st.stateRevision || i.h.revision.value != i.h.base.value + 1)))
    case Interaction(revision, node, _, event, choice) =>
      st.ready && Running(st) && i.FromHost? && i.h == Interact(revision, Some(node), event, choice)
    case Event(name, data) =>
      && st.ready && i.FromHost? && i.h == Deliver(Some(name), Some(data))
      && name in st.subscriptions && Admitted(l.grant.subscribe, name)
    case Accepted(id) => st.ready && i.FromHost? && i.h == CallAccepted(Some(id)) && id in st.calls && !st.calls[id].accepted
    case Chunk(id, value) =>
      && st.ready && i.FromHost? && i.h == CallChunk(Some(id), Some(value)) && id in st.calls
      && st.calls[id].accepted && st.calls[id].credit > 0
    case Result(id, value) => st.ready && i.FromHost? && i.h == CallResult(Some(id), Some(value)) && id in st.calls
    case Error(id) => st.ready && i.FromHost? && i.h == CallError(Some(id), true) && id in st.calls
    case OutcomeUnknown(id) => st.ready && i.FromHost? && i.h == CallOutcomeUnknown(Some(id), true) && id in st.calls
    case Suspended => st.ready && i.FromHost? && i.h == Suspend && st.active && !st.suspended
    case Resumed =>
      st.ready && i.FromHost? && ((i.h == Resume && st.active && st.suspended) || (i.h == Activate && st.renderRevision != 0))
    case Disposed => i.FromHost? && i.h == Dispose
  }

  ghost predicate Caused(l: Launch, a: State, i: Input, b: State) {
    && a.toHost <= b.toHost && a.toGuest <= b.toGuest
    && (forall j :: |a.toHost| <= j < |b.toHost| ==> HostCause(l, a, i, b.toHost[j]))
    && (forall j :: |a.toGuest| <= j < |b.toGuest| ==> GuestCause(l, a, i, b.toGuest[j]))
  }

  // ---------------------------------------------------------------- one step

  /** The same as far as causes go. */
  predicate Like(a: State, s: State) { s == a.(hostSeq := s.hostSeq, guestTimes := s.guestTimes, renderTimes := s.renderTimes) }

  lemma Silent(l: Launch, a: State, i: Input, b: State)
    requires b.toHost == a.toHost && b.toGuest == a.toGuest
    ensures Caused(l, a, i, b)
  {
  }

  lemma Sends(l: Launch, a: State, i: Input, b: State, m: ToHost)
    requires b.toHost == a.toHost && b.toGuest == a.toGuest && HostCause(l, a, i, m)
    ensures Caused(l, a, i, Send(b, m))
  {
    hide HostCause, GuestCause;
  }

  lemma Forwards(l: Launch, a: State, i: Input, b: State, m: ToGuest)
    requires b.toHost == a.toHost && b.toGuest == a.toGuest && GuestCause(l, a, i, m)
    ensures Caused(l, a, i, Forward(b, m))
  {
    hide HostCause, GuestCause;
  }

  lemma Fails(l: Launch, a: State, i: Input, b: State, code: Code)
    requires b.toHost == a.toHost && b.toGuest == a.toGuest && !a.closed
    ensures Caused(l, a, i, Fail(b, code))
  {
    hide GuestCause;
  }

  lemma TopicCaused(l: Launch, a: State, s: State, i: Input)
    requires i.FromGuest? && (i.m.Subscribe? || i.m.Unsubscribe? || i.m.Publish?) && Like(a, s) && !a.closed && a.ready
    ensures Caused(l, a, i, TopicStep(l, s, i.m))
  {
    hide NameCheck, Admitted, Caused, Send, Fail;
    NameCheckExactly(if i.m.Publish? then l.grant.publish else l.grant.subscribe, i.m.name);
    forall code ensures Caused(l, a, i, Fail(s, code)) { Fails(l, a, i, s, code); }
    if i.m.name.Some? && NameCheck(if i.m.Publish? then l.grant.publish else l.grant.subscribe, i.m.name) == None {
      var name := i.m.name.value;
      if i.m.Subscribe? {
        Sends(l, a, i, s.(subscriptions := s.subscriptions + {name}), Subscribed(name));
      } else if i.m.Unsubscribe? {
        Sends(l, a, i, s.(subscriptions := s.subscriptions - {name}), Unsubscribed(name));
      } else if Running(s) && i.m.data.Some? {
        Sends(l, a, i, s, Published(name, i.m.data.value));
      }
    }
  }

  lemma StartCaused(l: Launch, a: State, s: State, i: Input)
    requires i.FromGuest? && i.m.StartCall? && Like(a, s) && !a.closed && a.ready
    ensures Caused(l, a, i, StartStep(l, s, i.m))
  {
    hide NameCheck, Admitted, Caused, Send, Fail;
    NameCheckExactly(l.grant.call, i.m.name);
    forall code ensures Caused(l, a, i, Fail(s, code)) { Fails(l, a, i, s, code); }
    var m := i.m;
    if m.name.Some? && m.id.Some? && m.args.Some? && HostCause(l, a, i, Started(m.id.value, m.name.value, m.args.value, m.deadline)) {
      var id := m.id.value;
      Sends(l, a, i, s.(seen := s.seen + {id}, calls := s.calls[id := Call(false, 0)]),
        Started(id, m.name.value, m.args.value, m.deadline));
    }
  }

  lemma CreditCaused(l: Launch, a: State, s: State, i: Input)
    requires i.FromGuest? && i.m.GrantCredit? && Like(a, s) && !a.closed && a.ready
    ensures Caused(l, a, i, CreditStep(s, i.m))
  {
    hide Caused, Send, Fail;
    forall code ensures Caused(l, a, i, Fail(s, code)) { Fails(l, a, i, s, code); }
    var m := i.m;
    if m.id.Some? && m.credit.Some? && HostCause(l, a, i, Credited(m.id.value, m.credit.value)) {
      var id := m.id.value;
      Sends(l, a, i, s.(calls := s.calls[id := s.calls[id].(credit := s.calls[id].credit + m.credit.value)]),
        Credited(id, m.credit.value));
    }
  }

  lemma RenderCaused(l: Launch, a: State, s: State, i: Input, now: real)
    requires i.FromGuest? && i.m.Render? && Like(a, s) && !a.closed && a.ready
    ensures Caused(l, a, i, RenderStep(l, s, i.m, now))
  {
    hide Caused, Send, Fail, Rate, ValidateTree, TargetsOf, Heads;
    var timed := s.(renderTimes := Rate(s.renderTimes, now));
    forall code ensures Caused(l, a, i, Fail(timed, code)) { Fails(l, a, i, timed, code); }
    if i.m.revision == Some(s.renderRevision + 1) {
      var checked := ValidateTree(i.m.heap, l.grant.media, i.m.tree);
      if checked.Valid? {
        Sends(l, a, i, timed.(renderRevision := i.m.revision.value, targets := TargetsOf(Heads(checked.value))),
          Rendered(i.m.revision.value, checked.value));
      }
    }
  }

  lemma GuestCaused(l: Launch, a: State, m: GuestMessage, now: real)
    ensures Caused(l, a, FromGuest(m, now), GuestStep(l, a, m, now))
  {
    hide Caused, Send, Fail, Rate, TopicStep, StartStep, CreditStep, RenderStep;
    var i := FromGuest(m, now);
    if a.closed {
      Silent(l, a, i, a);
    } else {
      var s := a.(guestTimes := Rate(a.guestTimes, now));
      forall code ensures Caused(l, a, i, Fail(s, code)) { Fails(l, a, i, s, code); }
      if !a.ready {
        if m == Ready(true) {
          ReadyCaused(l, a, s, i);
        }
      } else if m.Subscribe? || m.Unsubscribe? || m.Publish? {
        TopicCaused(l, a, s, i);
      } else if m.StartCall? {
        StartCaused(l, a, s, i);
      } else if m.GrantCredit? {
        CreditCaused(l, a, s, i);
      } else if m.Render? {
        RenderCaused(l, a, s, i, now);
      } else if m.CancelCall? && m.id.Some? && m.id.value in a.calls && Running(a) {
        Sends(l, a, i, s, Cancelled(m.id.value));
      } else if m == WriteLog(true) {
        Sends(l, a, i, s, Logged);
      }
    }
  }

  lemma ReadyCaused(l: Launch, a: State, s: State, i: Input)
    requires Like(a, s) && !a.closed && !a.ready && i.FromGuest? && i.m == Ready(true)
    ensures Caused(
      l, a, i, s.(ready := true, toGuest := s.toGuest + [Boot, StateSnapshot(a.stateRevision, l.initial)],
                  toHost := s.toHost + [WorkerReady]))
  {
  }

  lemma StateCaused(l: Launch, a: State, s: State, i: Input)
    requires i.FromHost? && Like(a, s) && !a.closed && a.ready
    ensures i.h.Snapshot? ==> Caused(l, a, i, SnapshotStep(l, s, i.h))
    ensures i.h.Patch? ==> Caused(l, a, i, PatchStep(l, s, i.h))
  {
    hide Caused, Forward, Fail, FirstDenied, Readable, EntryPaths, Paths, MapOf;
    forall code ensures Caused(l, a, i, Fail(s, code)) { Fails(l, a, i, s, code); }
    Silent(l, a, i, s);
    if i.h.Snapshot? && i.h.revision.Some? && i.h.values.Some? {
      FirstDeniedExactly(l, EntryPaths(i.h.values.value));
      var m := StateSnapshot(i.h.revision.value, MapOf(i.h.values.value));
      if GuestCause(l, a, i, m) {
        Forwards(l, a, i, s.(stateRevision := i.h.revision.value, stale := false), m);
      }
    }
    if i.h.Patch? && i.h.base.Some? && i.h.revision.Some? {
      if GuestCause(l, a, i, StateStale(s.stateRevision)) {
        Forwards(l, a, i, s.(stale := true), StateStale(s.stateRevision));
      }
      if i.h.mutations.Some? {
        FirstDeniedExactly(l, Paths(i.h.mutations.value));
        var m := StatePatch(i.h.base.value, i.h.revision.value, i.h.mutations.value);
        if GuestCause(l, a, i, m) {
          Forwards(l, a, i, s.(stateRevision := i.h.revision.value), m);
        }
      }
    }
  }

  lemma CallCaused(l: Launch, a: State, s: State, i: Input)
    requires i.FromHost? && Like(a, s) && !a.closed && a.ready
    ensures i.h.CallChunk? ==> Caused(l, a, i, ChunkStep(s, i.h))
    ensures i.h.CallResult? || i.h.CallError? || i.h.CallOutcomeUnknown? ==> Caused(l, a, i, EndingStep(s, i.h))
    ensures i.h.Interact? ==> Caused(l, a, i, InteractStep(s, i.h))
  {
    hide Caused, Forward, Fail, ValueOk;
    forall code ensures Caused(l, a, i, Fail(s, code)) { Fails(l, a, i, s, code); }
    if i.h.Interact? {
      if i.h.node.Some? && i.h.node.value in s.targets {
        var m := Interaction(s.renderRevision, i.h.node.value, s.targets[i.h.node.value].handler, s.targets[i.h.node.value].event, i.h.choice);
        if GuestCause(l, a, i, m) {
          Forwards(l, a, i, s, m);
        }
      }
    } else if (i.h.CallChunk? || i.h.CallResult? || i.h.CallError? || i.h.CallOutcomeUnknown?) && i.h.id.Some? && i.h.id.value in s.calls {
      var id := i.h.id.value;
      var ended := s.(calls := s.calls - {id});
      if i.h.CallChunk? && i.h.value.Some? && s.calls[id].accepted && s.calls[id].credit > 0 {
        Forwards(l, a, i, s.(calls := s.calls[id := s.calls[id].(credit := s.calls[id].credit - 1)]), Chunk(id, i.h.value.value));
      } else if i.h.CallResult? && i.h.value.Some? {
        Forwards(l, a, i, ended, Result(id, i.h.value.value));
      } else if i.h.CallError? && i.h.ok {
        Forwards(l, a, i, ended, Error(id));
      } else if i.h.CallOutcomeUnknown? && i.h.ok {
        Forwards(l, a, i, ended, OutcomeUnknown(id));
      }
    }
  }

  lemma OtherCaused(l: Launch, a: State, s: State, i: Input)
    requires i.FromHost? && Other(i.h) && Like(a, s) && !a.closed && a.ready
    ensures Caused(l, a, i, OtherStep(l, s, i.h))
  {
    hide Caused, Forward, Send, Fail, NameCheck, Admitted;
    forall code ensures Caused(l, a, i, Fail(s, code)) { Fails(l, a, i, s, code); }
    var h := i.h;
    if h.Activate? {
      if s.renderRevision != 0 {
        ActivateCaused(l, a, s, i);
      }
    } else if h.Ping? {
      Sends(l, a, i, s, Pong(h.echo));
    } else if h.Stale? {
      Fails(l, a, i, s.(stale := true), ProtocolViolation);
      if h.revision.Some? && h.reasonOk {
        Forwards(l, a, i, s.(stale := true), StateStale(h.revision.value));
      }
    } else if h.Deliver? {
      NameCheckExactly(l.grant.subscribe, h.name);
      if h.name.Some? && h.data.Some? && GuestCause(l, a, i, Event(h.name.value, h.data.value)) {
        Forwards(l, a, i, s, Event(h.name.value, h.data.value));
      }
    } else if h.CallAccepted? && h.id.Some? && h.id.value in s.calls && !s.calls[h.id.value].accepted {
      Forwards(l, a, i, s.(calls := s.calls[h.id.value := s.calls[h.id.value].(accepted := true)]), Accepted(h.id.value));
    } else if h.Suspend? && s.active && !s.suspended {
      Forwards(l, a, i, s.(suspended := true), Suspended);
    } else if h.Resume? && s.active && s.suspended {
      Forwards(l, a, i, s.(suspended := false), Resumed);
    }
  }

  lemma ActivateCaused(l: Launch, a: State, s: State, i: Input)
    requires Like(a, s) && !a.closed && a.ready && i.FromHost? && i.h == Activate && s.renderRevision != 0
    ensures Caused(
      l, a, i, s.(staging := false, active := true, suspended := false, toGuest := s.toGuest + [Resumed],
                  toHost := s.toHost + [Active(s.renderRevision)]))
  {
  }

  lemma HostCaused(l: Launch, a: State, seqno: int, h: HostMessage)
    ensures Caused(l, a, FromHost(seqno, h), HostStep(l, a, seqno, h))
  {
    hide Caused, Fail, InteractStep, SnapshotStep, PatchStep, ChunkStep, EndingStep, OtherStep;
    var i := FromHost(seqno, h);
    var s := a.(hostSeq := a.hostSeq + 1);
    if a.closed {
      Silent(l, a, i, a);
    } else {
      Fails(l, a, i, a, ProtocolViolation);
      Fails(l, a, i, s, ProtocolViolation);
      if h.Dispose? {
        DisposeCaused(l, a, s, i);
      } else if a.ready {
        StateCaused(l, a, s, i);
        CallCaused(l, a, s, i);
        if Other(h) {
          OtherCaused(l, a, s, i);
        }
      }
    }
  }

  lemma DisposeCaused(l: Launch, a: State, s: State, i: Input)
    requires Like(a, s) && !a.closed && i.FromHost? && i.h == Dispose
    ensures Caused(l, a, i, Shut(s.(toGuest := s.toGuest + [Disposed], toHost := s.toHost + [Terminated])))
  {
  }

  // ---------------------------------------------------------------- whole runs

  lemma StepCaused(l: Launch, st: State, i: Input)
    ensures Caused(l, st, i, Step(l, st, i))
  {
    hide Caused, GuestStep, HostStep;
    if i.FromGuest? {
      GuestCaused(l, st, i.m, i.now);
    } else {
      HostCaused(l, st, i.seqno, i.h);
    }
  }

  /**
   * Every message in the log of what the host received was sent in one step of the run, whose input
   * and state called for it: what is published, subscribed, started or credited is exactly what the
   * guest asked for, under a name its grant admits, while the runtime was in a state to ask for it.
   */
  lemma {:induction false} HostLogCaused(l: Launch, inputs: seq<Input>, j: nat) returns (k: nat)
    requires j < |Run(l, inputs).toHost|
    ensures k < |inputs| && |Run(l, inputs[..k]).toHost| <= j < |Run(l, inputs[..k + 1]).toHost|
    ensures Run(l, inputs[..k + 1]).toHost[j] == Run(l, inputs).toHost[j]
    ensures HostCause(l, Run(l, inputs[..k]), inputs[k], Run(l, inputs).toHost[j])
  {
    hide Step, HostCause, GuestCause;
    if inputs != [] {
      var n := |inputs| - 1;
      var st := Run(l, inputs[..n]);
      StepCaused(l, st, inputs[n]);
      if j < |st.toHost| {
        k := HostLogCaused(l, inputs[..n], j);
        assert inputs[..n][..k] == inputs[..k] && inputs[..n][..k + 1] == inputs[..k + 1];
      } else {
        k := n;
        assert inputs[..n + 1] == inputs;
      }
    }
  }

  /**
   * The same for what the guest received: events only under names it subscribed to and its grant
   * admits, chunks and results only of its own outstanding calls, state only at readable paths.
   */
  lemma {:induction false} GuestLogCaused(l: Launch, inputs: seq<Input>, j: nat) returns (k: nat)
    requires j < |Run(l, inputs).toGuest|
    ensures k < |inputs| && |Run(l, inputs[..k]).toGuest| <= j < |Run(l, inputs[..k + 1]).toGuest|
    ensures Run(l, inputs[..k + 1]).toGuest[j] == Run(l, inputs).toGuest[j]
    ensures GuestCause(l, Run(l, inputs[..k]), inputs[k], Run(l, inputs).toGuest[j])
  {
    hide Step, HostCause, GuestCause;
    if inputs != [] {
      var n := |inputs| - 1;
      var st := Run(l, inputs[..n]);
      StepCaused(l, st, inputs[n]);
      if j < |st.toGuest| {
        k := GuestLogCaused(l, inputs[..n], j);
        assert inputs[..n][..k] == inputs[..k] && inputs[..n][..k + 1] == inputs[..k + 1];
      } else {
        k := n;
        assert inputs[..n + 1] == inputs;
      }
    }
  }
}
