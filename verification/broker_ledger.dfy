/** The broker's subscriptions and its running state can be read off what it sent. */
module BrokerLedger {
  import opened Wire
  import opened Options
  import opened Broker
  import opened BrokerCauses
  import opened BrokerAnswers

  /** The names last subscribed to and not unsubscribed from since. */
  function SubscribedBy(log: seq<ToHost>): set<Name> {
    if log == [] then {}
    else
      var before, m := SubscribedBy(log[..|log| - 1]), log[|log| - 1];
      if m.Subscribed? then before + {m.name} else if m.Unsubscribed? then before - {m.name} else before
  }

  /** Whether the runtime was told last to suspend. */
  function SuspendedBy(log: seq<ToGuest>): bool {
    if log == [] then false
    else
      var m := log[|log| - 1];
      if m.Suspended? then true else if m.Resumed? then false else SuspendedBy(log[..|log| - 1])
  }

  /** Whether the host was told that the runtime is active. */
  function ActivatedBy(log: seq<ToHost>): bool {
    log != [] && (log[|log| - 1].Active? || ActivatedBy(log[..|log| - 1]))
  }

  lemma SentOne(log: seq<ToHost>, m: ToHost)
    ensures SubscribedBy(log + [m]) ==
      if m.Subscribed? then SubscribedBy(log) + {m.name} else if m.Unsubscribed? then SubscribedBy(log) - {m.name}
      else SubscribedBy(log)
    ensures ActivatedBy(log + [m]) <==> m.Active? || ActivatedBy(log)
  {
    assert (log + [m])[..|log|] == log;
  }

  lemma ForwardedOne(log: seq<ToGuest>, m: ToGuest)
    ensures SuspendedBy(log + [m]) == if m.Suspended? then true else if m.Resumed? then false else SuspendedBy(log)
  {
    assert (log + [m])[..|log|] == log;
  }

  predicate Recorded(l: Launch, st: State) {
    !st.closed ==>
      && st.subscriptions == SubscribedBy(st.toHost) && st.suspended == SuspendedBy(st.toGuest)
      && st.active == ActivatedBy(st.toHost) && st.staging == (l.staging && !st.active)
  }

  /** One message to the host that is neither about subscriptions nor about activation changes nothing of this. */
  lemma PlainSent(l: Launch, a: State, b: State, m: ToHost)
    requires Recorded(l, a) && b.toHost == a.toHost + [m] && b.toGuest == a.toGuest && !a.closed
    requires b.staging == a.staging && b.active == a.active && b.suspended == a.suspended
    requires b.subscriptions == (if m.Subscribed? then a.subscriptions + {m.name}
                                 else if m.Unsubscribed? then a.subscriptions - {m.name} else a.subscriptions)
    requires !m.Active?
    ensures Recorded(l, b)
  {
    hide SubscribedBy, SuspendedBy, ActivatedBy;
    SentOne(a.toHost, m);
  }

  lemma EffectRecorded(l: Launch, st: State, after: State, m: GuestMessage)
    requires Recorded(l, st) && !st.closed && GuestEffect(st, after, m)
    ensures Recorded(l, after)
  {
    if m.Subscribe? || m.Unsubscribe? {
      TopicRecorded(l, st, after, m);
    } else {
      hide Recorded;
      PlainSent(l, st, after, after.toHost[|st.toHost|]);
    }
  }

  lemma TopicRecorded(l: Launch, st: State, after: State, m: GuestMessage)
    requires Recorded(l, st) && !st.closed && GuestEffect(st, after, m) && (m.Subscribe? || m.Unsubscribe?)
    ensures Recorded(l, after)
  {
    hide Recorded;
    if m.Subscribe? {
      PlainSent(l, st, after, Subscribed(m.name.value));
    } else {
      PlainSent(l, st, after, Unsubscribed(m.name.value));
    }
  }

  lemma GuestRecorded(l: Launch, st: State, m: GuestMessage, now: real)
    requires Recorded(l, st) && !st.closed
    ensures Recorded(l, GuestStep(l, st, m, now))
  {
    hide Rate, GuestStep, GuestAccepted, GuestEffect, Admitted;
    var after := GuestStep(l, st, m, now);
    if |Rate(st.guestTimes, now)| > 120 {
      TooFast(l, st, m, now);
    } else if !st.ready {
      BootExactly(l, st, m, now);
      SentOne(st.toHost, WorkerReady);
      BootForwarded(st.toGuest, StateSnapshot(st.stateRevision, l.initial));
      hide SubscribedBy, SuspendedBy, ActivatedBy;
    } else if m.Render? {
      RenderExactly(l, st, m, now);
      hide SubscribedBy, SuspendedBy, ActivatedBy;
      if !after.closed {
        PlainSent(l, st, after, after.toHost[|st.toHost|]);
      }
    } else {
      GuestExactly(l, st, m, now);
      hide SubscribedBy, SuspendedBy, ActivatedBy;
      if !after.closed {
        EffectRecorded(l, st, after, m);
      }
    }
  }

  lemma BootForwarded(log: seq<ToGuest>, m: ToGuest)
    requires m.StateSnapshot?
    ensures SuspendedBy(log + [Boot, m]) == SuspendedBy(log)
  {
    ForwardedOne(log, Boot);
    ForwardedOne(log + [Boot], m);
    assert log + [Boot] + [m] == log + [Boot, m];
  }

  lemma HostRecorded(l: Launch, st: State, seqno: int, h: HostMessage)
    requires Recorded(l, st) && !st.closed
    ensures Recorded(l, HostStep(l, st, seqno, h))
  {
    hide SubscribedBy, SuspendedBy, ActivatedBy, HostStep, HostAccepted, HostEffect;
    var after := HostStep(l, st, seqno, h);
    if seqno != st.hostSeq || h.HostMalformed? || (!st.ready && !h.Dispose?) {
      HostOutOfTurn(l, st, seqno, h);
    } else if h.Dispose? {
      DisposeExactly(l, st);
    } else {
      HostExactly(l, st, h);
      hide Recorded;
      if !after.closed {
        HostEffectRecorded(l, st, after, h);
      } else {
        ClosedRecorded(l, after);
      }
    }
  }

  lemma ClosedRecorded(l: Launch, st: State)
    requires st.closed
    ensures Recorded(l, st)
  {
  }

  /** One message to the guest that is not about suspension changes nothing of this. */
  lemma PlainForwarded(l: Launch, a: State, b: State, m: ToGuest)
    requires Recorded(l, a) && b.toHost == a.toHost && b.toGuest == a.toGuest + [m] && !a.closed
    requires b.staging == a.staging && b.active == a.active && b.subscriptions == a.subscriptions
    requires b.suspended == if m.Suspended? then true else if m.Resumed? then false else a.suspended
    ensures Recorded(l, b)
  {
    hide SubscribedBy, SuspendedBy, ActivatedBy;
    ForwardedOne(a.toGuest, m);
  }

  lemma HostEffectRecorded(l: Launch, st: State, after: State, h: HostMessage)
    requires Recorded(l, st) && !st.closed && HostEffect(st, after, h)
    ensures Recorded(l, after)
  {
    if h.Activate? {
      SentOne(st.toHost, Active(st.renderRevision));
      ForwardedOne(st.toGuest, Resumed);
    } else if h.CallAccepted? || h.CallChunk? || h.CallResult? || h.CallError? || h.CallOutcomeUnknown? {
      CallEffectRecorded(l, st, after, h);
    } else if h.Snapshot? || h.Patch? || h.Stale? {
      StateEffectRecorded(l, st, after, h);
    } else {
      hide Recorded;
      match h {
        case Ping(echo) => PlainSent(l, st, after, Pong(echo));
        case Interact(revision, node, event, choice) =>
          PlainForwarded(l, st, after, Interaction(revision, node.value, st.targets[node.value].handler, event, choice));
        case Deliver(name, data) => PlainForwarded(l, st, after, Event(name.value, data.value));
        case Suspend => PlainForwarded(l, st, after, Suspended);
        case Resume => PlainForwarded(l, st, after, Resumed);
      }
    }
  }

  lemma CallEffectRecorded(l: Launch, st: State, after: State, h: HostMessage)
    requires Recorded(l, st) && !st.closed && HostEffect(st, after, h)
    requires h.CallAccepted? || h.CallChunk? || h.CallResult? || h.CallError? || h.CallOutcomeUnknown?
    ensures Recorded(l, after)
  {
    hide Recorded;
    match h {
      case CallAccepted(id) => PlainForwarded(l, st, after, Accepted(id.value));
      case CallChunk(id, value) => PlainForwarded(l, st, after, Chunk(id.value, value.value));
      case CallResult(id, value) => PlainForwarded(l, st, after, Result(id.value, value.value));
      case CallError(id, _) => PlainForwarded(l, st, after, Error(id.value));
      case CallOutcomeUnknown(id, _) => PlainForwarded(l, st, after, OutcomeUnknown(id.value));
    }
  }

  lemma StateEffectRecorded(l: Launch, st: State, after: State, h: HostMessage)
    requires Recorded(l, st) && !st.closed && HostEffect(st, after, h) && (h.Snapshot? || h.Patch? || h.Stale?)
    ensures Recorded(l, after)
  {
    hide Recorded, MapOf;
    match h {
      case Snapshot(revision, values) => PlainForwarded(l, st, after, StateSnapshot(revision.value, MapOf(values.value)));
      case Patch(base, revision, mutations) =>
        if base.value != st.stateRevision || revision.value != base.value + 1 {
          PlainForwarded(l, st, after, StateStale(st.stateRevision));
        } else if st.stale {
          Unsent(l, st, after);
        } else {
          PlainForwarded(l, st, after, StatePatch(base.value, revision.value, mutations.value));
        }
      case Stale(revision, _) => PlainForwarded(l, st, after, StateStale(revision.value));
    }
  }

  lemma Unsent(l: Launch, a: State, b: State)
    requires Recorded(l, a) && !a.closed && b == a.(hostSeq := b.hostSeq)
    ensures Recorded(l, b)
  {
  }

  /**
   * While the broker runs, its subscriptions are the names last subscribed to in what it sent the
   * host, and whether it may act for the guest is what it last told both sides.
   */
  lemma {:induction false} RunRecorded(l: Launch, inputs: seq<Input>)
    ensures Recorded(l, Run(l, inputs))
  {
    if inputs != [] {
      hide GuestStep, HostStep, Recorded;
      var st := Run(l, inputs[..|inputs| - 1]);
      RunRecorded(l, inputs[..|inputs| - 1]);
      if st.closed {
        ClosedForGood(l, st, inputs[|inputs| - 1]);
      } else if inputs[|inputs| - 1].FromGuest? {
        GuestRecorded(l, st, inputs[|inputs| - 1].m, inputs[|inputs| - 1].now);
      } else {
        HostRecorded(l, st, inputs[|inputs| - 1].seqno, inputs[|inputs| - 1].h);
      }
    }
  }
}
