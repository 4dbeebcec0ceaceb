/** Which messages the broker acts on, what each one changes, and how every other one ends the runtime. */
module BrokerAnswers {
  import opened Wire
  import opened Names
  import opened Options
  import opened Capabilities
  import Ui = UiContract
  import opened UiTree
  import opened Broker
  import opened BrokerCauses

  /** The runtime is over: one error to the host, nothing to the guest, nothing left to act on. */
  predicate Ended(a: State, b: State, code: Code) {
    && b.closed && b.toHost == a.toHost + [Failed(code), Terminated] && b.toGuest == a.toGuest
    && b.targets == map[] && b.subscriptions == {} && b.calls == map[] && b.seen == {}
  }

  // ---------------------------------------------------------------- the guest

  /** What a ready broker acts on, renders apart. */
  predicate GuestAccepted(l: Launch, st: State, m: GuestMessage) {
    match m
    case Subscribe(name) => name.Some? && Admitted(l.grant.subscribe, name.value)
    case Unsubscribe(name) => name.Some? && Admitted(l.grant.subscribe, name.value)
    case Publish(name, data) => Running(st) && name.Some? && Admitted(l.grant.publish, name.value) && data.Some?
    case StartCall(id, name, args, deadline) =>
      && Running(st) && name.Some? && Admitted(l.grant.call, name.value) && id.Some? && id.value !in st.seen && |st.calls| < 32
      && !deadline.BadDeadline? && (deadline.DeadlineMs? ==> deadline.ms <= 300_000) && args.Some?
    case GrantCredit(id, credit) =>
      && Running(st) && id.Some? && id.value in st.calls && credit.Some? && 1 <= credit.value
      && st.calls[id.value].credit + credit.value <= 32 && credit.value <= 32
    case CancelCall(id) => Running(st) && id.Some? && id.value in st.calls
    case WriteLog(ok) => ok
    case _ => false
  }

  /** What acting on it changes. The times of guest messages are counted apart. */
  predicate GuestEffect(st: State, after: State, m: GuestMessage) {
    var same := st.(guestTimes := after.guestTimes);
    match m
    case Subscribe(name) => name.Some? &&
      after == same.(subscriptions := st.subscriptions + {name.value}, toHost := st.toHost + [Subscribed(name.value)])
    case Unsubscribe(name) => name.Some? &&
      after == same.(subscriptions := st.subscriptions - {name.value}, toHost := st.toHost + [Unsubscribed(name.value)])
    case Publish(name, data) => name.Some? && data.Some? &&
      after == same.(toHost := st.toHost + [Published(name.value, data.value)])
    case StartCall(id, name, args, deadline) => id.Some? && name.Some? && args.Some? &&
      after == same.(
        seen := st.seen + {id.value}, calls := st.calls[id.value := Call(false, 0)],
        toHost := st.toHost + [Started(id.value, name.value, args.value, deadline)])
    case GrantCredit(id, credit) => id.Some? && credit.Some? && id.value in st.calls &&
      after == same.(
        calls := st.calls[id.value := Call(st.calls[id.value].accepted, st.calls[id.value].credit + credit.value)],
        toHost := st.toHost + [Credited(id.value, credit.value)])
    case CancelCall(id) => id.Some? && after == same.(toHost := st.toHost + [Cancelled(id.value)])
    case WriteLog(_) => after == same.(toHost := st.toHost + [Logged])
    case _ => false
  }

  /** How a refused message is named: asking while not running, then a bad name, then an ungranted one, then the rest. */
  function GuestRefusal(l: Launch, st: State, m: GuestMessage): Code {
    var patterns := if m.Publish? then l.grant.publish else if m.StartCall? then l.grant.call else l.grant.subscribe;
    if (m.Publish? || m.StartCall? || m.GrantCredit? || m.CancelCall?) && !Running(st) then CapabilityDenied
    else if m.Subscribe? || m.Unsubscribe? || m.Publish? || m.StartCall? then
      if m.name.Some? && DottedName(m.name.value) && !Grants(patterns, m.name.value) then CapabilityDenied
      else ProtocolViolation
    else ProtocolViolation
  }

  /** Either the message was acted on, or the runtime is over, for the reason named. */
  predicate GuestAnswered(l: Launch, st: State, after: State, m: GuestMessage) {
    if GuestAccepted(l, st, m) then GuestEffect(st, after, m) && !after.closed else Ended(st, after, GuestRefusal(l, st, m))
  }

  /** Within the rate, a ready broker acts on exactly the messages it accepts, and ends the runtime on any other. */
  lemma GuestExactly(l: Launch, st: State, m: GuestMessage, now: real)
    requires !st.closed && st.ready && !m.Render? && |Rate(st.guestTimes, now)| <= 120
    ensures GuestAnswered(l, st, GuestStep(l, st, m, now), m)
  {
    hide Rate, RenderStep, TopicStep, StartStep, CreditStep, GuestAnswered;
    var s := st.(guestTimes := Rate(st.guestTimes, now));
    var after := GuestStep(l, st, m, now);
    if m.Subscribe? || m.Unsubscribe? || m.Publish? {
      TopicExactly(l, s, m);
    } else if m.StartCall? {
      StartExactly(l, s, m);
    } else if m.GrantCredit? {
      CreditExactly(l, s, m);
    } else {
      RestExactly(l, s, m, now);
    }
    hide ReceiveStep;
    TimesApart(l, st, s, after, m);
  }

  /** The times of earlier messages play no part in what is accepted. */
  lemma TimesApart(l: Launch, st: State, s: State, after: State, m: GuestMessage)
    requires s == st.(guestTimes := s.guestTimes) && GuestAnswered(l, s, after, m)
    ensures GuestAnswered(l, st, after, m)
  {
    JudgedApart(l, st, s, m);
    if GuestAccepted(l, s, m) {
      EffectApart(st, s, after, m);
    }
    hide GuestAccepted, GuestEffect, GuestRefusal;
  }

  lemma JudgedApart(l: Launch, st: State, s: State, m: GuestMessage)
    requires s == st.(guestTimes := s.guestTimes)
    ensures GuestAccepted(l, s, m) == GuestAccepted(l, st, m) && GuestRefusal(l, s, m) == GuestRefusal(l, st, m)
  {
    hide Admitted, DottedName, Grants;
  }

  lemma EffectApart(st: State, s: State, after: State, m: GuestMessage)
    requires s == st.(guestTimes := s.guestTimes) && GuestEffect(s, after, m)
    ensures GuestEffect(st, after, m)
  {
  }

  lemma RestExactly(l: Launch, s: State, m: GuestMessage, now: real)
    requires !s.closed && !m.Render? && !m.Subscribe? && !m.Unsubscribe? && !m.Publish? && !m.StartCall? && !m.GrantCredit?
    ensures GuestAnswered(l, s, if m.GuestMalformed? then Fail(s, ProtocolViolation) else ReceiveStep(l, s, m, now), m)
  {
    hide Fail, Ended;
    forall code ensures Ended(s, Fail(s, code), code) { FailedEnds(s, s, code); }
  }

  lemma TopicExactly(l: Launch, s: State, m: GuestMessage)
    requires (m.Subscribe? || m.Unsubscribe? || m.Publish?) && !s.closed
    ensures GuestAnswered(l, s, TopicStep(l, s, m), m)
  {
    hide NameCheck, DottedName, Grants, Fail, Ended;
    forall code ensures Ended(s, Fail(s, code), code) { FailedEnds(s, s, code); }
    NameCheckExactly(if m.Publish? then l.grant.publish else l.grant.subscribe, m.name);
  }

  lemma StartExactly(l: Launch, s: State, m: GuestMessage)
    requires m.StartCall? && !s.closed
    ensures GuestAnswered(l, s, StartStep(l, s, m), m)
  {
    hide NameCheck, DottedName, Grants, Fail, Ended;
    forall code ensures Ended(s, Fail(s, code), code) { FailedEnds(s, s, code); }
    NameCheckExactly(l.grant.call, m.name);
  }

  lemma CreditExactly(l: Launch, s: State, m: GuestMessage)
    requires m.GrantCredit? && !s.closed
    ensures GuestAnswered(l, s, CreditStep(s, m), m)
  {
  }

  /** Above 120 messages in a second the runtime ends, whatever the message. */
  lemma TooFast(l: Launch, st: State, m: GuestMessage, now: real)
    requires !st.closed && |Rate(st.guestTimes, now)| > 120
    ensures Ended(st, GuestStep(l, st, m, now), ProtocolViolation)
  {
    hide Rate;
  }

  /** Before it is ready a broker acts only on a well-formed announcement, with the boot message and the first state. */
  lemma BootExactly(l: Launch, st: State, m: GuestMessage, now: real)
    requires !st.closed && !st.ready && |Rate(st.guestTimes, now)| <= 120
    ensures var after := GuestStep(l, st, m, now);
      if m == Ready(true) then
        after == st.(
          guestTimes := after.guestTimes, ready := true, toGuest := st.toGuest + [Boot, StateSnapshot(st.stateRevision, l.initial)],
          toHost := st.toHost + [WorkerReady])
      else Ended(st, after, if m.GuestMalformed? then ProtocolViolation else BootFailed)
  {
    hide Rate;
  }

  /** A render within its own rate, with the next revision and a valid tree, is shown and its controls are what is enforced from then on. */
  lemma RenderExactly(l: Launch, st: State, m: GuestMessage, now: real)
    requires !st.closed && st.ready && m.Render? && |Rate(st.guestTimes, now)| <= 120
    ensures var after := GuestStep(l, st, m, now);
      var tree := ValidateTree(m.heap, l.grant.media, m.tree);
      if |Rate(st.renderTimes, now)| > 30 || m.revision == None then Ended(st, after, ProtocolViolation)
      else if m.revision.value != st.renderRevision + 1 then Ended(st, after, RenderInvalid)
      else if tree.Refused? then
        Ended(st, after, if tree.error == Ui.CapabilityDenied then CapabilityDenied else RenderInvalid)
      else
        after == st.(
          guestTimes := after.guestTimes, renderTimes := after.renderTimes, renderRevision := m.revision.value,
          targets := TargetsOf(Heads(tree.value)), toHost := st.toHost + [Rendered(m.revision.value, tree.value)])
  {
    hide Rate, ValidateTree, TargetsOf, Heads, Fail, Ended;
    var s := st.(guestTimes := Rate(st.guestTimes, now));
    var timed := s.(renderTimes := Rate(st.renderTimes, now));
    forall code ensures Ended(st, Fail(timed, code), code) { FailedEnds(st, timed, code); }
    assert GuestStep(l, st, m, now) == RenderStep(l, s, m, now);
    hide GuestStep, ReceiveStep;
  }

  // ---------------------------------------------------------------- the host

  predicate HostAccepted(l: Launch, st: State, h: HostMessage) {
    match h
    case Activate => st.renderRevision != 0
    case Ping(_) => true
    case Interact(revision, node, event, choice) =>
      && Running(st) && revision == st.renderRevision && node.Some? && node.value in st.targets
      && !st.targets[node.value].disabled && event == st.targets[node.value].event && ValueOk(st.targets[node.value], choice)
    case Snapshot(revision, values) =>
      revision.Some? && revision.value >= st.stateRevision && values.Some? && Readable(l, EntryPaths(values.value))
    case Patch(base, revision, mutations) =>
      && base.Some? && revision.Some?
      && (base.value == st.stateRevision && revision.value == base.value + 1 ==>
            mutations.Some? && Readable(l, Paths(mutations.value)))
    case Stale(revision, reasonOk) => revision.Some? && reasonOk
    case Deliver(name, data) =>
      name.Some? && Admitted(l.grant.subscribe, name.value) && name.value in st.subscriptions && data.Some?
    case CallAccepted(id) => id.Some? && id.value in st.calls && !st.calls[id.value].accepted
    case CallChunk(id, value) =>
      id.Some? && id.value in st.calls && st.calls[id.value].accepted && st.calls[id.value].credit > 0 && value.Some?
    case CallResult(id, value) => id.Some? && id.value in st.calls && value.Some?
    case CallError(id, ok) => id.Some? && id.value in st.calls && ok
    case CallOutcomeUnknown(id, ok) => id.Some? && id.value in st.calls && ok
    case Suspend => st.active && !st.suspended
    case Resume => st.active && st.suspended
    case Dispose => false
    case HostMalformed => false
  }

  predicate HostEffect(st: State, after: State, h: HostMessage) {
    var same := st.(hostSeq := st.hostSeq + 1);
    match h
    case Activate =>
      after == same.(
        staging := false, active := true, suspended := false, toGuest := st.toGuest + [Resumed],
        toHost := st.toHost + [Active(st.renderRevision)])
    case Ping(echo) => after == same.(toHost := st.toHost + [Pong(echo)])
    case Interact(revision, node, event, choice) => node.Some? && node.value in st.targets &&
      after == same.(toGuest := st.toGuest + [Interaction(revision, node.value, st.targets[node.value].handler, event, choice)])
    case Snapshot(revision, values) => revision.Some? && values.Some? &&
      after == same.(
        stateRevision := revision.value, stale := false,
        toGuest := st.toGuest + [StateSnapshot(revision.value, MapOf(values.value))])
    case Patch(base, revision, mutations) => base.Some? && revision.Some? &&
      if base.value != st.stateRevision || revision.value != base.value + 1 then
        after == same.(stale := true, toGuest := st.toGuest + [StateStale(st.stateRevision)])
      else if st.stale then after == same
      else
        && mutations.Some?
        && after == same.(
             stateRevision := revision.value, toGuest := st.toGuest + [StatePatch(base.value, revision.value, mutations.value)])
    case Stale(revision, _) => revision.Some? && after == same.(stale := true, toGuest := st.toGuest + [StateStale(revision.value)])
    case Deliver(name, data) => name.Some? && data.Some? &&
      after == same.(toGuest := st.toGuest + [Event(name.value, data.value)])
    case CallAccepted(id) => id.Some? && id.value in st.calls &&
      after == same.(
        calls := st.calls[id.value := Call(true, st.calls[id.value].credit)], toGuest := st.toGuest + [Accepted(id.value)])
    case CallChunk(id, value) => id.Some? && value.Some? && id.value in st.calls &&
      after == same.(
        calls := st.calls[id.value := Call(true, st.calls[id.value].credit - 1)],
        toGuest := st.toGuest + [Chunk(id.value, value.value)])
    case CallResult(id, value) => id.Some? && value.Some? &&
      after == same.(calls := st.calls - {id.value}, toGuest := st.toGuest + [Result(id.value, value.value)])
    case CallError(id, _) => id.Some? &&
      after == same.(calls := st.calls - {id.value}, toGuest := st.toGuest + [Error(id.value)])
    case CallOutcomeUnknown(id, _) => id.Some? &&
      after == same.(calls := st.calls - {id.value}, toGuest := st.toGuest + [OutcomeUnknown(id.value)])
    case Suspend => after == same.(suspended := true, toGuest := st.toGuest + [Suspended])
    case Resume => after == same.(suspended := false, toGuest := st.toGuest + [Resumed])
    case Dispose => false
    case HostMalformed => false
  }

  /** Either the message was acted on, or the runtime is over. */
  ghost predicate Answered(l: Launch, st: State, after: State, h: HostMessage) {
    if HostAccepted(l, st, h) then HostEffect(st, after, h) && !after.closed else exists code :: Ended(st, after, code)
  }

  /** In turn, a ready broker acts on exactly the host messages it accepts, and ends the runtime on any other. */
  lemma HostExactly(l: Launch, st: State, h: HostMessage)
    requires !st.closed && st.ready && !h.Dispose?
    ensures Answered(l, st, HostStep(l, st, st.hostSeq, h), h)
  {
    hide InteractStep, SnapshotStep, PatchStep, ChunkStep, EndingStep, OtherStep;
    var s := st.(hostSeq := st.hostSeq + 1);
    if h.HostMalformed? {
      FailedEnds(st, st, ProtocolViolation);
    } else {
      hide Answered;
      if h.Snapshot? || h.Patch? {
        StateExactly(l, st, s, h);
      } else if h.Interact? {
        InteractExactly(l, st, s, h);
      } else if h.CallChunk? || h.CallResult? || h.CallError? || h.CallOutcomeUnknown? {
        CallExactly(l, st, s, h);
      } else if h.Deliver? {
        DeliverExactly(l, st, s, h);
      } else {
        OtherExactly(l, st, s, h);
      }
    }
  }

  lemma FailedEnds(a: State, s: State, code: Code)
    requires s.toHost == a.toHost && s.toGuest == a.toGuest
    ensures Ended(a, Fail(s, code), code)
  {
  }

  lemma StateExactly(l: Launch, st: State, s: State, h: HostMessage)
    requires (h.Snapshot? || h.Patch?) && s == st.(hostSeq := st.hostSeq + 1) && !st.closed
    ensures Answered(l, st, if h.Snapshot? then SnapshotStep(l, s, h) else PatchStep(l, s, h), h)
  {
    hide Answered, SnapshotStep, PatchStep;
    if h.Snapshot? {
      SnapshotExactly(l, st, s, h);
    } else {
      PatchExactly(l, st, s, h);
    }
  }

  lemma SnapshotExactly(l: Launch, st: State, s: State, h: HostMessage)
    requires h.Snapshot? && s == st.(hostSeq := st.hostSeq + 1) && !st.closed
    ensures Answered(l, st, SnapshotStep(l, s, h), h)
  {
    hide FirstDenied, Readable, EntryPaths, MapOf, Ended, Fail;
    FailedEnds(st, s, ProtocolViolation);
    if h.values.Some? {
      var denied := FirstDenied(l, EntryPaths(h.values.value));
      FirstDeniedExactly(l, EntryPaths(h.values.value));
      if denied.Some? {
        FailedEnds(st, s, denied.value);
      }
    }
  }

  lemma PatchExactly(l: Launch, st: State, s: State, h: HostMessage)
    requires h.Patch? && s == st.(hostSeq := st.hostSeq + 1) && !st.closed
    ensures Answered(l, st, PatchStep(l, s, h), h)
  {
    hide Answered, PatchStep;
    if h.base.Some? && h.revision.Some? && h.base.value == st.stateRevision && h.revision.value == h.base.value + 1 {
      NextPatchExactly(l, st, s, h);
    } else {
      GapExactly(l, st, s, h);
    }
  }

  lemma GapExactly(l: Launch, st: State, s: State, h: HostMessage)
    requires h.Patch? && s == st.(hostSeq := st.hostSeq + 1) && !st.closed
    requires !(h.base.Some? && h.revision.Some? && h.base.value == st.stateRevision && h.revision.value == h.base.value + 1)
    ensures Answered(l, st, PatchStep(l, s, h), h)
  {
    hide FirstDenied, Readable, Paths, Ended, Fail;
    FailedEnds(st, s, ProtocolViolation);
  }

  lemma NextPatchExactly(l: Launch, st: State, s: State, h: HostMessage)
    requires h.Patch? && s == st.(hostSeq := st.hostSeq + 1) && !st.closed
    requires h.base.Some? && h.revision.Some? && h.base.value == st.stateRevision && h.revision.value == h.base.value + 1
    ensures Answered(l, st, PatchStep(l, s, h), h)
  {
    hide FirstDenied, Readable, Paths, Ended, Fail;
    if h.mutations == None {
      FailedEnds(st, s, ProtocolViolation);
    } else {
      var denied := FirstDenied(l, Paths(h.mutations.value));
      FirstDeniedExactly(l, Paths(h.mutations.value));
      if denied.Some? {
        FailedEnds(st, s, denied.value);
      }
    }
  }

  lemma InteractExactly(l: Launch, st: State, s: State, h: HostMessage)
    requires h.Interact? && s == st.(hostSeq := st.hostSeq + 1) && !st.closed
    ensures Answered(l, st, InteractStep(s, h), h)
  {
    hide ValueOk, Ended, Fail;
    forall code ensures Ended(st, Fail(s, code), code) { FailedEnds(st, s, code); }
  }

  lemma CallExactly(l: Launch, st: State, s: State, h: HostMessage)
    requires h.CallChunk? || h.CallResult? || h.CallError? || h.CallOutcomeUnknown?
    requires s == st.(hostSeq := st.hostSeq + 1) && !st.closed
    ensures Answered(l, st, if h.CallChunk? then ChunkStep(s, h) else EndingStep(s, h), h)
  {
    hide Answered, ChunkStep, EndingStep;
    if h.CallChunk? {
      ChunkExactly(l, st, s, h);
    } else {
      EndingExactly(l, st, s, h);
    }
  }

  lemma ChunkExactly(l: Launch, st: State, s: State, h: HostMessage)
    requires h.CallChunk? && s == st.(hostSeq := st.hostSeq + 1) && !st.closed
    ensures Answered(l, st, ChunkStep(s, h), h)
  {
    hide Ended, Fail;
    FailedEnds(st, s, ProtocolViolation);
  }

  lemma EndingExactly(l: Launch, st: State, s: State, h: HostMessage)
    requires h.CallResult? || h.CallError? || h.CallOutcomeUnknown?
    requires s == st.(hostSeq := st.hostSeq + 1) && !st.closed
    ensures Answered(l, st, EndingStep(s, h), h)
  {
    hide Ended, Fail, EndStep;
    FailedEnds(st, s, ProtocolViolation);
    match h {
      case CallResult(id, value) =>
        EndStepIs(st, s, id, value.Some?, if id.Some? && value.Some? then Result(id.value, value.value) else Suspended);
      case CallError(id, ok) => EndStepIs(st, s, id, ok, if id.Some? then Error(id.value) else Suspended);
      case CallOutcomeUnknown(id, ok) => EndStepIs(st, s, id, ok, if id.Some? then OutcomeUnknown(id.value) else Suspended);
    }
  }

  lemma EndStepIs(st: State, s: State, id: Option<int>, ok: bool, last: ToGuest)
    requires s == st.(hostSeq := st.hostSeq + 1) && !st.closed
    ensures EndStep(s, id, ok, last) ==
      if id.Some? && id.value in st.calls && ok
      then st.(hostSeq := st.hostSeq + 1, calls := st.calls - {id.value}, toGuest := st.toGuest + [last])
      else Fail(s, ProtocolViolation)
  {
  }

  lemma OtherExactly(l: Launch, st: State, s: State, h: HostMessage)
    requires Other(h) && !h.Dispose? && !h.HostMalformed? && !h.Deliver? && s == st.(hostSeq := st.hostSeq + 1) && !st.closed
    ensures Answered(l, st, OtherStep(l, s, h), h)
  {
    hide Answered, OtherStep;
    if h.Stale? {
      StaleExactly(l, st, s, h);
    } else if h.CallAccepted? {
      AcceptExactly(l, st, s, h);
    } else {
      LifecycleExactly(l, st, s, h);
    }
  }

  lemma StaleExactly(l: Launch, st: State, s: State, h: HostMessage)
    requires h.Stale? && s == st.(hostSeq := st.hostSeq + 1) && !st.closed
    ensures Answered(l, st, OtherStep(l, s, h), h)
  {
    hide Ended, Fail;
    FailedEnds(st, s.(stale := true), ProtocolViolation);
  }

  lemma AcceptExactly(l: Launch, st: State, s: State, h: HostMessage)
    requires h.CallAccepted? && s == st.(hostSeq := st.hostSeq + 1) && !st.closed
    ensures Answered(l, st, OtherStep(l, s, h), h)
  {
    hide Ended, Fail;
    FailedEnds(st, s, ProtocolViolation);
  }

  lemma LifecycleExactly(l: Launch, st: State, s: State, h: HostMessage)
    requires (h.Activate? || h.Ping? || h.Suspend? || h.Resume?) && s == st.(hostSeq := st.hostSeq + 1) && !st.closed
    ensures Answered(l, st, OtherStep(l, s, h), h)
  {
    hide Ended, Fail;
    FailedEnds(st, s, ProtocolViolation);
  }

  lemma DeliverExactly(l: Launch, st: State, s: State, h: HostMessage)
    requires h.Deliver? && s == st.(hostSeq := st.hostSeq + 1) && !st.closed
    ensures Answered(l, st, OtherStep(l, s, h), h)
  {
    hide Ended, Fail, NameCheck, Admitted;
    forall code ensures Ended(st, Fail(s, code), code) { FailedEnds(st, s, code); }
    NameCheckExactly(l.grant.subscribe, h.name);
  }

  /** Out of turn, or before the broker is ready, a host message other than disposal ends the runtime. */
  lemma HostOutOfTurn(l: Launch, st: State, seqno: int, h: HostMessage)
    requires !st.closed && (seqno != st.hostSeq || h.HostMalformed? || (!st.ready && !h.Dispose?))
    ensures Ended(st, HostStep(l, st, seqno, h), ProtocolViolation)
  {
    hide Dispatch, Ended, Fail;
    FailedEnds(st, st, ProtocolViolation);
    FailedEnds(st, st.(hostSeq := st.hostSeq + 1), ProtocolViolation);
  }

  /** Disposal ends the runtime without an error, and tells both sides. */
  lemma DisposeExactly(l: Launch, st: State)
    requires !st.closed
    ensures var after := HostStep(l, st, st.hostSeq, Dispose);
      && after.closed && after.toHost == st.toHost + [Terminated] && after.toGuest == st.toGuest + [Disposed]
      && after.targets == map[] && after.subscriptions == {} && after.calls == map[] && after.seen == {}
  {
    hide Dispatch;
  }

  /** A closed broker does nothing more. */
  lemma ClosedForGood(l: Launch, st: State, i: Input)
    requires st.closed
    ensures Step(l, st, i) == st
  {
  }
}
