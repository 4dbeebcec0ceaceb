/** The guest's copy of the state, folded from what the broker forwards, is the host's history at one revision. */
module BrokerState {
  import opened Options
  import opened Broker
  import opened BrokerCalls

  type Values = map<Name, Data>

  /** A revision-indexed history, as the host sees it. */
  type History = int -> Values

  function Apply(values: Values, mutations: seq<Mutation>): Values {
    if mutations == [] then values
    else
      var before := Apply(values, mutations[..|mutations| - 1]);
      match mutations[|mutations| - 1]
      case SetPath(path, value) => before[path := value]
      case DeletePath(path) => before - {path}
  }

  /** Snapshots are samples of the history, and a patch to the next revision is its next difference. */
  ghost predicate Samples(h: History, m: HostMessage) {
    match m
    case Snapshot(revision, values) => revision.Some? && values.Some? ==> MapOf(values.value) == h(revision.value)
    case Patch(base, revision, mutations) =>
      base.Some? && mutations.Some? && revision == Some(base.value + 1) ==>
        h(base.value + 1) == Apply(h(base.value), mutations.value)
    case _ => true
  }

  /**
   * What a guest that applies every message in order holds. `sound` records that no patch ever came
   * before the first snapshot, on another base, or between a staleness notice and the next snapshot.
   */
  datatype Copy = Copy(known: bool, revision: int, values: Values, stale: bool, sound: bool)

  const NOTHING := Copy(false, 0, map[], false, true)

  function Follow(c: Copy, m: ToGuest): Copy {
    match m
    case StateSnapshot(revision, values) => Copy(true, revision, values, false, c.sound)
    case StatePatch(base, revision, mutations) =>
      Copy(c.known, revision, Apply(c.values, mutations), c.stale, c.sound && c.known && !c.stale && base == c.revision)
    case StateStale(_) => c.(stale := true)
    case _ => c
  }

  function CopyOf(log: seq<ToGuest>): Copy {
    if log == [] then NOTHING else Follow(CopyOf(log[..|log| - 1]), log[|log| - 1])
  }

  lemma CopyAppend(log: seq<ToGuest>, m: ToGuest)
    ensures CopyOf(log + [m]) == Follow(CopyOf(log), m)
  {
    hide Follow;
    assert (log + [m])[..|log|] == log;
  }

  // ---------------------------------------------------------------- the invariant

  ghost predicate Replica(l: Launch, h: History, st: State) {
    var c := CopyOf(st.toGuest);
    && c.sound
    && (if st.ready
        then c.known && c.revision == st.stateRevision && c.values == h(st.stateRevision) && (st.closed || c.stale == st.stale)
        else c == NOTHING && st.stateRevision == l.revision && !st.stale)
  }

  predicate Plain(m: ToGuest) { !m.StateSnapshot? && !m.StatePatch? && !m.StateStale? }

  /** The step changed nothing about the state, and forwarded at most one message, which is not about it. */
  predicate Quiet(a: State, b: State) {
    && b.ready == a.ready && b.stateRevision == a.stateRevision && (b.stale == a.stale || (b.closed && b.ready))
    && (b.toGuest == a.toGuest
        || (b.toGuest != [] && b.toGuest == a.toGuest + [b.toGuest[|b.toGuest| - 1]] && Plain(b.toGuest[|b.toGuest| - 1])))
    && (a.closed ==> b.closed)
  }

  lemma QuietKeeps(l: Launch, h: History, a: State, b: State)
    requires Replica(l, h, a) && Quiet(a, b)
    ensures Replica(l, h, b)
  {
    hide CopyOf;
    if b.toGuest != a.toGuest {
      CopyAppend(a.toGuest, b.toGuest[|b.toGuest| - 1]);
    }
  }

  /** Nothing the copy depends on differs. */
  predicate Same(a: State, b: State) {
    b.ready == a.ready && b.stateRevision == a.stateRevision && b.stale == a.stale && b.toGuest == a.toGuest && b.closed == a.closed
  }

  lemma SameQuiet(a: State, b: State)
    requires Same(a, b)
    ensures Quiet(a, b)
  {
  }

  lemma FailQuiet(a: State, b: State, code: Code)
    requires Same(a, b)
    ensures Quiet(a, Fail(b, code))
  {
  }

  lemma SendQuiet(a: State, b: State, m: ToHost)
    requires Same(a, b)
    ensures Quiet(a, Send(b, m))
  {
  }

  lemma ForwardQuiet(a: State, b: State, m: ToGuest)
    requires Same(a, b) && Plain(m)
    ensures Quiet(a, Forward(b, m))
  {
  }

  lemma RenderQuiet(l: Launch, st: State, m: GuestMessage, now: real)
    requires m.Render?
    ensures Quiet(st, RenderStep(l, st, m, now))
  {
    hide Rate, TargetsOf, Fail, Send, Quiet;
    var timed := st.(renderTimes := Rate(st.renderTimes, now));
    forall code ensures Quiet(st, Fail(timed, code)) {
      FailQuiet(st, timed, code);
    }
    forall revision, tree, targets ensures Quiet(
        st, Send(timed.(renderRevision := revision, targets := targets), Rendered(revision, tree)))
    {
      SendQuiet(st, timed.(renderRevision := revision, targets := targets), Rendered(revision, tree));
    }
  }

  lemma CallsQuiet(l: Launch, st: State, m: GuestMessage)
    ensures m.StartCall? ==> Quiet(st, StartStep(l, st, m))
    ensures m.GrantCredit? ==> Quiet(st, CreditStep(st, m))
  {
    hide NameCheck, Fail, Send, Quiet;
    forall code ensures Quiet(st, Fail(st, code)) {
      FailQuiet(st, st, code);
    }
    if m.StartCall? && m.id.Some? {
      NameChecked(l.grant.call, m.name);
      var s := st.(seen := st.seen + {m.id.value}, calls := st.calls[m.id.value := Call(false, 0)]);
      if m.name.Some? && m.args.Some? {
        SendQuiet(st, s, Started(m.id.value, m.name.value, m.args.value, m.deadline));
      }
    }
    forall calls, sent ensures Quiet(st, Send(st.(calls := calls), sent)) {
      SendQuiet(st, st.(calls := calls), sent);
    }
  }

  lemma GuestQuiet(l: Launch, st: State, m: GuestMessage, now: real)
    requires !(m.Ready? && !st.ready && !GuestStep(l, st, m, now).closed)
    ensures Quiet(st, GuestStep(l, st, m, now))
  {
    hide Rate, NameCheck, RenderStep, StartStep, CreditStep, Fail, Send, Quiet;
    var s := st.(guestTimes := Rate(st.guestTimes, now));
    SameQuiet(st, st);
    forall code ensures Quiet(st, Fail(s, code)) {
      FailQuiet(st, s, code);
    }
    forall sent ensures Quiet(st, Send(s, sent)) {
      SendQuiet(st, s, sent);
    }
    if m.Subscribe? || m.Unsubscribe? {
      NameChecked(l.grant.subscribe, m.name);
      if m.name.Some? {
        SendQuiet(st, s.(subscriptions := s.subscriptions + {m.name.value}), Subscribed(m.name.value));
        SendQuiet(st, s.(subscriptions := s.subscriptions - {m.name.value}), Unsubscribed(m.name.value));
      }
    }
    if m.Publish? && m.name.Some? && m.data.Some? {
      SendQuiet(st, s, Published(m.name.value, m.data.value));
    }
    if m.Publish? {
      NameChecked(l.grant.publish, m.name);
    }
    RenderAndCallsQuiet(l, st, s, m, now);
  }

  lemma RenderAndCallsQuiet(l: Launch, st: State, s: State, m: GuestMessage, now: real)
    requires Same(st, s)
    ensures m.Render? ==> Quiet(st, RenderStep(l, s, m, now))
    ensures m.StartCall? ==> Quiet(st, StartStep(l, s, m))
    ensures m.GrantCredit? ==> Quiet(st, CreditStep(s, m))
  {
    hide RenderStep, StartStep, CreditStep;
    if m.Render? { RenderQuiet(l, s, m, now); }
    CallsQuiet(l, s, m);
  }

  lemma ReadyKeeps(l: Launch, h: History, st: State, m: GuestMessage, now: real)
    requires Replica(l, h, st) && l.initial == h(l.revision) && m.Ready? && !st.ready && !GuestStep(l, st, m, now).closed
    ensures Replica(l, h, GuestStep(l, st, m, now))
  {
    hide CopyOf, Rate;
    var snapshot := StateSnapshot(st.stateRevision, l.initial);
    CopyAppend(st.toGuest, Boot);
    CopyAppend(st.toGuest + [Boot], snapshot);
    assert st.toGuest + [Boot] + [snapshot] == st.toGuest + [Boot, snapshot];
  }

  lemma HostPartsQuiet(st: State, m: HostMessage)
    ensures m.Interact? ==> Quiet(st, InteractStep(st, m))
    ensures m.CallChunk? ==> Quiet(st, ChunkStep(st, m))
  {
    hide ValueOk, Fail, Quiet, Forward;
    forall code ensures Quiet(st, Fail(st, code)) {
      FailQuiet(st, st, code);
    }
    forall last: ToGuest | Plain(last) ensures Quiet(st, Forward(st, last)) {
      ForwardQuiet(st, st, last);
    }
    forall calls, last: ToGuest | Plain(last) ensures Quiet(st, Forward(st.(calls := calls), last)) {
      ForwardQuiet(st, st.(calls := calls), last);
    }
  }

  lemma EndQuiet(st: State, id: Option<int>, ok: bool, last: ToGuest)
    requires Plain(last)
    ensures Quiet(st, EndStep(st, id, ok, last))
  {
    FailQuiet(st, st, ProtocolViolation);
    if id.Some? { ForwardQuiet(st, st.(calls := st.calls - {id.value}), last); }
  }

  lemma LifecycleQuiet(st: State)
    ensures Quiet(st, Shut(st.(toGuest := st.toGuest + [Disposed], toHost := st.toHost + [Terminated])))
    ensures Quiet(st, st.(staging := false, active := true, suspended := false, toGuest := st.toGuest + [Resumed],
                          toHost := st.toHost + [Active(st.renderRevision)]))
  {
    ForwardQuiet(st, st, Disposed);
    ForwardQuiet(st, st, Resumed);
  }

  /** Host messages that are neither about the state nor the end of a call. */
  predicate Ordinary(m: HostMessage) {
    !m.Snapshot? && !m.Patch? && !m.Stale? && !m.CallResult? && !m.CallError? && !m.CallOutcomeUnknown?
  }

  lemma OrdinaryQuiet(l: Launch, st: State, seqno: int, m: HostMessage)
    requires Ordinary(m)
    ensures Quiet(st, HostStep(l, st, seqno, m))
  {
    hide NameCheck, InteractStep, ChunkStep, Fail, Send, Forward, Quiet, Shut;
    var s := st.(hostSeq := st.hostSeq + 1);
    SameQuiet(st, st);
    forall code ensures Quiet(st, Fail(st, code)) && Quiet(st, Fail(s, code)) {
      FailQuiet(st, st, code);
      FailQuiet(st, s, code);
    }
    LifecycleMoved(st, s);
    PartsMoved(st, s, m);
    forall sent ensures Quiet(st, Send(s, sent)) {
      SendQuiet(st, s, sent);
    }
    forall last: ToGuest | Plain(last) ensures Quiet(st, Forward(s, last)) {
      ForwardQuiet(st, s, last);
    }
    forall on: bool ensures Quiet(st, Forward(s.(suspended := on), if on then Suspended else Resumed)) {
      ForwardQuiet(st, s.(suspended := on), if on then Suspended else Resumed);
    }
    forall calls, id ensures Quiet(st, Forward(s.(calls := calls), Accepted(id))) {
      ForwardQuiet(st, s.(calls := calls), Accepted(id));
    }
  }

  lemma LifecycleMoved(st: State, s: State)
    requires Same(st, s)
    ensures Quiet(st, Shut(s.(toGuest := s.toGuest + [Disposed], toHost := s.toHost + [Terminated])))
    ensures Quiet(st, s.(staging := false, active := true, suspended := false, toGuest := s.toGuest + [Resumed],
                         toHost := s.toHost + [Active(s.renderRevision)]))
  {
    LifecycleQuiet(s);
  }

  lemma PartsMoved(st: State, s: State, m: HostMessage)
    requires Same(st, s)
    ensures m.Interact? ==> Quiet(st, InteractStep(s, m))
    ensures m.CallChunk? ==> Quiet(st, ChunkStep(s, m))
  {
    hide InteractStep, ChunkStep;
    HostPartsQuiet(s, m);
  }

  lemma EndingQuiet(l: Launch, st: State, seqno: int, m: HostMessage)
    requires m.CallResult? || m.CallError? || m.CallOutcomeUnknown?
    ensures Quiet(st, HostStep(l, st, seqno, m))
  {
    hide EndStep, Fail;
    var s := st.(hostSeq := st.hostSeq + 1);
    FailQuiet(st, st, ProtocolViolation);
    FailQuiet(st, s, ProtocolViolation);
    match m
    case CallResult(id, value) =>
      EndQuiet(s, id, value.Some?, if id.Some? && value.Some? then Result(id.value, value.value) else Suspended);
    case CallError(id, ok) => EndQuiet(s, id, ok, if id.Some? then Error(id.value) else Suspended);
    case CallOutcomeUnknown(id, ok) => EndQuiet(s, id, ok, if id.Some? then OutcomeUnknown(id.value) else Suspended);
  }

  lemma HostQuiet(l: Launch, st: State, seqno: int, m: HostMessage)
    requires !m.Snapshot? && !m.Patch? && !m.Stale?
    ensures Quiet(st, HostStep(l, st, seqno, m))
  {
    hide Quiet, HostStep;
    if Ordinary(m) {
      OrdinaryQuiet(l, st, seqno, m);
    } else {
      EndingQuiet(l, st, seqno, m);
    }
  }

  lemma SnapshotKeeps(l: Launch, h: History, st: State, m: HostMessage)
    requires Replica(l, h, st) && st.ready && !st.closed && m.Snapshot? && Samples(h, m)
    ensures Replica(l, h, SnapshotStep(l, st, m))
  {
    hide CopyOf, FirstDenied, MapOf;
    if m.revision.Some? && m.values.Some? {
      CopyAppend(st.toGuest, StateSnapshot(m.revision.value, MapOf(m.values.value)));
    }
  }

  lemma GapKeeps(l: Launch, h: History, st: State)
    requires Replica(l, h, st) && st.ready
    ensures Replica(l, h, Forward(st.(stale := true), StateStale(st.stateRevision)))
  {
    hide CopyOf;
    CopyAppend(st.toGuest, StateStale(st.stateRevision));
  }

  lemma NextKeeps(l: Launch, h: History, st: State, mutations: seq<Mutation>)
    requires Replica(l, h, st) && st.ready && !st.closed && !st.stale
    requires h(st.stateRevision + 1) == Apply(h(st.stateRevision), mutations)
    ensures Replica(
      l, h, Forward(st.(stateRevision := st.stateRevision + 1), StatePatch(st.stateRevision, st.stateRevision + 1, mutations)))
  {
    hide CopyOf, Apply;
    CopyAppend(st.toGuest, StatePatch(st.stateRevision, st.stateRevision + 1, mutations));
  }

  lemma PatchKeeps(l: Launch, h: History, st: State, m: HostMessage)
    requires Replica(l, h, st) && st.ready && !st.closed && m.Patch? && Samples(h, m)
    ensures Replica(l, h, PatchStep(l, st, m))
  {
    hide CopyOf, FirstDenied, Apply, Replica, Fail;
    GapKeeps(l, h, st);
    forall code ensures Replica(l, h, Fail(st, code)) {
      FailQuiet(st, st, code);
      QuietKeeps(l, h, st, Fail(st, code));
    }
    if m.base == Some(st.stateRevision) && m.revision == Some(st.stateRevision + 1) && m.mutations.Some? && !st.stale {
      NextKeeps(l, h, st, m.mutations.value);
    }
  }

  lemma HostKeeps(l: Launch, h: History, st: State, seqno: int, m: HostMessage)
    requires Replica(l, h, st) && Samples(h, m)
    ensures Replica(l, h, HostStep(l, st, seqno, m))
  {
    hide CopyOf, SnapshotStep, PatchStep, Dispatch, Replica, Quiet, Samples, Fail;
    var s := st.(hostSeq := st.hostSeq + 1);
    SameQuiet(st, s);
    QuietKeeps(l, h, st, s);
    if !m.Snapshot? && !m.Patch? && !m.Stale? {
      HostQuiet(l, st, seqno, m);
      QuietKeeps(l, h, st, HostStep(l, st, seqno, m));
    } else if st.closed {
    } else if seqno != st.hostSeq {
      FailQuiet(st, st, ProtocolViolation);
      QuietKeeps(l, h, st, HostStep(l, st, seqno, m));
    } else if !st.ready {
      FailQuiet(st, s, ProtocolViolation);
      QuietKeeps(l, h, st, HostStep(l, st, seqno, m));
    } else {
      AboutState(l, s, m);
      if m.Snapshot? {
        SnapshotKeeps(l, h, s, m);
      } else if m.Patch? {
        PatchKeeps(l, h, s, m);
      } else {
        StaleKeeps(l, h, s, m);
      }
    }
  }

  lemma AboutState(l: Launch, s: State, m: HostMessage)
    ensures m.Snapshot? ==> Dispatch(l, s, m) == SnapshotStep(l, s, m)
    ensures m.Patch? ==> Dispatch(l, s, m) == PatchStep(l, s, m)
  {
    hide SnapshotStep, PatchStep;
  }

  lemma StaleKeeps(l: Launch, h: History, s: State, m: HostMessage)
    requires Replica(l, h, s) && s.ready && !s.closed && m.Stale?
    ensures Replica(l, h, Dispatch(l, s, m))
  {
    hide CopyOf;
    if m.revision.Some? {
      CopyAppend(s.toGuest, StateStale(m.revision.value));
    }
  }

  lemma {:induction false} RunReplica(l: Launch, h: History, inputs: seq<Input>)
    requires l.initial == h(l.revision)
    requires forall i :: 0 <= i < |inputs| && inputs[i].FromHost? ==> Samples(h, inputs[i].h)
    ensures Replica(l, h, Run(l, inputs))
  {
    hide GuestStep, HostStep, Samples;
    if inputs != [] {
      var before, last := inputs[..|inputs| - 1], inputs[|inputs| - 1];
      RunReplica(l, h, before);
      var st := Run(l, before);
      match last
      case FromGuest(m, now) =>
        if m.Ready? && !st.ready && !GuestStep(l, st, m, now).closed {
          ReadyKeeps(l, h, st, m, now);
        } else {
          GuestQuiet(l, st, m, now);
          QuietKeeps(l, h, st, GuestStep(l, st, m, now));
        }
      case FromHost(seqno, m) => HostKeeps(l, h, st, seqno, m);
    }
  }

  /**
   * Whenever the guest has its first snapshot, the copy it folds from the forwarded messages is the
   * host's history at the broker's revision, stale or not; and no patch was ever forwarded between a
   * gap and the next snapshot.
   */
  lemma GuestCopyIsHistory(l: Launch, h: History, inputs: seq<Input>)
    requires l.initial == h(l.revision)
    requires forall i :: 0 <= i < |inputs| && inputs[i].FromHost? ==> Samples(h, inputs[i].h)
    ensures var st := Run(l, inputs);
      var c := CopyOf(st.toGuest);
      && c.sound
      && (st.ready ==> c.known && c.revision == st.stateRevision && c.values == h(st.stateRevision))
      && (st.ready && !st.closed ==> c.stale == st.stale)
  {
    hide Run, CopyOf, Samples;
    RunReplica(l, h, inputs);
  }

  /** Nothing outside the grant ever reaches the guest's copy through a forwarded snapshot or patch. */
  lemma ForwardedPathsReadable(l: Launch, st: State, m: HostMessage)
    requires m.Patch? && |PatchStep(l, st, m).toGuest| > |st.toGuest|
    ensures var last := PatchStep(l, st, m).toGuest[|st.toGuest|];
      last.StatePatch? ==>
        && !st.stale && last.base == st.stateRevision && last.revision == last.base + 1
        && forall i :: 0 <= i < |last.mutations| ==> ReadablePath(l, last.mutations[i].path)
  {
    hide ReadablePath;
    if m.mutations.Some? {
      NoneDenied(l, Paths(m.mutations.value));
      assert forall i :: 0 <= i < |m.mutations.value| ==> Paths(m.mutations.value)[i] == m.mutations.value[i].path;
    }
  }

  lemma {:induction false} NoneDenied(l: Launch, paths: seq<Name>)
    ensures FirstDenied(l, paths) == None ==> forall i :: 0 <= i < |paths| ==> ReadablePath(l, paths[i])
  {
    hide ReadablePath;
    if paths != [] {
      NoneDenied(l, paths[1..]);
    }
  }
}
