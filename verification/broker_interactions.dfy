/** Every interaction that reaches the guest is one that the render shown at that time offers. */
module BrokerInteractions {
  import opened Options
  import opened Broker
  import opened BrokerRender
  import UiTree

  lemma {:induction false} TargetsBack(heads: seq<UiTree.Head>, id: string)
    requires id in TargetsOf(heads)
    ensures exists i :: 0 <= i < |heads| && heads[i].id == id && Control(heads[i]) && TargetsOf(heads)[id] == TargetOf(heads[i])
  {
    hide Control, TargetOf;
    var n := |heads| - 1;
    if !(Control(heads[n]) && heads[n].id == id) {
      TargetsBack(heads[..n], id);
      var i :| 0 <= i < n && heads[..n][i].id == id && Control(heads[..n][i]) && TargetsOf(heads[..n])[id] == TargetOf(heads[..n][i]);
      assert heads[i].id == id;
    }
  }

  /** An interaction the broker may forward: an enabled control of this tree, named with its own handler and event. */
  ghost predicate Offered(tree: UiTree.Node, node: string, handler: string, event: string, choice: InteractionValue) {
    exists i :: 0 <= i < |Heads(tree)| && OfferedBy(Heads(tree)[i], node, handler, event, choice)
  }

  predicate OfferedBy(h: UiTree.Head, node: string, handler: string, event: string, choice: InteractionValue) {
    && h.id == node && Control(h)
    && !TargetOf(h).disabled && TargetOf(h).handler == handler && TargetOf(h).event == event && ValueOk(TargetOf(h), choice)
  }

  lemma OfferedTarget(tree: UiTree.Node, node: string, choice: InteractionValue)
    requires node in TargetsOf(Heads(tree)) && !TargetsOf(Heads(tree))[node].disabled
    requires ValueOk(TargetsOf(Heads(tree))[node], choice)
    ensures var t := TargetsOf(Heads(tree))[node]; Offered(tree, node, t.handler, t.event, choice)
  {
    hide TargetsOf, Control, TargetOf, ValueOk;
    TargetsBack(Heads(tree), node);
    var i :| 0 <= i < |Heads(tree)| && Heads(tree)[i].id == node && Control(Heads(tree)[i])
      && TargetsOf(Heads(tree))[node] == TargetOf(Heads(tree)[i]);
    assert OfferedBy(Heads(tree)[i], node, TargetOf(Heads(tree)[i]).handler, TargetOf(Heads(tree)[i]).event, choice);
  }

  /** The message is an interaction that what the host was last shown offers, while the runtime is active. */
  ghost predicate OfferedNow(st: State, m: ToGuest) {
    var shown := ShownBy(st.toHost);
    m.Interaction? && Running(st) && shown.contiguous && shown.tree.Some? && m.revision == shown.count
    && Offered(shown.tree.value, m.node, m.handler, m.event, m.choice)
  }

  /** The step forwarded no interaction. */
  predicate Mute(a: State, b: State) {
    a.toGuest <= b.toGuest && forall i :: |a.toGuest| <= i < |b.toGuest| ==> !b.toGuest[i].Interaction?
  }

  /** Every interaction the step forwarded was offered before it. */
  ghost predicate Fair(a: State, b: State) {
    a.toGuest <= b.toGuest
    && forall i :: |a.toGuest| <= i < |b.toGuest| && b.toGuest[i].Interaction? ==> OfferedNow(a, b.toGuest[i])
  }

  lemma GuestMute(l: Launch, st: State, m: GuestMessage, now: real)
    ensures Mute(st, GuestStep(l, st, m, now))
  {
    hide Rate, NameCheck, RenderStep, StartStep, CreditStep, TopicStep;
    var s := st.(guestTimes := Rate(st.guestTimes, now));
    CallsMute(l, s, m);
    if m.Render? {
      RenderMute(l, s, m, now);
    }
  }

  lemma RenderMute(l: Launch, s: State, m: GuestMessage, now: real)
    requires m.Render?
    ensures RenderStep(l, s, m, now).toGuest == s.toGuest
  {
    hide Rate, TargetsOf, Heads;
  }

  lemma CallsMute(l: Launch, s: State, m: GuestMessage)
    ensures m.StartCall? ==> StartStep(l, s, m).toGuest == s.toGuest
    ensures m.GrantCredit? ==> CreditStep(s, m).toGuest == s.toGuest
    ensures m.Subscribe? || m.Unsubscribe? || m.Publish? ==> TopicStep(l, s, m).toGuest == s.toGuest
  {
    hide NameCheck;
  }

  lemma SilentMute(a: State, b: State)
    requires b.toGuest == a.toGuest
    ensures Mute(a, b)
  {
  }

  lemma ForwardMute(a: State, b: State, m: ToGuest)
    requires b.toGuest == a.toGuest && !m.Interaction?
    ensures Mute(a, Forward(b, m))
  {
  }

  lemma FailMute(a: State, b: State, code: Code)
    requires b.toGuest == a.toGuest
    ensures Mute(a, Fail(b, code))
  {
  }

  lemma StateMute(l: Launch, s: State, m: HostMessage)
    ensures m.Snapshot? ==> Mute(s, SnapshotStep(l, s, m))
    ensures m.Patch? ==> Mute(s, PatchStep(l, s, m))
    ensures m.CallChunk? ==> Mute(s, ChunkStep(s, m))
  {
    hide FirstDenied, Forward, Fail, Mute;
    forall code ensures Mute(s, Fail(s, code)) {
      FailMute(s, s, code);
    }
    forall revision, values: map<Name, Data>
      ensures Mute(s, Forward(s.(stateRevision := revision, stale := false), StateSnapshot(revision, values)))
    {
      ForwardMute(s, s.(stateRevision := revision, stale := false), StateSnapshot(revision, values));
    }
    forall revision ensures Mute(s, Forward(s.(stale := true), StateStale(revision))) {
      ForwardMute(s, s.(stale := true), StateStale(revision));
    }
    forall base, revision, mutations
      ensures Mute(s, Forward(s.(stateRevision := revision), StatePatch(base, revision, mutations)))
    {
      ForwardMute(s, s.(stateRevision := revision), StatePatch(base, revision, mutations));
    }
    forall calls, id, data: Data ensures Mute(s, Forward(s.(calls := calls), Chunk(id, data))) {
      ForwardMute(s, s.(calls := calls), Chunk(id, data));
    }
    SilentMute(s, s);
  }

  lemma EndMute(s: State, m: HostMessage)
    requires m.CallResult? || m.CallError? || m.CallOutcomeUnknown?
    ensures Mute(s, EndingStep(s, m))
  {
    hide Forward, Fail, Mute;
    forall code ensures Mute(s, Fail(s, code)) {
      FailMute(s, s, code);
    }
    forall calls, last: ToGuest | !last.Interaction? ensures Mute(s, Forward(s.(calls := calls), last)) {
      ForwardMute(s, s.(calls := calls), last);
    }
  }

  lemma OtherMute(l: Launch, s: State, m: HostMessage)
    requires Other(m)
    ensures Mute(s, OtherStep(l, s, m))
  {
    hide NameCheck, Forward, Fail, Mute;
    var after := OtherStep(l, s, m);
    if m.Activate? && s.renderRevision != 0 {
      Closing(s, after);
    } else if m.Stale? {
      if m.revision.Some? && m.reasonOk {
        ForwardMute(s, s.(stale := true), StateStale(m.revision.value));
      } else {
        FailMute(s, s.(stale := true), ProtocolViolation);
      }
    } else if m.Ping? {
      SilentMute(s, after);
    } else {
      forall code ensures Mute(s, Fail(s, code)) {
        FailMute(s, s, code);
      }
      forall calls, id ensures Mute(s, Forward(s.(calls := calls), Accepted(id))) {
        ForwardMute(s, s.(calls := calls), Accepted(id));
      }
      forall name, data: Data ensures Mute(s, Forward(s, Event(name, data))) {
        ForwardMute(s, s, Event(name, data));
      }
      ForwardMute(s, s.(suspended := true), Suspended);
      ForwardMute(s, s.(suspended := false), Resumed);
    }
  }

  lemma InteractFair(st: State, m: HostMessage)
    requires m.Interact? && Enforces(st) && !st.closed
    ensures Fair(st, InteractStep(st, m))
  {
    hide ShownBy, TargetsOf, ValueOk, Offered;
    if !InteractStep(st, m).closed {
      OfferedTarget(ShownBy(st.toHost).tree.value, m.node.value, m.choice);
    }
  }

  lemma MuteFair(a: State, b: State)
    requires Mute(a, b)
    ensures Fair(a, b)
  {
    hide OfferedNow;
  }

  lemma HostFair(l: Launch, st: State, seqno: int, m: HostMessage)
    requires Enforces(st)
    ensures Fair(st, HostStep(l, st, seqno, m))
  {
    var s := st.(hostSeq := st.hostSeq + 1);
    if m.Interact? && !st.closed && seqno == st.hostSeq && st.ready {
      Counted(st, s);
      InteractFair(s, m);
      hide InteractStep, Fair;
      CountedFair(st, s, InteractStep(s, m));
    } else {
      HostMute(l, st, seqno, m);
      MuteFair(st, HostStep(l, st, seqno, m));
    }
  }

  lemma HostMute(l: Launch, st: State, seqno: int, m: HostMessage)
    requires m.Interact? ==> st.closed || seqno != st.hostSeq || !st.ready
    ensures Mute(st, HostStep(l, st, seqno, m))
  {
    hide SnapshotStep, PatchStep, ChunkStep, EndingStep, OtherStep, Fail, Mute;
    var s := st.(hostSeq := st.hostSeq + 1);
    SilentMute(st, st);
    FailMute(st, st, ProtocolViolation);
    FailMute(st, s, ProtocolViolation);
    if m.Dispose? && !st.closed && seqno == st.hostSeq {
      Closing(st, HostStep(l, st, seqno, m));
    } else if !m.Interact? {
      StateMute(l, s, m);
      if Other(m) {
        OtherMute(l, s, m);
      }
      if m.CallResult? || m.CallError? || m.CallOutcomeUnknown? {
        EndMute(s, m);
      }
      CountedMute(st, s, Dispatch(l, s, m));
    }
  }

  lemma Closing(a: State, b: State)
    requires b.toGuest in {a.toGuest, a.toGuest + [Disposed], a.toGuest + [Resumed]}
    ensures Mute(a, b)
  {
  }

  lemma CountedMute(st: State, s: State, b: State)
    requires s == st.(hostSeq := s.hostSeq)
    ensures Mute(s, b) ==> Mute(st, b)
  {
  }

  /** Counting a host message changes nothing that interactions depend on. */
  lemma Counted(st: State, s: State)
    requires Enforces(st) && s == st.(hostSeq := s.hostSeq)
    ensures Enforces(s)
  {
    hide ShownBy;
  }

  lemma CountedFair(st: State, s: State, b: State)
    requires s == st.(hostSeq := s.hostSeq) && Fair(s, b)
    ensures Fair(st, b)
  {
    hide ShownBy, Offered;
  }

  lemma StepFair(l: Launch, st: State, i: Input)
    requires Enforces(st)
    ensures Fair(st, Step(l, st, i))
  {
    hide GuestStep, HostStep, Enforces, Fair, Mute;
    match i
    case FromGuest(m, now) =>
      GuestMute(l, st, m, now);
      MuteFair(st, GuestStep(l, st, m, now));
    case FromHost(seqno, m) => HostFair(l, st, seqno, m);
  }

  /**
   * Every interaction in the log of what the guest received was forwarded in one step of the run, and
   * is one that the render the host was last shown before that step offers, while the runtime is
   * active; and renders reached the host with revisions 1, 2, 3 and so on until then.
   */
  lemma {:induction false} InteractionsAreOffered(l: Launch, inputs: seq<Input>, i: nat) returns (k: nat)
    requires i < |Run(l, inputs).toGuest| && Run(l, inputs).toGuest[i].Interaction?
    ensures k < |inputs|
    ensures |Run(l, inputs[..k]).toGuest| <= i < |Run(l, inputs[..k + 1]).toGuest|
    ensures Run(l, inputs[..k + 1]).toGuest[i] == Run(l, inputs).toGuest[i]
    ensures OfferedNow(Run(l, inputs[..k]), Run(l, inputs).toGuest[i])
  {
    hide Step, OfferedNow, Enforces;
    if inputs == [] {
      assert false;
    } else {
      var n := |inputs| - 1;
      var st := Run(l, inputs[..n]);
      RunEnforces(l, inputs[..n]);
      StepFair(l, st, inputs[n]);
      if i < |st.toGuest| {
        k := InteractionsAreOffered(l, inputs[..n], i);
        assert inputs[..n][..k] == inputs[..k] && inputs[..n][..k + 1] == inputs[..k + 1];
      } else {
        k := n;
        assert inputs[..n + 1] == inputs;
      }
    }
  }
}
