/** The runtime broker as an object whose fields every message updates. */
module RuntimeBrokers {
  import opened Wire
  import opened Options
  import opened Capabilities
  import Ui = UiContract
  import opened UiTree
  import opened Broker
  import opened BrokerCalls
  import opened BrokerInteractions

  // ---------------------------------------------------------------- interaction targets

  lemma Associative<T>(a: seq<T>, b: seq<T>, c: seq<T>)
    ensures a + (b + c) == a + b + c
  {
  }

  lemma {:induction false} AllHeadsAppend(a: seq<Node>, b: seq<Node>)
    ensures AllHeads(a + b) == AllHeads(a) + AllHeads(b)
  {
    hide Heads;
    if a == [] {
      assert a + b == b;
      assert [] + AllHeads(b) == AllHeads(b);
    } else {
      AllHeadsAppend(a[1..], b);
      assert (a + b)[0] == a[0] && (a + b)[1..] == a[1..] + b;
      Associative(Heads(a[0]), AllHeads(a[1..]), AllHeads(b));
    }
  }

  lemma {:induction false} HeadsIds(n: Node)
    ensures |Heads(n)| == |Ids(n)| && forall i :: 0 <= i < |Heads(n)| ==> Heads(n)[i].id == Ids(n)[i]
  {
    if n.Branch? {
      AllHeadsIds(n.children);
    }
  }

  lemma {:induction false} AllHeadsIds(nodes: seq<Node>)
    ensures |AllHeads(nodes)| == |AllIds(nodes)| && forall i :: 0 <= i < |AllHeads(nodes)| ==> AllHeads(nodes)[i].id == AllIds(nodes)[i]
  {
    if nodes != [] {
      HeadsIds(nodes[0]);
      AllHeadsIds(nodes[1..]);
    }
  }

  /** With distinct identifiers every control is among the targets, as itself. */
  lemma {:induction false} TargetsForward(heads: seq<Head>, i: nat)
    requires i < |heads| && Control(heads[i])
    requires forall j, k :: 0 <= j < k < |heads| ==> heads[j].id != heads[k].id
    ensures heads[i].id in TargetsOf(heads) && TargetsOf(heads)[heads[i].id] == TargetOf(heads[i])
  {
    hide Control, TargetOf;
    if i < |heads| - 1 {
      TargetsForward(heads[..|heads| - 1], i);
    }
  }

  /** A map that holds every control of the tree as itself, and nothing else. */
  ghost predicate Collects(targets: map<string, Target>, heads: seq<Head>) {
    && (forall h :: h in heads && Control(h) ==> h.id in targets && targets[h.id] == TargetOf(h))
    && (forall id :: id in targets ==> exists h :: h in heads && Control(h) && h.id == id)
  }

  lemma CollectsUnique(targets: map<string, Target>, heads: seq<Head>)
    requires Collects(targets, heads) && forall j, k :: 0 <= j < k < |heads| ==> heads[j].id != heads[k].id
    ensures targets == TargetsOf(heads)
  {
    hide Control, TargetOf;
    forall h | h in heads && Control(h) ensures h.id in TargetsOf(heads) && TargetsOf(heads)[h.id] == TargetOf(h) {
      var i :| 0 <= i < |heads| && heads[i] == h;
      TargetsForward(heads, i);
    }
    forall id | id in TargetsOf(heads) ensures id in targets {
      TargetsBack(heads, id);
    }
  }

  lemma CollectsMore(targets: map<string, Target>, done: seq<Head>, h: Head)
    requires Collects(targets, done) && forall g :: g in done && g.id == h.id ==> g == h
    ensures Collects(if Control(h) then targets[h.id := TargetOf(h)] else targets, done + [h])
  {
    hide Control, TargetOf;
    var after := if Control(h) then targets[h.id := TargetOf(h)] else targets;
    forall id | id in after ensures exists g :: g in done + [h] && Control(g) && g.id == id {
      if id in targets {
        var g :| g in done && Control(g) && g.id == id;
        assert g in done + [h];
      } else {
        assert h in done + [h];
      }
    }
  }

  lemma SameMembers(targets: map<string, Target>, a: seq<Head>, b: seq<Head>)
    requires Collects(targets, a) && forall h :: h in a <==> h in b
    ensures Collects(targets, b)
  {
  }

  lemma SameIdSameHead(heads: seq<Head>, g: Head, h: Head)
    requires g in heads && h in heads && g.id == h.id
    requires forall j, k :: 0 <= j < k < |heads| ==> heads[j].id != heads[k].id
    ensures g == h
  {
    var i :| 0 <= i < |heads| && heads[i] == g;
    var j :| 0 <= j < |heads| && heads[j] == h;
  }

  function ChildNodes(n: Node): seq<Node> { if n.Branch? then n.children else [] }

  lemma HeadFirst(n: Node)
    ensures Heads(n) == [n.head] + AllHeads(ChildNodes(n)) && AllHeads([n]) == Heads(n)
  {
    assert AllHeads([]) == [];
    assert [n][1..] == [] && Heads(n) + [] == Heads(n);
    assert [n.head] + [] == [n.head];
  }

  /** One pop: the head moves from the stack to what is done, the children take its place. */
  lemma Popped(heads: seq<Head>, done: seq<Head>, stack: seq<Node>)
    requires stack != [] && forall h :: h in heads <==> h in done || h in AllHeads(stack)
    ensures var n := |stack| - 1;
      var rest := stack[..n] + ChildNodes(stack[n]);
      && stack[n].head in heads && |AllHeads(rest)| < |AllHeads(stack)|
      && (forall h :: h in heads <==> h in done + [stack[n].head] || h in AllHeads(rest))
  {
    hide Heads, ChildNodes;
    var n := |stack| - 1;
    HeadFirst(stack[n]);
    AllHeadsAppend(stack[..n], [stack[n]]);
    AllHeadsAppend(stack[..n], ChildNodes(stack[n]));
    assert stack == stack[..n] + [stack[n]];
    assert stack[n].head in AllHeads(stack) by {
      assert Heads(stack[n])[0] == stack[n].head;
    }
  }

  /** The stack visits children right to left; with distinct identifiers the order makes no difference. */
  method CollectInteractionTargets(root: Node) returns (targets: map<string, Target>)
    requires Distinct(Ids(root))
    ensures targets == TargetsOf(Heads(root))
  {
    hide Control, TargetOf, Heads, AllHeads, ChildNodes;
    targets := map[];
    var stack := [root];
    ghost var done: seq<Head> := [];
    ghost var heads := Heads(root);
    HeadsIds(root);
    HeadFirst(root);
    while stack != []
      invariant forall h :: h in heads <==> h in done || h in AllHeads(stack)
      invariant Collects(targets, done)
      decreases |AllHeads(stack)|
    {
      var node := stack[|stack| - 1];
      Popped(heads, done, stack);
      forall g | g in done && g.id == node.head.id ensures g == node.head {
        SameIdSameHead(heads, g, node.head);
      }
      CollectsMore(targets, done, node.head);
      if Control(node.head) {
        targets := targets[node.head.id := TargetOf(node.head)];
      }
      done := done + [node.head];
      stack := stack[..|stack| - 1] + ChildNodes(node);
    }
    NoHeads();
    SameMembers(targets, done, heads);
    CollectsUnique(targets, heads);
  }

  lemma NoHeads()
    ensures AllHeads([]) == []
  {
  }

  // ---------------------------------------------------------------- the broker

  class RuntimeBroker {
    const l: Launch
    var closed: bool
    var ready: bool
    var staging: bool
    var active: bool
    var suspended: bool
    var hostSeq: int
    var stateRevision: int
    var stale: bool
    var renderRevision: int
    var targets: map<string, Target>
    var guestTimes: seq<real>
    var renderTimes: seq<real>
    var subscriptions: set<Name>
    var calls: map<int, Call>
    var seen: set<int>
    var toHost: seq<ToHost>
    var toGuest: seq<ToGuest>

    function Current(): State
      reads this
    {
      State(
        closed, ready, staging, active, suspended, hostSeq, stateRevision, stale, renderRevision, targets, guestTimes,
        renderTimes, subscriptions, calls, seen, toHost, toGuest)
    }

    constructor (l: Launch)
      ensures this.l == l && Current() == Launched(l)
    {
      this.l := l;
      closed, ready, staging, active, suspended, hostSeq := false, false, l.staging, false, false, 1;
      stateRevision, stale, renderRevision, targets := l.revision, false, 0, map[];
      guestTimes, renderTimes, subscriptions, calls, seen, toHost, toGuest := [], [], {}, map[], {}, [], [];
    }

    method SendHost(m: ToHost)
      modifies this`toHost
      ensures Current() == if closed then old(Current()) else Send(old(Current()), m)
    {
      if !closed {
        toHost := toHost + [m];
      }
    }

    method SendGuest(m: ToGuest)
      modifies this`toGuest
      ensures Current() == if closed then old(Current()) else Forward(old(Current()), m)
    {
      if !closed {
        toGuest := toGuest + [m];
      }
    }

    method Cleanup()
      modifies this`targets, this`subscriptions, this`calls, this`seen
      ensures targets == map[] && subscriptions == {} && calls == map[] && seen == {}
    {
      targets, subscriptions, calls, seen := map[], {}, map[], {};
    }

    method Terminate(code: Code)
      modifies this
      ensures Current() == if old(closed) then old(Current()) else Fail(old(Current()), code)
    {
      if closed {
        return;
      }
      SendHost(Failed(code));
      SendHost(Terminated);
      closed := true;
      Cleanup();
      assert old(toHost) + [Failed(code)] + [Terminated] == old(toHost) + [Failed(code), Terminated];
    }

    /** Times older than a second leave the front; the current one joins the back. */
    method EnforceRate(times: seq<real>, now: real, limit: nat) returns (next: seq<real>, ok: bool)
      ensures next == Rate(times, now) && (ok <==> |next| <= limit)
    {
      next := times;
      while next != [] && next[0] <= now - 1_000.0
        invariant Recent(next, now) == Recent(times, now)
        decreases |next|
      {
        next := next[1..];
      }
      next := next + [now];
      ok := |next| <= limit;
    }

    method HandleRender(m: GuestMessage, now: real)
      requires m.Render? && !closed
      modifies this
      ensures Current() == RenderStep(l, old(Current()), m, now)
    {
      hide Rate, Fail, DrawStep;
      var next, ok := EnforceRate(renderTimes, now, RENDERS_PER_SECOND);
      renderTimes := next;
      if !ok || m.revision == None {
        Terminate(ProtocolViolation);
        return;
      }
      if m.revision.value != renderRevision + 1 {
        Terminate(RenderInvalid);
        return;
      }
      Draw(m);
    }

    method Draw(m: GuestMessage)
      requires m.Render? && m.revision.Some? && !closed
      modifies this
      ensures Current() == DrawStep(l, old(Current()), m)
    {
      hide TargetsOf, Heads, Fail, ValidateTree;
      var checked := ValidateTree(m.heap, l.grant.media, m.tree);
      if checked.Refused? {
        Terminate(if checked.error == Ui.CapabilityDenied then CapabilityDenied else RenderInvalid);
        return;
      }
      AcceptedTree(m.heap, l.grant.media, m.tree);
      renderRevision := m.revision.value;
      targets := CollectInteractionTargets(checked.value);
      SendHost(Rendered(m.revision.value, checked.value));
    }

    method StartCall(m: GuestMessage)
      requires m.StartCall? && !closed
      modifies this
      ensures Current() == StartStep(l, old(Current()), m)
    {
      hide NameCheck, Fail;
      if !active || staging || suspended {
        Terminate(CapabilityDenied);
        return;
      }
      var named := NameCheck(l.grant.call, m.name);
      NameChecked(l.grant.call, m.name);
      if named.Some? {
        Terminate(named.value);
        return;
      }
      if m.id == None || m.id.value in seen || |calls| >= OUTSTANDING_CALLS || m.deadline == BadDeadline
        || (m.deadline.DeadlineMs? && m.deadline.ms > CALL_DEADLINE_MS) || m.args == None
      {
        Terminate(ProtocolViolation);
        return;
      }
      seen := seen + {m.id.value};
      calls := calls[m.id.value := Call(false, 0)];
      SendHost(Started(m.id.value, m.name.value, m.args.value, m.deadline));
    }

    method GrantCredit(m: GuestMessage)
      requires m.GrantCredit? && !closed
      modifies this
      ensures Current() == CreditStep(old(Current()), m)
    {
      hide Fail;
      if !active || staging || suspended {
        Terminate(CapabilityDenied);
        return;
      }
      if m.id == None || m.id.value !in calls || m.credit == None || m.credit.value <= 0 || m.credit.value > CALL_CREDIT
        || calls[m.id.value].credit + m.credit.value > CALL_CREDIT
      {
        Terminate(ProtocolViolation);
        return;
      }
      var operation := calls[m.id.value];
      calls := calls[m.id.value := operation.(credit := operation.credit + m.credit.value)];
      SendHost(Credited(m.id.value, m.credit.value));
    }

    method ReceiveChunk(m: HostMessage)
      requires m.CallChunk? && !closed
      modifies this
      ensures Current() == ChunkStep(old(Current()), m)
    {
      hide Fail;
      if m.id == None || m.id.value !in calls || !calls[m.id.value].accepted || calls[m.id.value].credit <= 0 || m.value == None {
        Terminate(ProtocolViolation);
        return;
      }
      var operation := calls[m.id.value];
      calls := calls[m.id.value := operation.(credit := operation.credit - 1)];
      SendGuest(Chunk(m.id.value, m.value.value));
    }

    method EndCall(id: Option<int>, ok: bool, last: ToGuest)
      requires !closed
      modifies this
      ensures Current() == EndStep(old(Current()), id, ok, last)
    {
      hide Fail;
      if id == None || id.value !in calls || !ok {
        Terminate(ProtocolViolation);
        return;
      }
      calls := calls - {id.value};
      SendGuest(last);
    }

    /** The first path that may not be read decides the error. */
    method CheckPaths(paths: seq<Name>) returns (denied: Option<Code>)
      ensures denied == FirstDenied(l, paths)
    {
      hide ReadablePath, StateCode;
      for i := 0 to |paths|
        invariant FirstDenied(l, paths) == FirstDenied(l, paths[i..])
      {
        if !ReadablePath(l, paths[i]) {
          return Some(StateCode(paths[i]));
        }
        assert paths[i..][1..] == paths[i + 1..];
      }
      denied := None;
    }

    method ReceiveSnapshot(m: HostMessage)
      requires m.Snapshot? && !closed
      modifies this
      ensures Current() == SnapshotStep(l, old(Current()), m)
    {
      hide Fail, FirstDenied, MapOf;
      if m.revision == None || m.revision.value < stateRevision || m.values == None {
        Terminate(ProtocolViolation);
        return;
      }
      var denied := CheckPaths(EntryPaths(m.values.value));
      if denied.Some? {
        Terminate(denied.value);
        return;
      }
      stateRevision := m.revision.value;
      stale := false;
      SendGuest(StateSnapshot(m.revision.value, MapOf(m.values.value)));
    }

    method ReceivePatch(m: HostMessage)
      requires m.Patch? && !closed
      modifies this
      ensures Current() == PatchStep(l, old(Current()), m)
    {
      hide Fail, FirstDenied;
      if m.base == None || m.revision == None {
        Terminate(ProtocolViolation);
        return;
      }
      if m.base.value != stateRevision || m.revision.value != m.base.value + 1 {
        stale := true;
        SendGuest(StateStale(stateRevision));
        return;
      }
      if m.mutations == None {
        Terminate(ProtocolViolation);
        return;
      }
      var denied := CheckPaths(Paths(m.mutations.value));
      if denied.Some? {
        Terminate(denied.value);
        return;
      }
      if stale {
        return;
      }
      stateRevision := m.revision.value;
      SendGuest(StatePatch(m.base.value, m.revision.value, m.mutations.value));
    }

    method ReceiveInteraction(m: HostMessage)
      requires m.Interact? && !closed
      modifies this
      ensures Current() == InteractStep(old(Current()), m)
    {
      hide Fail, ValueOk;
      if !active || staging || suspended {
        Terminate(CapabilityDenied);
        return;
      }
      if m.rendered != renderRevision {
        Terminate(RenderInvalid);
        return;
      }
      if m.node == None {
        Terminate(ProtocolViolation);
        return;
      }
      if m.node.value !in targets {
        Terminate(RenderInvalid);
        return;
      }
      var target := targets[m.node.value];
      if target.disabled || m.event != target.event || !ValueOk(target, m.choice) {
        Terminate(RenderInvalid);
        return;
      }
      SendGuest(Interaction(renderRevision, m.node.value, target.handler, target.event, m.choice));
    }

    method CheckName(patterns: seq<bytes>, name: Option<Name>) returns (bad: Option<Code>)
      ensures bad == NameCheck(patterns, name) && (bad == None ==> name.Some?)
    {
      if name == None {
        return Some(ProtocolViolation);
      }
      var verdict := IsCapabilityGranted(patterns, name.value);
      match verdict
      case BadName => bad := Some(ProtocolViolation);
      case Answer(granted) => bad := if granted then None else Some(CapabilityDenied);
    }

    /** The messages that name a topic. */
    method HandleTopic(m: GuestMessage)
      requires (m.Subscribe? || m.Unsubscribe? || m.Publish?) && !closed
      modifies this
      ensures Current() == TopicStep(l, old(Current()), m)
    {
      hide NameCheck, Fail;
      if m.Publish? && (!active || staging || suspended) {
        Terminate(CapabilityDenied);
        return;
      }
      var bad := CheckName(if m.Publish? then l.grant.publish else l.grant.subscribe, m.name);
      if bad.Some? {
        Terminate(bad.value);
        return;
      }
      if m.Publish? {
        if m.data == None {
          Terminate(ProtocolViolation);
          return;
        }
        SendHost(Published(m.name.value, m.data.value));
      } else if m.Subscribe? {
        subscriptions := subscriptions + {m.name.value};
        SendHost(Subscribed(m.name.value));
      } else {
        subscriptions := subscriptions - {m.name.value};
        SendHost(Unsubscribed(m.name.value));
      }
    }

    method HandleGuestMessage(m: GuestMessage, now: real)
      modifies this
      ensures Current() == GuestStep(l, old(Current()), m, now)
    {
      hide Rate, Fail, ReceiveStep;
      if closed {
        return;
      }
      var next, ok := EnforceRate(guestTimes, now, GUEST_MESSAGES_PER_SECOND);
      guestTimes := next;
      if !ok || m.GuestMalformed? {
        Terminate(ProtocolViolation);
        return;
      }
      if !ready {
        if !m.Ready? || !m.abiOk {
          Terminate(BootFailed);
          return;
        }
        ready := true;
        toGuest := toGuest + [Boot, StateSnapshot(stateRevision, l.initial)];
        toHost := toHost + [WorkerReady];
        return;
      }
      ReceiveGuestMessage(m, now);
    }

    method ReceiveGuestMessage(m: GuestMessage, now: real)
      requires !closed
      modifies this
      ensures Current() == ReceiveStep(l, old(Current()), m, now)
    {
      hide Fail, Send, RenderStep, StartStep, CreditStep, TopicStep;
      if m.Subscribe? || m.Unsubscribe? || m.Publish? {
        HandleTopic(m);
        return;
      }
      if m.Render? {
        HandleRender(m, now);
      } else if m.StartCall? {
        StartCall(m);
      } else if m.GrantCredit? {
        GrantCredit(m);
      } else if m.CancelCall? && (!active || staging || suspended) {
        Terminate(CapabilityDenied);
      } else if m.CancelCall? && m.id.Some? && m.id.value in calls {
        SendHost(Cancelled(m.id.value));
      } else if m.WriteLog? && m.ok {
        SendHost(Logged);
      } else {
        Terminate(ProtocolViolation);
      }
    }

    method DisposeRuntime()
      requires !closed
      modifies this
      ensures Current() == Shut(old(Current()).(toGuest := old(toGuest) + [Disposed], toHost := old(toHost) + [Terminated]))
    {
      SendGuest(Disposed);
      SendHost(Terminated);
      closed := true;
      Cleanup();
    }

    method HandleHostMessage(seqno: int, m: HostMessage)
      modifies this
      ensures Current() == HostStep(l, old(Current()), seqno, m)
    {
      hide Fail, OrderedStep;
      if closed {
        return;
      }
      if m.HostMalformed? || seqno != hostSeq {
        Terminate(ProtocolViolation);
        return;
      }
      hostSeq := hostSeq + 1;
      HandleOrdered(m);
    }

    method HandleOrdered(m: HostMessage)
      requires !closed
      modifies this
      ensures Current() == OrderedStep(l, old(Current()), m)
    {
      hide Fail, Shut, Dispatch;
      if m.Dispose? {
        DisposeRuntime();
        return;
      }
      if !ready {
        Terminate(ProtocolViolation);
        return;
      }
      DispatchHostMessage(m);
    }

    method DispatchHostMessage(m: HostMessage)
      requires !closed
      modifies this
      ensures Current() == Dispatch(l, old(Current()), m)
    {
      hide InteractStep, SnapshotStep, PatchStep, ChunkStep, EndingStep, OtherStep;
      if m.CallResult? || m.CallError? || m.CallOutcomeUnknown? {
        EndFrom(m);
      } else if m.Snapshot? {
        ReceiveSnapshot(m);
      } else if m.Patch? {
        ReceivePatch(m);
      } else if m.Interact? {
        ReceiveInteraction(m);
      } else if m.CallChunk? {
        ReceiveChunk(m);
      } else {
        ReceiveOther(m);
      }
    }

    method EndFrom(m: HostMessage)
      requires !closed && (m.CallResult? || m.CallError? || m.CallOutcomeUnknown?)
      modifies this
      ensures Current() == EndingStep(old(Current()), m)
    {
      if m.CallResult? {
        EndCall(m.id, m.value.Some?, if m.id.Some? && m.value.Some? then Result(m.id.value, m.value.value) else Suspended);
      } else if m.CallError? {
        EndCall(m.id, m.ok, if m.id.Some? then Error(m.id.value) else Suspended);
      } else {
        EndCall(m.id, m.ok, if m.id.Some? then OutcomeUnknown(m.id.value) else Suspended);
      }
    }

    method Deliver(m: HostMessage)
      requires !closed && m.Deliver?
      modifies this
      ensures Current() == OtherStep(l, old(Current()), m)
    {
      hide Fail, NameCheck;
      var bad := CheckName(l.grant.subscribe, m.name);
      if bad.Some? {
        Terminate(bad.value);
      } else if m.name.value !in subscriptions {
        Terminate(CapabilityDenied);
      } else if m.data == None {
        Terminate(ProtocolViolation);
      } else {
        SendGuest(Event(m.name.value, m.data.value));
      }
    }

    method ActivateRuntime()
      requires !closed
      modifies this
      ensures Current() == OtherStep(l, old(Current()), Activate)
    {
      hide Fail;
      if renderRevision == 0 {
        Terminate(ProtocolViolation);
        return;
      }
      staging, active, suspended := false, true, false;
      toGuest := toGuest + [Resumed];
      toHost := toHost + [Active(renderRevision)];
    }

    method ChangeSuspension(m: HostMessage)
      requires !closed && (m.Suspend? || m.Resume?)
      modifies this
      ensures Current() == OtherStep(l, old(Current()), m)
    {
      hide Fail;
      if !active || suspended == m.Suspend? {
        Terminate(ProtocolViolation);
        return;
      }
      suspended := m.Suspend?;
      toGuest := toGuest + [if m.Suspend? then Suspended else Resumed];
    }

    method ReceiveOther(m: HostMessage)
      requires !closed && Other(m)
      modifies this
      ensures Current() == OtherStep(l, old(Current()), m)
    {
      hide Fail, NameCheck;
      if m.Activate? {
        ActivateRuntime();
      } else if m.Suspend? || m.Resume? {
        ChangeSuspension(m);
      } else if m.Deliver? {
        Deliver(m);
      } else if m.Ping? {
        SendHost(Pong(m.echo));
      } else if m.Stale? {
        stale := true;
        if m.revision == None || !m.reasonOk {
          Terminate(ProtocolViolation);
        } else {
          SendGuest(StateStale(m.revision.value));
        }
      } else if m.CallAccepted? && m.id.Some? && m.id.value in calls && !calls[m.id.value].accepted {
        calls := calls[m.id.value := calls[m.id.value].(accepted := true)];
        SendGuest(Accepted(m.id.value));
      } else {
        Terminate(ProtocolViolation);
      }
    }
  }
}
