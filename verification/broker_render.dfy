/** Renders are contiguous, interactions reach only what the latest render offers, and rates are bounded. */
module BrokerRender {
  import opened Options
  import UiTree
  import Ui = UiContract
  import opened Broker
  import opened BrokerCalls

  // ---------------------------------------------------------------- rates

  /** What the sliding window holds after messages at these times. */
  function Window(clock: seq<real>): seq<real> {
    if clock == [] then [] else Rate(Window(clock[..|clock| - 1]), clock[|clock| - 1])
  }

  predicate Nondecreasing(clock: seq<real>) { forall i, j :: 0 <= i < j < |clock| ==> clock[i] <= clock[j] }

  lemma {:induction false} RecentSuffix(times: seq<real>, now: real) returns (k: nat)
    requires Nondecreasing(times)
    ensures k <= |times| && Recent(times, now) == times[k..]
    ensures forall i :: 0 <= i < k ==> times[i] <= now - 1_000.0
    ensures forall i :: k <= i < |times| ==> times[i] > now - 1_000.0
  {
    if times != [] && times[0] <= now - 1_000.0 {
      var rest := RecentSuffix(times[1..], now);
      k := rest + 1;
      assert forall i :: 0 < i < |times| ==> times[i] == times[1..][i - 1];
      assert times[1..][rest..] == times[k..];
    } else {
      k := 0;
      assert times[0..] == times;
    }
  }

  /** The window is the part of the history within a second of its last message. */
  predicate Since(clock: seq<real>, k: nat, now: real)
    requires k <= |clock|
  {
    (forall i :: 0 <= i < k ==> clock[i] <= now - 1_000.0) && (forall i :: k <= i < |clock| ==> clock[i] > now - 1_000.0)
  }

  lemma Slides(before: seq<real>, j: nat, last: real, now: real) returns (k: nat)
    requires j <= |before| && Nondecreasing(before) && Since(before, j, last) && last <= now
    ensures k <= |before| && Recent(before[j..], now) == before[k..] && Since(before, k, now)
  {
    hide Recent;
    var i := RecentSuffix(before[j..], now);
    k := j + i;
    assert before[j..][i..] == before[k..];
    forall x | 0 <= x < |before| ensures (x < k ==> before[x] <= now - 1_000.0) && (x >= k ==> before[x] > now - 1_000.0) {
      if x >= j {
        assert before[j..][x - j] == before[x];
      }
    }
  }

  lemma {:induction false} WindowSuffix(clock: seq<real>) returns (k: nat)
    requires Nondecreasing(clock) && clock != []
    ensures k < |clock| && Window(clock) == clock[k..] && Since(clock, k, clock[|clock| - 1])
  {
    hide Recent;
    var n := |clock| - 1;
    var before, now := clock[..n], clock[n];
    if n == 0 {
      EmptyRecent(now);
      assert before == [] && Window([]) == [];
      k := 0;
      assert Window(clock) == [] + [now] == clock[0..];
    } else {
      var j := WindowSuffix(before);
      assert before[n - 1] == clock[n - 1] <= now;
      k := Slides(before, j, before[n - 1], now);
      hide Since, Nondecreasing;
      assert before[k..] + [now] == clock[k..];
      assert before + [now] == clock;
      SinceNow(before, k, now);
    }
  }

  lemma SinceNow(before: seq<real>, k: nat, now: real)
    requires k <= |before| && Since(before, k, now)
    ensures Since(before + [now], k, now)
  {
  }

  lemma EmptyRecent(now: real)
    ensures Recent([], now) == []
  {
  }

  /** With a clock that does not run backwards, a message is over the limit exactly when `limit` others came within a second. */
  lemma OverRateExactly(clock: seq<real>, limit: nat)
    requires Nondecreasing(clock) && clock != [] && limit >= 1
    ensures var n := |clock| - 1;
      |Window(clock)| > limit <==> n >= limit && clock[n - limit] > clock[n] - 1_000.0
  {
    hide Window;
    var k := WindowSuffix(clock);
    var n := |clock| - 1;
    if n >= limit && n - limit < k {
      assert clock[n - limit] <= clock[n] - 1_000.0;
    }
  }

  // ---------------------------------------------------------------- renders

  /** What the host was shown: how many renders, the latest tree, and whether each had the next revision. */
  datatype Shown = Shown(count: int, tree: Option<UiTree.Node>, contiguous: bool)

  function See(s: Shown, m: ToHost): Shown {
    match m
    case Rendered(revision, tree) => Shown(s.count + 1, Some(tree), s.contiguous && revision == s.count + 1)
    case _ => s
  }

  function ShownBy(log: seq<ToHost>): Shown {
    if log == [] then Shown(0, None, true) else See(ShownBy(log[..|log| - 1]), log[|log| - 1])
  }

  lemma ShownAppend(log: seq<ToHost>, m: ToHost)
    ensures ShownBy(log + [m]) == See(ShownBy(log), m)
  {
    hide See;
    assert (log + [m])[..|log|] == log;
  }

  /** The broker enforces the tree it last showed. */
  ghost predicate Enforces(st: State) {
    var s := ShownBy(st.toHost);
    && s.contiguous
    && (!st.closed ==>
          && s.count == st.renderRevision
          && st.targets == (if s.tree == None then map[] else TargetsOf(Heads(s.tree.value)))
          && (s.tree == None <==> s.count == 0) && s.count >= 0)
  }

  /** Nothing about renders changed, and what was sent to the host shows no tree. */
  predicate Unrendered(a: State, b: State) {
    && (a.closed ==> b.closed)
    && (b.closed || (b.renderRevision == a.renderRevision && b.targets == a.targets))
    && a.toHost <= b.toHost && forall i :: |a.toHost| <= i < |b.toHost| ==> !b.toHost[i].Rendered?
  }

  lemma {:induction false} UnrenderedShown(a: seq<ToHost>, b: seq<ToHost>)
    requires a <= b && forall i :: |a| <= i < |b| ==> !b[i].Rendered?
    ensures ShownBy(b) == ShownBy(a)
    decreases |b|
  {
    if |b| > |a| {
      UnrenderedShown(a, b[..|b| - 1]);
    } else {
      assert a == b;
    }
  }

  lemma UnrenderedKeeps(a: State, b: State)
    requires Enforces(a) && Unrendered(a, b)
    ensures Enforces(b)
  {
    hide ShownBy;
    UnrenderedShown(a.toHost, b.toHost);
  }

  predicate Alike(a: State, b: State) {
    b.closed == a.closed && b.renderRevision == a.renderRevision && b.targets == a.targets && b.toHost == a.toHost
  }

  lemma AlikeUnrendered(a: State, b: State)
    requires Alike(a, b)
    ensures Unrendered(a, b)
  {
  }

  lemma FailUnrendered(a: State, b: State, code: Code)
    requires Alike(a, b)
    ensures Unrendered(a, Fail(b, code))
  {
  }

  lemma SendUnrendered(a: State, b: State, m: ToHost)
    requires Alike(a, b) && !m.Rendered?
    ensures Unrendered(a, Send(b, m))
  {
  }

  lemma ForwardUnrendered(a: State, b: State, m: ToGuest)
    requires Alike(a, b)
    ensures Unrendered(a, Forward(b, m))
  {
  }

  lemma RenderKeeps(l: Launch, st: State, m: GuestMessage, now: real)
    requires m.Render? && Enforces(st) && !st.closed
    ensures Enforces(RenderStep(l, st, m, now))
  {
    hide ShownBy, Rate, TargetsOf, Fail, Send;
    var timed := st.(renderTimes := Rate(st.renderTimes, now));
    forall code ensures Enforces(Fail(timed, code)) {
      FailUnrendered(timed, timed, code);
      UnrenderedKeeps(timed, Fail(timed, code));
    }
    if m.revision == Some(st.renderRevision + 1) {
      match UiTree.ValidateTree(m.heap, l.grant.media, m.tree)
      case Refused(_) =>
      case Valid(tree) => ShownNext(timed, m.revision.value, tree);
    }
  }

  lemma ShownNext(st: State, revision: int, tree: UiTree.Node)
    requires Enforces(st) && !st.closed && revision == st.renderRevision + 1
    ensures Enforces(Send(st.(renderRevision := revision, targets := TargetsOf(Heads(tree))), Rendered(revision, tree)))
  {
    hide ShownBy, TargetsOf;
    ShownAppend(st.toHost, Rendered(revision, tree));
  }

  lemma StartUnrendered(l: Launch, a: State, st: State, m: GuestMessage)
    requires Alike(a, st) && m.StartCall?
    ensures Unrendered(a, StartStep(l, st, m))
  {
    hide NameCheck, Fail, Send, Unrendered;
    forall code ensures Unrendered(a, Fail(st, code)) {
      FailUnrendered(a, st, code);
    }
    NameChecked(l.grant.call, m.name);
    if m.id.Some? && m.name.Some? && m.args.Some? {
      var s := st.(seen := st.seen + {m.id.value}, calls := st.calls[m.id.value := Call(false, 0)]);
      SendUnrendered(a, s, Started(m.id.value, m.name.value, m.args.value, m.deadline));
    }
  }

  lemma CreditUnrendered(a: State, st: State, m: GuestMessage)
    requires Alike(a, st) && m.GrantCredit?
    ensures Unrendered(a, CreditStep(st, m))
  {
    hide Fail, Send, Unrendered;
    forall code ensures Unrendered(a, Fail(st, code)) {
      FailUnrendered(a, st, code);
    }
    forall calls, sent: ToHost | sent.Credited? ensures Unrendered(a, Send(st.(calls := calls), sent)) {
      SendUnrendered(a, st.(calls := calls), sent);
    }
  }

  lemma GuestUnrendered(l: Launch, st: State, m: GuestMessage, now: real)
    requires !m.Render?
    ensures Unrendered(st, GuestStep(l, st, m, now))
  {
    hide Rate, NameCheck, StartStep, CreditStep, Fail, Send, Unrendered;
    var s := st.(guestTimes := Rate(st.guestTimes, now));
    AlikeUnrendered(st, st);
    forall code ensures Unrendered(st, Fail(s, code)) {
      FailUnrendered(st, s, code);
    }
    forall sent: ToHost | !sent.Rendered? ensures Unrendered(st, Send(s, sent)) {
      SendUnrendered(st, s, sent);
    }
    match m
    case Ready(_) => ReadyUnrendered(l, st, s);
    case Subscribe(name) =>
      NameChecked(l.grant.subscribe, name);
      if name.Some? { SendUnrendered(st, s.(subscriptions := s.subscriptions + {name.value}), Subscribed(name.value)); }
    case Unsubscribe(name) =>
      NameChecked(l.grant.subscribe, name);
      if name.Some? { SendUnrendered(st, s.(subscriptions := s.subscriptions - {name.value}), Unsubscribed(name.value)); }
    case StartCall(_, _, _, _) => StartUnrendered(l, st, s, m);
    case GrantCredit(_, _) => CreditUnrendered(st, s, m);
    case Publish(name, data) =>
      NameChecked(l.grant.publish, name);
      if name.Some? && data.Some? { SendUnrendered(st, s, Published(name.value, data.value)); }
    case _ =>
  }

  lemma ReadyUnrendered(l: Launch, st: State, s: State)
    requires Alike(st, s)
    ensures Unrendered(st, s.(ready := true, toGuest := s.toGuest + [Boot, StateSnapshot(st.stateRevision, l.initial)],
                              toHost := s.toHost + [WorkerReady]))
  {
  }

  lemma StateUnrendered(l: Launch, a: State, st: State, m: HostMessage)
    requires Alike(a, st)
    ensures m.Snapshot? ==> Unrendered(a, SnapshotStep(l, st, m))
    ensures m.Patch? ==> Unrendered(a, PatchStep(l, st, m))
    ensures m.Interact? ==> Unrendered(a, InteractStep(st, m))
  {
    hide Fail, Forward, Unrendered, FirstDenied, MapOf, ValueOk;
    forall code ensures Unrendered(a, Fail(st, code)) {
      FailUnrendered(a, st, code);
    }
    AlikeUnrendered(a, st);
    forall stale, revision, last ensures Unrendered(a, Forward(st.(stateRevision := revision, stale := stale), last)) {
      ForwardUnrendered(a, st.(stateRevision := revision, stale := stale), last);
    }
    forall last ensures Unrendered(a, Forward(st, last)) && Unrendered(a, Forward(st.(stale := true), last)) {
      ForwardUnrendered(a, st, last);
      ForwardUnrendered(a, st.(stale := true), last);
    }
    forall revision, last ensures Unrendered(a, Forward(st.(stateRevision := revision), last)) {
      ForwardUnrendered(a, st.(stateRevision := revision), last);
    }
  }

  lemma CallUnrendered(a: State, st: State, m: HostMessage)
    requires Alike(a, st)
    ensures m.CallChunk? ==> Unrendered(a, ChunkStep(st, m))
    ensures forall id, ok, last :: Unrendered(a, EndStep(st, id, ok, last))
  {
    hide Fail, Forward, Unrendered;
    forall code ensures Unrendered(a, Fail(st, code)) {
      FailUnrendered(a, st, code);
    }
    forall calls, last ensures Unrendered(a, Forward(st.(calls := calls), last)) {
      ForwardUnrendered(a, st.(calls := calls), last);
    }
  }

  lemma LifecycleUnrendered(a: State, st: State)
    requires Alike(a, st)
    ensures Unrendered(a, Shut(st.(toGuest := st.toGuest + [Disposed], toHost := st.toHost + [Terminated])))
    ensures Unrendered(a, st.(staging := false, active := true, suspended := false, toGuest := st.toGuest + [Resumed],
                              toHost := st.toHost + [Active(st.renderRevision)]))
    ensures forall on: bool, last :: Unrendered(a, Forward(st.(suspended := on), last))
  {
  }

  lemma HostUnrendered(l: Launch, st: State, seqno: int, m: HostMessage)
    ensures Unrendered(st, HostStep(l, st, seqno, m))
  {
    hide NameCheck, InteractStep, SnapshotStep, PatchStep, ChunkStep, EndStep, Fail, Send, Forward, Unrendered, Shut;
    var s := st.(hostSeq := st.hostSeq + 1);
    AlikeUnrendered(st, st);
    forall code ensures Unrendered(st, Fail(st, code)) && Unrendered(st, Fail(s, code)) && Unrendered(st, Fail(s.(stale := true), code)) {
      FailUnrendered(st, st, code);
      FailUnrendered(st, s, code);
      FailUnrendered(st, s.(stale := true), code);
    }
    LifecycleUnrendered(st, s);
    StateUnrendered(l, st, s, m);
    CallUnrendered(st, s, m);
    forall sent: ToHost | !sent.Rendered? ensures Unrendered(st, Send(s, sent)) {
      SendUnrendered(st, s, sent);
    }
    forall last ensures Unrendered(st, Forward(s, last)) && Unrendered(st, Forward(s.(stale := true), last)) {
      ForwardUnrendered(st, s, last);
      ForwardUnrendered(st, s.(stale := true), last);
    }
    forall calls, id ensures Unrendered(st, Forward(s.(calls := calls), Accepted(id))) {
      ForwardUnrendered(st, s.(calls := calls), Accepted(id));
    }
  }

  lemma {:induction false} RunEnforces(l: Launch, inputs: seq<Input>)
    ensures Enforces(Run(l, inputs))
  {
    hide GuestStep, HostStep, Unrendered, Enforces;
    if inputs == [] {
      LaunchedEnforces(l);
    } else {
      var before, last := inputs[..|inputs| - 1], inputs[|inputs| - 1];
      RunEnforces(l, before);
      var st := Run(l, before);
      match last
      case FromGuest(m, now) =>
        if m.Render? {
          GuestRenders(l, st, m, now);
        } else {
          GuestUnrendered(l, st, m, now);
          UnrenderedKeeps(st, GuestStep(l, st, m, now));
        }
      case FromHost(seqno, m) =>
        HostUnrendered(l, st, seqno, m);
        UnrenderedKeeps(st, HostStep(l, st, seqno, m));
    }
  }

  lemma LaunchedEnforces(l: Launch)
    ensures Enforces(Launched(l))
  {
  }

  lemma GuestRenders(l: Launch, st: State, m: GuestMessage, now: real)
    requires m.Render? && Enforces(st)
    ensures Enforces(GuestStep(l, st, m, now))
  {
    hide RenderStep, Rate, Fail, Enforces, Unrendered;
    var s := st.(guestTimes := Rate(st.guestTimes, now));
    AlikeUnrendered(st, s);
    UnrenderedKeeps(st, s);
    forall code ensures Enforces(Fail(s, code)) {
      FailUnrendered(s, s, code);
      UnrenderedKeeps(s, Fail(s, code));
    }
    if !st.closed {
      RenderKeeps(l, s, m, now);
    }
  }
}
