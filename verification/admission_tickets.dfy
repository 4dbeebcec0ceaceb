/** What a ticket can rely on: its audit record while it is unfinished and unexpired. */
module AdmissionTickets {
  import opened Options
  import opened Admission
  import opened AdmissionCap

  /** A ticket handed to a caller, with the time its record may be overwritten from. */
  datatype Issued = Issued(slot: nat, event: Identifier, expires: int)

  /** The tickets issued and not yet finished. */
  function Tickets(cfg: Setup, events: seq<Event>): set<Issued> {
    if events == [] then {}
    else
      var before, last := events[..|events| - 1], events[|events| - 1];
      var held := Tickets(cfg, before);
      var reply := Step(cfg, Run(cfg, before), last.call, last.now).1;
      match last.call
      case Open(input) =>
        if reply.Ticket? then held + {Issued(reply.slot, input.event, last.now + cfg.profile.auditRetention)} else held
      case Consume(_, _, _) => held
      case Finish(slot, event, _, _, _) =>
        if reply.Finished? then set t | t in held && (t.slot != slot || t.event != event) else held
  }

  predicate Monotone(events: seq<Event>) {
    forall i, j :: 0 <= i < j < |events| ==> events[i].now <= events[j].now
  }

  /** The ticket's record is pending under its own event ID. */
  predicate Held(st: State, t: Issued, now: int) {
    && Live(st, t.slot, t.event)
    && st.records[t.slot].expiresAt == t.expires && st.records[t.slot].createdAt <= now
  }

  predicate Finishes(cfg: Setup, st: State, t: Issued, call: Call, now: int) {
    call.Finish? && call.slot == t.slot && call.event == t.event && Step(cfg, st, call, now).1.Finished?
  }

  lemma OpenWrites(cfg: Setup, st: State, input: OpenInput, now: int)
    ensures var after, reply := OpenStep(cfg, st, input, now).0, OpenStep(cfg, st, input, now).1;
      && (after.records == st.records
          || (&& AllocateAudit(cfg, st, now).Allocated?
              && var slot := AllocateAudit(cfg, st, now).slot;
              && slot in after.records && after.records == st.records[slot := after.records[slot]]
              && after.records[slot].event == input.event
              && after.records[slot].createdAt == after.records[slot].updatedAt == now
              && after.records[slot].expiresAt == now + cfg.profile.auditRetention
              && RecordOk(after.records[slot])))
      && (reply.Ticket? ==>
          && AllocateAudit(cfg, st, now) == Allocated(reply.slot)
          && reply.slot in after.records && after.records[reply.slot].status == Pending
          && RecordOk(after.records[reply.slot])
          && after.records[reply.slot].event == input.event
          && after.records[reply.slot].createdAt == after.records[reply.slot].updatedAt == now
          && after.records[reply.slot].expiresAt == now + cfg.profile.auditRetention)
  {
    hide Normalize, Evaluate, FindAudit, AnyDenied, MarkedAll, ChargedAll, Charged, LongestRetry, SizeOk, AllocateAudit,
      NextSlot, BudgetsOf;
  }

  /** No step of anyone overwrites the record of an unexpired ticket, or changes its event, until the ticket is finished. */
  lemma StepHolds(cfg: Setup, st: State, t: Issued, call: Call, now: int)
    requires Held(st, t, now) && now < t.expires
    ensures Held(Step(cfg, st, call, now).0, t, now) || Finishes(cfg, st, t, call, now)
  {
    hide Normalize, Evaluate, AnyDenied, MarkedAll, ChargedAll, LongestRetry, SizeOk, BudgetsOf, OpenStep;
    if call.Open? {
      OpenWrites(cfg, st, call.input, now);
    }
  }

  lemma {:induction false} RecordHeld(cfg: Setup, events: seq<Event>, t: Issued)
    requires Monotone(events) && t in Tickets(cfg, events)
    ensures events != []
    ensures events[|events| - 1].now < t.expires ==> Held(Run(cfg, events), t, events[|events| - 1].now)
  {
    hide Step, Held;
    if events == [] {
      assert false;
    } else {
      var before, last := events[..|events| - 1], events[|events| - 1];
      var st := Run(cfg, before);
      if t in Tickets(cfg, before) {
        RecordHeld(cfg, before, t);
        assert before[|before| - 1] == events[|events| - 2];
        if last.now < t.expires {
          HeldLater(st, t, before[|before| - 1].now, last.now);
          StepHolds(cfg, st, t, last.call, last.now);
        }
      } else {
        Opened(cfg, st, last.call, last.now);
      }
    }
  }

  lemma HeldLater(st: State, t: Issued, earlier: int, now: int)
    requires Held(st, t, earlier) && earlier <= now
    ensures Held(st, t, now)
  {
  }

  lemma Opened(cfg: Setup, st: State, call: Call, now: int)
    ensures call.Open? && Step(cfg, st, call, now).1.Ticket? ==>
      Held(Step(cfg, st, call, now).0, Issued(Step(cfg, st, call, now).1.slot, call.input.event, now + cfg.profile.auditRetention), now)
  {
    hide OpenStep, AllocateAudit;
    if call.Open? {
      OpenWrites(cfg, st, call.input, now);
    }
  }

  /**
   * With clocks that never run backwards, an unfinished and unexpired ticket always finds its record:
   * finishing it takes effect unless the finished record would be too long.
   */
  lemma FinishTakesEffect(
    cfg: Setup, events: seq<Event>, t: Issued, outcome: Status, code: Option<string>, context: Context, now: int)
    requires Monotone(events) && t in Tickets(cfg, events)
    requires events[|events| - 1].now <= now < t.expires
    requires outcome != Pending && (outcome == Ok <==> code == None)
    ensures var st := Run(cfg, events);
      var step := FinishStep(cfg, st, t.slot, t.event, outcome, code, context, now);
      var after, reply := step.0, step.1;
      && Live(st, t.slot, t.event)
      && var next := FinishedRecord(cfg, st.records[t.slot], outcome, code, context, now);
      if SizeOk(cfg, next)
      then reply == Finished && after == st.(records := st.records[t.slot := next])
      else reply == Unavailable && after == st
  {
    hide Run, Tickets, SizeOk;
    RecordHeld(cfg, events, t);
  }

  // ---------------------------------------------------------------- late calls

  predicate Consistent(context: Context) { context.actorKind == Anonymous <==> context.actor == None }

  /** The clock reads a time within the record's life. */
  predicate InLife(r: Record, now: int) { r.createdAt <= now < r.expiresAt }

  /**
   * A finished record still passes its own checks exactly when it was finished within the record's
   * life, with an actor kind that matches whether an actor was identified.
   */
  lemma FinishKeepsRecord(
    cfg: Setup, st: State, slot: nat, event: Identifier, outcome: Status, code: Option<string>, context: Context, now: int)
    requires Live(st, slot, event) && outcome != Pending && (outcome == Ok <==> code == None)
    requires SizeOk(cfg, FinishedRecord(cfg, st.records[slot], outcome, code, context, now))
    ensures var step := FinishStep(cfg, st, slot, event, outcome, code, context, now);
      var after, reply := step.0, step.1;
      && reply == Finished && after.records.Keys == st.records.Keys
      && (RecordOk(after.records[slot]) <==> InLife(st.records[slot], now) && Consistent(context))
  {
  }

  /** The record an admitted call leaves passes its own checks exactly when the call came within the record's life. */
  lemma ConsumeKeepsRecord(cfg: Setup, st: State, slot: nat, event: Identifier, charges: seq<Charge>, now: int)
    requires ConsumeStep(cfg, st, slot, event, charges, now).1 == Admitted
    ensures var after := ConsumeStep(cfg, st, slot, event, charges, now).0;
      && Live(st, slot, event) && slot in after.records
      && after.records == st.records[slot := after.records[slot]]
      && (RecordOk(after.records[slot]) <==> InLife(st.records[slot], now))
  {
    hide Normalize, Evaluate, AnyDenied, ChargedAll, SizeOk, BudgetsOf;
  }

  predicate Spoiled(st: State, slot: nat) { slot in st.records && !RecordOk(st.records[slot]) }

  /** A record that no longer satisfies its own checks is never written again, and the ring cannot pass it. */
  lemma SpoiledStays(cfg: Setup, st: State, slot: nat, call: Call, now: int)
    requires Spoiled(st, slot)
    ensures Spoiled(Step(cfg, st, call, now).0, slot)
    ensures RingSlot(st) == slot ==> Step(cfg, st, call, now).0.ring == st.ring && !Step(cfg, st, call, now).1.Ticket?
  {
    hide Normalize, Evaluate, FindAudit, AnyDenied, MarkedAll, ChargedAll, Charged, LongestRetry, SizeOk, BudgetsOf;
    if call.Open? {
      OpenWrites(cfg, st, call.input, now);
    }
  }

  lemma {:induction false} SpoiledForever(cfg: Setup, events: seq<Event>, more: seq<Event>, slot: nat)
    requires Spoiled(Run(cfg, events), slot)
    ensures Spoiled(Run(cfg, events + more), slot)
    ensures RingSlot(Run(cfg, events)) == slot ==> Run(cfg, events + more).ring == Run(cfg, events).ring
    decreases |more|
  {
    hide Step, Spoiled;
    if more == [] {
      assert events + more == events;
    } else {
      var last := more[|more| - 1];
      SpoiledForever(cfg, events, more[..|more| - 1], slot);
      assert (events + more)[..|events + more| - 1] == events + more[..|more| - 1];
      SpoiledStays(cfg, Run(cfg, events + more[..|more| - 1]), slot, last.call, last.now);
    }
  }

  /** On such a record no call of its ticket is admitted any more, and none finishes it. */
  lemma SpoiledRefuses(
    cfg: Setup, st: State, slot: nat, event: Identifier, charges: seq<Charge>, outcome: Status, code: Option<string>,
    context: Context, now: int)
    requires Spoiled(st, slot)
    ensures ConsumeStep(cfg, st, slot, event, charges, now).1 != Admitted
    ensures outcome != Pending && (outcome == Ok <==> code == None) ==>
      FinishStep(cfg, st, slot, event, outcome, code, context, now) == (st, Unavailable)
  {
    hide Normalize, Evaluate, AnyDenied, MarkedAll, ChargedAll, LongestRetry, SizeOk, BudgetsOf;
  }

  ghost predicate NoneSpoiled(st: State) { forall slot :: !Spoiled(st, slot) }

  /**
   * What a call has to observe to leave its record in order: if it is admitted, or is the one that
   * finishes the record, it comes within the record's life, and a finish names its actor consistently.
   */
  predicate Orderly(cfg: Setup, st: State, call: Call, now: int) {
    match call
    case Open(_) => true
    case Consume(slot, event, _) =>
      Live(st, slot, event) && Step(cfg, st, call, now).1 == Admitted ==> InLife(st.records[slot], now)
    case Finish(slot, event, _, _, context) =>
      Live(st, slot, event) && Step(cfg, st, call, now).1 == Finished ==> InLife(st.records[slot], now) && Consistent(context)
  }

  /** A record that differs after a finish was live, and the finish took effect. */
  lemma FinishElsewhere(
    cfg: Setup, st: State, slot: nat, event: Identifier, outcome: Status, code: Option<string>, context: Context, now: int)
    ensures var after, reply :=
        FinishStep(cfg, st, slot, event, outcome, code, context, now).0, FinishStep(cfg, st, slot, event, outcome, code, context, now).1;
      if Live(st, slot, event) && reply == Finished
      then slot in after.records && after.records == st.records[slot := after.records[slot]]
        && (RecordOk(after.records[slot]) <==> InLife(st.records[slot], now) && Consistent(context))
      else after == st
  {
    hide SizeOk;
  }

  lemma ConsumeElsewhere(cfg: Setup, st: State, slot: nat, event: Identifier, charges: seq<Charge>, now: int)
    ensures var after, reply :=
        ConsumeStep(cfg, st, slot, event, charges, now).0, ConsumeStep(cfg, st, slot, event, charges, now).1;
      if reply == Admitted then Live(st, slot, event) else after.records == st.records
  {
    hide Normalize, Evaluate, AnyDenied, MarkedAll, ChargedAll, LongestRetry, SizeOk, BudgetsOf;
  }

  lemma StepSpoils(cfg: Setup, st: State, call: Call, now: int)
    ensures NoneSpoiled(Step(cfg, st, call, now).0) <==> NoneSpoiled(st) && Orderly(cfg, st, call, now)
  {
    hide OpenStep, ConsumeStep, FinishStep, Live, InLife, Consistent, Spoiled, AllocateAudit;
    var after := Step(cfg, st, call, now).0;
    forall slot | Spoiled(st, slot) ensures Spoiled(after, slot) { SpoiledStays(cfg, st, slot, call, now); }
    if call.Open? {
      OpenWrites(cfg, st, call.input, now);
      OneRecord(st, after, AllocateAudit(cfg, st, now));
    } else if call.Consume? {
      ConsumeElsewhere(cfg, st, call.slot, call.event, call.charges, now);
      if Step(cfg, st, call, now).1 == Admitted {
        ConsumeKeepsRecord(cfg, st, call.slot, call.event, call.charges, now);
        Rewritten(st, after, call.slot);
      } else {
        SameRecords(st, after);
      }
    } else {
      FinishElsewhere(cfg, st, call.slot, call.event, call.outcome, call.code, call.context, now);
      if Live(st, call.slot, call.event) && Step(cfg, st, call, now).1 == Finished {
        Rewritten(st, after, call.slot);
      }
    }
  }

  lemma SameRecords(st: State, after: State)
    requires after.records == st.records
    ensures NoneSpoiled(after) <==> NoneSpoiled(st)
  {
    assert forall slot :: Spoiled(after, slot) <==> Spoiled(st, slot);
  }

  lemma Rewritten(st: State, after: State, slot: nat)
    requires slot in after.records && after.records == st.records[slot := after.records[slot]]
    requires forall s :: Spoiled(st, s) ==> Spoiled(after, s)
    ensures NoneSpoiled(after) <==> NoneSpoiled(st) && RecordOk(after.records[slot])
  {
    hide RecordOk;
    assert forall s :: s != slot ==> (Spoiled(after, s) <==> Spoiled(st, s));
    assert RecordOk(after.records[slot]) <==> !Spoiled(after, slot);
  }

  lemma OneRecord(st: State, after: State, a: Allocation)
    requires after.records == st.records
      || (a.Allocated? && a.slot in after.records && after.records == st.records[a.slot := after.records[a.slot]]
          && RecordOk(after.records[a.slot]))
    requires forall s :: Spoiled(st, s) ==> Spoiled(after, s)
    ensures NoneSpoiled(after) <==> NoneSpoiled(st)
  {
    if after.records == st.records {
      SameRecords(st, after);
    } else {
      Rewritten(st, after, a.slot);
    }
  }

  /** The `k`-th call of a run was orderly. */
  predicate OrderlyAt(cfg: Setup, events: seq<Event>, k: nat)
    requires k < |events|
  {
    Orderly(cfg, Run(cfg, events[..k]), events[k].call, events[k].now)
  }

  lemma OrderlyPrefix(cfg: Setup, events: seq<Event>, k: nat)
    requires k < |events| - 1
    ensures OrderlyAt(cfg, events[..|events| - 1], k) == OrderlyAt(cfg, events, k)
  {
    hide Orderly, Run;
    assert events[..|events| - 1][..k] == events[..k];
  }

  /**
   * No audit record is ever spoiled in a run if and only if every admitted call and every finish that
   * takes effect comes within its record's life, and the finish names its actor consistently.
   */
  lemma {:induction false} RecordsStayValid(cfg: Setup, events: seq<Event>)
    ensures NoneSpoiled(Run(cfg, events)) <==> forall k: nat :: k < |events| ==> OrderlyAt(cfg, events, k)
  {
    hide Step, Orderly, NoneSpoiled;
    if events == [] {
      EmptyUnspoiled();
    } else {
      var n := |events| - 1;
      RecordsStayValid(cfg, events[..n]);
      StepSpoils(cfg, Run(cfg, events[..n]), events[n].call, events[n].now);
      assert Run(cfg, events) == Step(cfg, Run(cfg, events[..n]), events[n].call, events[n].now).0;
      assert OrderlyAt(cfg, events, n) == Orderly(cfg, Run(cfg, events[..n]), events[n].call, events[n].now);
      hide Run, OrderlyAt;
      forall k: nat | k < n ensures OrderlyAt(cfg, events[..n], k) == OrderlyAt(cfg, events, k) {
        OrderlyPrefix(cfg, events, k);
      }
    }
  }

  lemma EmptyUnspoiled()
    ensures NoneSpoiled(EMPTY)
  {
  }

  /** Such a record is reachable: a ticket opened at time 0 and finished only when its record has expired. */
  lemma LateFinishSpoils(cfg: Setup, input: OpenInput, context: Context)
    requires BoundedString(input.source) && forall r :: SizeOk(cfg, r)
    ensures var late := cfg.profile.auditRetention;
      Spoiled(Run(cfg, [Event(Open(input), 0), Event(Finish(0, input.event, Ok, None, context), late)]), 0)
  {
    hide Step, SizeOk, SlotOf, BoundedString;
    var late := cfg.profile.auditRetention;
    var first := Event(Open(input), 0);
    var finished := Event(Finish(0, input.event, Ok, None, context), late);
    var both := [first, finished];
    assert both[..1] == [first] && [first][..0] == [];
    var st := Step(cfg, EMPTY, first.call, 0).0;
    assert Run(cfg, []) == EMPTY;
    assert Run(cfg, [first]) == st;
    FirstOpen(cfg, input);
    assert Run(cfg, both) == Step(cfg, st, finished.call, late).0;
    FinishingFirst(cfg, st, input, context);
  }

  lemma NoConflict(cfg: Setup, input: OpenInput)
    requires BoundedString(input.source)
    ensures !Conflict([AuditCharge(cfg), SourceCharge(cfg, input.source)])
  {
    OpenNormal(cfg, input.source);
  }

  lemma FirstOpen(cfg: Setup, input: OpenInput)
    requires BoundedString(input.source) && forall r :: SizeOk(cfg, r)
    ensures var st, reply := Step(cfg, EMPTY, Open(input), 0).0, Step(cfg, EMPTY, Open(input), 0).1; reply == Ticket(0)
    ensures Held(Step(cfg, EMPTY, Open(input), 0).0, Issued(0, input.event, cfg.profile.auditRetention), 0)
  {
    hide SizeOk, SlotOf, BoundedString, Normalize, ChargedAll, Fresh, EvaluateEach, Conflict;
    OpenNormal(cfg, input.source);
    var a, s := AuditCharge(cfg), SourceCharge(cfg, input.source);
    NoConflict(cfg, input);
    assert EvaluateEach(cfg, map[], [a, s], 0)
        == Some([Evaluation(a, Fresh(cfg, a, 0), false, 1, false), Evaluation(s, Fresh(cfg, s, 0), false, 1, false)]) by {
      TwoFresh(cfg, a, s);
    }
  }

  lemma TwoFresh(cfg: Setup, a: Normalized, s: Normalized)
    ensures EvaluateEach(cfg, map[], [a, s], 0)
         == Some([Evaluation(a, Fresh(cfg, a, 0), false, 1, false), Evaluation(s, Fresh(cfg, s, 0), false, 1, false)])
  {
    var x, y := Evaluation(a, Fresh(cfg, a, 0), false, 1, false), Evaluation(s, Fresh(cfg, s, 0), false, 1, false);
    assert [a, s][..1] == [a] && [a][..0] == [] && [] + [x] == [x] && [x] + [y] == [x, y];
    assert EvaluateEach(cfg, map[], [], 0) == Some([]);
    assert EvaluateEach(cfg, map[], [a], 0) == Some([Evaluation(a, Fresh(cfg, a, 0), false, 1, false)]);
  }

  lemma FinishingFirst(cfg: Setup, st: State, input: OpenInput, context: Context)
    requires Held(st, Issued(0, input.event, cfg.profile.auditRetention), 0) && forall r :: SizeOk(cfg, r)
    ensures Spoiled(Step(cfg, st, Finish(0, input.event, Ok, None, context), cfg.profile.auditRetention).0, 0)
  {
    FinishKeepsRecord(cfg, st, 0, input.event, Ok, None, context, cfg.profile.auditRetention);
  }

  /** The charge of the third budget, which nothing has counted against yet. */
  function LateCharge(input: OpenInput): seq<Charge> { [Charge(2, input.source, 1, NetworkKey)] }

  /** No late finish is needed: a call admitted only when the record has expired spoils it too. */
  lemma LateConsumeSpoils(cfg: Setup, input: OpenInput)
    requires BoundedString(input.source) && forall r :: SizeOk(cfg, r)
    ensures var late := cfg.profile.auditRetention;
      Spoiled(Run(cfg, [Event(Open(input), 0), Event(Consume(0, input.event, LateCharge(input)), late)]), 0)
  {
    hide Step, SizeOk, SlotOf, BoundedString, LateCharge;
    var late := cfg.profile.auditRetention;
    var first := Event(Open(input), 0);
    var consumed := Event(Consume(0, input.event, LateCharge(input)), late);
    assert [first, consumed][..1] == [first] && [first][..0] == [];
    var st := Step(cfg, EMPTY, first.call, 0).0;
    assert Run(cfg, []) == EMPTY;
    assert Run(cfg, [first]) == st;
    FirstOpen(cfg, input);
    assert Run(cfg, [first, consumed]) == Step(cfg, st, consumed.call, late).0;
    OpenLeavesBudgets(cfg, input);
    LateConsumed(cfg, st, input);
  }

  /** The first open writes documents of its own two budgets only. */
  lemma OpenLeavesBudgets(cfg: Setup, input: OpenInput)
    requires BoundedString(input.source)
    ensures forall key: Key :: key.budget == 2 ==> SlotOf(cfg, key) !in Step(cfg, EMPTY, Open(input), 0).0.buckets
  {
    hide SizeOk, SlotOf, BoundedString, Normalize, EvaluateEach, Conflict, Fresh;
    OpenNormal(cfg, input.source);
    var a, s := AuditCharge(cfg), SourceCharge(cfg, input.source);
    NoConflict(cfg, input);
    TwoFresh(cfg, a, s);
    TwoCharged(Evaluation(a, Fresh(cfg, a, 0), false, 1, false), Evaluation(s, Fresh(cfg, s, 0), false, 1, false));
    forall key: Key | key.budget == 2 ensures SlotOf(cfg, key) != a.slot && SlotOf(cfg, key) != s.slot {
      if SlotOf(cfg, key) == a.slot { SlotsPartitioned(cfg, key, a.key); }
      if SlotOf(cfg, key) == s.slot { SlotsPartitioned(cfg, key, s.key); }
    }
  }

  lemma TwoCharged(x: Evaluation, y: Evaluation)
    ensures ChargedAll(map[], [x, y], 0).Keys == {x.charge.slot, y.charge.slot}
    ensures !AnyDenied([x, y]) <==> !x.denied && !y.denied
  {
    assert [x, y][..1] == [x] && [x][..0] == [];
    assert ChargedAll(map[], [x], 0).Keys == {x.charge.slot};
    assert [x, y][0] == x && [x, y][1] == y;
  }

  lemma LateConsumed(cfg: Setup, st: State, input: OpenInput)
    requires Held(st, Issued(0, input.event, cfg.profile.auditRetention), 0)
    requires BoundedString(input.source) && forall r :: SizeOk(cfg, r)
    requires forall key: Key :: key.budget == 2 ==> SlotOf(cfg, key) !in st.buckets
    ensures Spoiled(Step(cfg, st, Consume(0, input.event, LateCharge(input)), cfg.profile.auditRetention).0, 0)
  {
    hide SlotOf, BoundedString, Fresh;
    var late := cfg.profile.auditRetention;
    var charges := LateCharge(input);
    var key := KeyOf(cfg, 2, input.source, NetworkKey);
    var c := Normalized(key, 1, SlotOf(cfg, key));
    assert LimitOk(cfg.profile, cfg.profile.limits[2]);
    assert AddCharge(cfg, [], charges[0]) == Some([] + [c]) && [] + [c] == [c];
    assert AddCharges(cfg, [c], charges[1..]) == Some([c]);
    assert Normalize(cfg, charges) == Some([c]);
    assert [c][..0] == [];
    var e := Evaluation(c, Fresh(cfg, c, late), false, 1, false);
    assert EvaluateEach(cfg, st.buckets, [], late) == Some([]) && [] + [e] == [e];
    assert EvaluateEach(cfg, st.buckets, [c], late) == Some([e]);
    assert ConsumeStep(cfg, st, 0, input.event, charges, late).1 == Admitted;
    ConsumeKeepsRecord(cfg, st, 0, input.event, charges, late);
  }
}
