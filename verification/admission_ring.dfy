/** The audit ring: how many records a window allocates, and what happens to a ticket's record. */
module AdmissionRing {
  import opened Wire
  import opened Options
  import opened Admission
  import opened AdmissionCap

  // ---------------------------------------------------------------- allocations per window

  predicate Allocates(cfg: Setup, st: State, call: Call, now: int) { Step(cfg, st, call, now).0.ring != st.ring }

  /** How many steps of the run stored a new audit record in the window that starts at `start`. */
  function Allocations(cfg: Setup, events: seq<Event>, start: int): nat {
    if events == [] then 0
    else
      var before, last := events[..|events| - 1], events[|events| - 1];
      Allocations(cfg, before, start)
      + if Allocates(cfg, Run(cfg, before), last.call, last.now) && WindowStart(cfg, AUDIT_EVENTS, last.now) == start
        then 1 else 0
  }

  function AuditKeyOf(cfg: Setup): Key { AuditCharge(cfg).key }
  function AuditSlot(cfg: Setup): nat { AuditCharge(cfg).slot }

  /** A bucket moves on to later windows only, and within a window keeps its key and its saturation mark. */
  ghost predicate Advances(a: map<nat, Bucket>, b: map<nat, Bucket>) {
    forall slot :: slot in a ==> slot in b && Later(a[slot], b[slot])
  }

  predicate Later(a: Bucket, b: Bucket) {
    a.start < b.start || (a.start == b.start && a.key == b.key && (a.saturation.Some? ==> b.saturation.Some?))
  }

  lemma {:induction false} ChargedAdvances(
    cfg: Setup, buckets: map<nat, Bucket>, log: seq<Spend>, normal: seq<Normalized>, evals: seq<Evaluation>, now: int,
    k: nat)
    requires Sound(cfg, buckets, log) && Evaluated(cfg, buckets, normal, evals, now) && k <= |evals|
    requires !AnyDenied(evals)
    ensures Advances(buckets, ChargedAll(buckets, evals[..k], now))
    decreases k
  {
    hide EvaluateBucket, Sound, ChargeOk;
    if k > 0 {
      ChargedAdvances(cfg, buckets, log, normal, evals, now, k - 1);
      EvaluatedBucket(cfg, buckets, log, normal[k - 1], now);
      assert evals[..k][..k - 1] == evals[..k - 1];
    }
  }

  lemma CallAdvances(cfg: Setup, buckets: map<nat, Bucket>, log: seq<Spend>, charges: seq<Charge>, now: int)
    requires Sound(cfg, buckets, log) && Normalize(cfg, charges).Some?
    requires Evaluate(cfg, buckets, Normalize(cfg, charges).value, now).Some?
    requires !AnyDenied(Evaluate(cfg, buckets, Normalize(cfg, charges).value, now).value)
    ensures Advances(buckets, ChargedAll(buckets, Evaluate(cfg, buckets, Normalize(cfg, charges).value, now).value, now))
  {
    hide Sound, Evaluate, Normalize, ChargedAll, EvaluateBucket, Conflict, Advances;
    var normal := Normalize(cfg, charges).value;
    var evals := Evaluate(cfg, buckets, normal, now).value;
    NormalizeWellFormed(cfg, charges);
    NormalNotEmpty(cfg, charges);
    EvaluateIsEvaluated(cfg, buckets, normal, now);
    ConflictDenies(cfg, buckets, normal, now);
    ChargedAdvances(cfg, buckets, log, normal, evals, now, |evals|);
    assert evals[..|evals|] == evals;
  }

  lemma {:induction false} MarkedAdvances(
    cfg: Setup, buckets: map<nat, Bucket>, log: seq<Spend>, normal: seq<Normalized>, evals: seq<Evaluation>,
    event: Identifier, now: int, k: nat)
    requires Sound(cfg, buckets, log) && Evaluated(cfg, buckets, normal, evals, now) && k <= |evals|
    ensures Advances(buckets, MarkedAll(buckets, evals[..k], event, now))
    decreases k
  {
    hide EvaluateBucket, Sound, ChargeOk;
    if k > 0 {
      MarkedAdvances(cfg, buckets, log, normal, evals, event, now, k - 1);
      EvaluatedBucket(cfg, buckets, log, normal[k - 1], now);
      assert evals[..k][..k - 1] == evals[..k - 1];
    }
  }

  lemma CallMarkAdvances(
    cfg: Setup, buckets: map<nat, Bucket>, log: seq<Spend>, charges: seq<Charge>, event: Identifier, now: int)
    requires Sound(cfg, buckets, log) && Normalize(cfg, charges).Some?
    requires Evaluate(cfg, buckets, Normalize(cfg, charges).value, now).Some?
    ensures Advances(buckets, MarkedAll(buckets, Evaluate(cfg, buckets, Normalize(cfg, charges).value, now).value, event, now))
  {
    hide Sound, Evaluate, Normalize, MarkedAll, EvaluateBucket, Conflict;
    var normal := Normalize(cfg, charges).value;
    var evals := Evaluate(cfg, buckets, normal, now).value;
    NormalizeWellFormed(cfg, charges);
    EvaluateIsEvaluated(cfg, buckets, normal, now);
    if Conflict(normal) {
      ConflictMarksNothing(buckets, evals, event, now);
    } else {
      MarkedAdvances(cfg, buckets, log, normal, evals, event, now, |evals|);
      assert evals[..|evals|] == evals;
    }
  }

  lemma ConsumeAdvances(
    cfg: Setup, st: State, log: seq<Spend>, slot: nat, event: Identifier, charges: seq<Charge>, now: int)
    requires Sound(cfg, st.buckets, log)
    ensures Advances(st.buckets, ConsumeStep(cfg, st, slot, event, charges, now).0.buckets)
  {
    hide Sound, Evaluate, Normalize, MarkedAll, ChargedAll, AnyDenied, Live, SizeOk;
    if Normalize(cfg, charges).Some? && Evaluate(cfg, st.buckets, Normalize(cfg, charges).value, now).Some? {
      CallMarkAdvances(cfg, st.buckets, log, charges, event, now);
      if !AnyDenied(Evaluate(cfg, st.buckets, Normalize(cfg, charges).value, now).value) {
        CallAdvances(cfg, st.buckets, log, charges, now);
      }
    }
  }

  lemma AdvancesTransitive(a: map<nat, Bucket>, b: map<nat, Bucket>, c: map<nat, Bucket>)
    requires Advances(a, b) && Advances(b, c)
    ensures Advances(a, c)
  {
  }

  /**
   * A step that allocates a record leaves the bucket of "audit.events" in the current window, and
   * either charged it or set its saturation mark, which was not set before.
   */
  ghost predicate Accounted(cfg: Setup, st: State, after: State, spends: seq<Spend>, now: int) {
    var slot, start := AuditSlot(cfg), WindowStart(cfg, AUDIT_EVENTS, now);
    && slot in after.buckets && after.buckets[slot].key == AuditKeyOf(cfg) && after.buckets[slot].start == start
    && (Spent(spends, AuditKeyOf(cfg), start) >= 1
        || (slot in st.buckets && st.buckets[slot].key == AuditKeyOf(cfg) && st.buckets[slot].start == start
            && st.buckets[slot].saturation == None && after.buckets[slot].saturation.Some?))
  }

  ghost predicate OpenKept(cfg: Setup, st: State, source: bytes, after: State, now: int) {
    && Advances(st.buckets, after.buckets)
    && (after.ring != st.ring ==> Accounted(cfg, st, after, OpenAdmits(cfg, st, source, after, now), now))
  }

  lemma OpenSpending(cfg: Setup, source: bytes, now: int)
    requires BoundedString(source)
    ensures Spent(Spending(cfg, OpenCharges(source), now), AuditKeyOf(cfg), WindowStart(cfg, AUDIT_EVENTS, now)) == 1
    ensures Spent(Spending(cfg, [OpenCharges(source)[0]], now), AuditKeyOf(cfg), WindowStart(cfg, AUDIT_EVENTS, now)) == 1
  {
    hide BoundedString, WindowStart, SlotOf, Spent, Spending;
    var charges, start := OpenCharges(source), WindowStart(cfg, AUDIT_EVENTS, now);
    var normal := [AuditCharge(cfg), SourceCharge(cfg, source)];
    AuditSpending(cfg, source, now);
    SpentOne(SpendOf(cfg, AuditCharge(cfg), now), AuditKeyOf(cfg), start);
    OpenNormal(cfg, source);
    NormalizeSound(cfg, charges, now, AuditKeyOf(cfg), start);
    assert Spends(cfg, normal, now) == [SpendOf(cfg, normal[0], now)] + [SpendOf(cfg, normal[1], now)];
    SpentAppend([SpendOf(cfg, normal[0], now)], [SpendOf(cfg, normal[1], now)], AuditKeyOf(cfg), start);
    SpentOne(SpendOf(cfg, normal[1], now), AuditKeyOf(cfg), start);
  }

  /** Two evaluations, the first of them charged or marked: the document it leaves. */
  lemma FirstDocument(buckets: map<nat, Bucket>, evals: seq<Evaluation>, event: Identifier, now: int)
    requires |evals| == 2 && evals[0].charge.slot != evals[1].charge.slot
    ensures var slot, e := evals[0].charge.slot, evals[0];
      var charged, marked := ChargedAll(buckets, evals, now), MarkedAll(buckets, evals, event, now);
      && slot in charged && charged[slot] == e.bucket.(used := e.bucket.used + e.charge.units, updatedAt := now)
      && (e.denied && e.canMark ==> slot in marked && marked[slot] == e.bucket.(saturation := Some(event), updatedAt := now))
  {
    assert evals[..1] == [evals[0]] && [evals[0]][..0] == [];
    assert ChargedAll(buckets, [], now) == buckets && MarkedAll(buckets, [], event, now) == buckets;
    assert ChargedAll(buckets, evals[..1], now) == Charged(buckets, evals[0], now);
    assert MarkedAll(buckets, evals[..1], event, now) == Marked(buckets, evals[0], event, now);
  }

  lemma OpenAllowedKept(cfg: Setup, st: State, log: seq<Spend>, input: OpenInput, now: int)
    requires Sound(cfg, st.buckets, log) && BoundedString(input.source)
    requires Evaluate(cfg, st.buckets, [AuditCharge(cfg), SourceCharge(cfg, input.source)], now).Some?
    requires !AnyDenied(Evaluate(cfg, st.buckets, [AuditCharge(cfg), SourceCharge(cfg, input.source)], now).value)
    ensures var evals := Evaluate(cfg, st.buckets, [AuditCharge(cfg), SourceCharge(cfg, input.source)], now).value;
      OpenKept(cfg, st, input.source, OpenAllowed(cfg, st, input, evals, now).0, now)
  {
    hide Sound, Evaluate, Normalize, ChargedAll, SizeOk, Spending, AllocateAudit, NextSlot, OpenCharges,
      SourceCharge, Listed, BudgetsOf, BoundedString, Advances, EvaluateBucket, Spent, MarkedAll, SlotOf, WindowStart;
    var evals := Evaluate(cfg, st.buckets, [AuditCharge(cfg), SourceCharge(cfg, input.source)], now).value;
    var after := OpenAllowed(cfg, st, input, evals, now).0;
    SameAdvances(st.buckets);
    if AllocateAudit(cfg, st, now).Allocated? {
      RingMoves(cfg, st, now);
      ListedOpen(input.source);
      OpenNormal(cfg, input.source);
      OpenEvaluated(cfg, st, input.source, now);
      OpenSpending(cfg, input.source, now);
      CallAdvances(cfg, st.buckets, log, OpenCharges(input.source), now);
      EvaluatedBucket(cfg, st.buckets, log, AuditCharge(cfg), now);
      FirstDocument(st.buckets, evals, input.event, now);
    }
  }

  lemma SameAdvances(a: map<nat, Bucket>)
    ensures Advances(a, a)
  {
  }

  lemma OpenDeniedKept(cfg: Setup, st: State, log: seq<Spend>, input: OpenInput, now: int)
    requires Sound(cfg, st.buckets, log) && BoundedString(input.source)
    requires Evaluate(cfg, st.buckets, [AuditCharge(cfg), SourceCharge(cfg, input.source)], now).Some?
    ensures var evals := Evaluate(cfg, st.buckets, [AuditCharge(cfg), SourceCharge(cfg, input.source)], now).value;
      |evals| == 2 && OpenKept(cfg, st, input.source, OpenDenied(cfg, st, input, evals, evals[0], now).0, now)
  {
    hide Sound, Evaluate, Normalize, SizeOk, Spending, AllocateAudit, NextSlot, OpenCharges, MarkedAll, LongestRetry,
      SourceCharge, Listed, BudgetsOf, BoundedString, Advances, EvaluateBucket, Spent, ChargedAll, SlotOf, WindowStart;
    var normal := [AuditCharge(cfg), SourceCharge(cfg, input.source)];
    var evals := Evaluate(cfg, st.buckets, normal, now).value;
    OpenEvaluated(cfg, st, input.source, now);
    OpenNormal(cfg, input.source);
    var marked := MarkedAll(st.buckets, evals, input.event, now);
    CallMarkAdvances(cfg, st.buckets, log, OpenCharges(input.source), input.event, now);
    SameAdvances(st.buckets);
    EvaluatedBucket(cfg, st.buckets, log, AuditCharge(cfg), now);
    FirstDocument(st.buckets, evals, input.event, now);
    ListedOpen(input.source);
    OpenSpending(cfg, input.source, now);
    if AllocateAudit(cfg, st, now).Allocated? {
      RingMoves(cfg, st, now);
    }
    if !evals[0].denied {
      RefusedOpenSound(cfg, st, log, input, now);
      MarkedAllKeeps(cfg, st.buckets, log, normal, evals, input.event, now, 2);
      assert evals[..2] == evals;
      EvaluationLocal(cfg, st.buckets, marked, normal[0], now);
      EvaluatedBucket(cfg, marked, log, normal[0], now);
      ChargedOnce(marked, evals[0], now);
      AdvancesTransitive(st.buckets, marked, Charged(marked, evals[0], now));
    }
  }

  lemma ChargedOnce(buckets: map<nat, Bucket>, e: Evaluation, now: int)
    requires e.charge.slot in buckets ==> buckets[e.charge.slot].start < e.bucket.start || buckets[e.charge.slot] == e.bucket
    ensures Advances(buckets, Charged(buckets, e, now))
  {
  }

  lemma OpenKeeps(cfg: Setup, st: State, log: seq<Spend>, input: OpenInput, now: int)
    requires Sound(cfg, st.buckets, log)
    ensures OpenKept(cfg, st, input.source, OpenStep(cfg, st, input, now).0, now)
  {
    hide Sound, Evaluate, Normalize, AnyDenied, OpenCharges, AuditCharge, SourceCharge, FindAudit, OpenAllowed, OpenDenied,
      BoundedString, OpenAdmits, Accounted, Advances;
    OpenNormal(cfg, input.source);
    SameAdvances(st.buckets);
    var normal := [AuditCharge(cfg), SourceCharge(cfg, input.source)];
    if BoundedString(input.source) && Evaluate(cfg, st.buckets, normal, now).Some? {
      OpenEvaluated(cfg, st, input.source, now);
      if AnyDenied(Evaluate(cfg, st.buckets, normal, now).value) {
        OpenDeniedKept(cfg, st, log, input, now);
      } else {
        OpenAllowedKept(cfg, st, log, input, now);
      }
    }
  }

  lemma {:induction false} SpendingPositive(cfg: Setup, charges: seq<Charge>, now: int, key: Key, start: int)
    ensures Spent(Spending(cfg, charges, now), key, start) >= 0
  {
    hide WindowStart, KeyOf;
    if charges != [] {
      var n := |charges| - 1;
      SpendingPositive(cfg, charges[..n], now, key, start);
      match ChargeKey(cfg, charges[n]) {
        case None =>
          assert Spending(cfg, charges[..n], now) + [] == Spending(cfg, charges[..n], now);
        case Some(charged) =>
          var s := Spend(charged, WindowStart(cfg, charged.budget, now), charges[n].units);
          SpentAppend(Spending(cfg, charges[..n], now), [s], key, start);
          SpentOne(s, key, start);
      }
    }
  }

  lemma StepKeeps(cfg: Setup, st: State, log: seq<Spend>, call: Call, now: int)
    requires Sound(cfg, st.buckets, log)
    ensures var after := Step(cfg, st, call, now).0;
      && Advances(st.buckets, after.buckets)
      && (after.ring != st.ring ==> Accounted(cfg, st, after, Admits(cfg, st, call, now), now))
    ensures forall key, start :: Spent(Admits(cfg, st, call, now), key, start) >= 0
  {
    hide Sound, OpenStep, Advances, Accounted, Spent, Spending, Listed;
    forall key, start ensures Spent(Admits(cfg, st, call, now), key, start) >= 0 {
      SpentNothing(key, start);
      match call
      case Open(input) =>
        var after := OpenStep(cfg, st, input, now).0;
        if after.ring != st.ring && RingSlot(st) in after.records {
          SpendingPositive(cfg, Listed(OpenCharges(input.source), after.records[RingSlot(st)].consumed), now, key, start);
        }
      case Consume(_, _, charges) => SpendingPositive(cfg, charges, now, key, start);
      case Finish(_, _, _, _, _) =>
    }
    match call
    case Open(input) => OpenKeeps(cfg, st, log, input, now);
    case Consume(slot, event, charges) => ConsumeAdvances(cfg, st, log, slot, event, charges, now);
    case Finish(_, _, _, _, _) => SameAdvances(st.buckets);
  }

  lemma SpentNothing(key: Key, start: int)
    ensures Spent([], key, start) == 0
  {
  }

  // ---------------------------------------------------------------- the bound

  /** Allocations in a window are the units charged for them, and one more once the window is saturated. */
  ghost predicate Bounded(cfg: Setup, events: seq<Event>, start: int) {
    var b, key, slot := Run(cfg, events).buckets, AuditKeyOf(cfg), AuditSlot(cfg);
    var stored, spent := Allocations(cfg, events, start), Spent(Log(cfg, events), key, start);
    stored != 0 ==>
      && stored <= spent + 1
      && Known(cfg, b, key, start)
      && (b[slot].start == start && b[slot].saturation == None ==> stored <= spent)
  }

  lemma {:induction false} RunBounded(cfg: Setup, events: seq<Event>, start: int)
    ensures Bounded(cfg, events, start)
  {
    hide Sound, Step, Spent, Run, Log, WindowStart, SlotOf, Admits, KeyOf;
    if events != [] {
      var before, last := events[..|events| - 1], events[|events| - 1];
      RunBounded(cfg, before, start);
      RunSound(cfg, before);
      CapHolds(cfg, before, AuditKeyOf(cfg), start);
      StepKeeps(cfg, Run(cfg, before), Log(cfg, before), last.call, last.now);
      LastStep(cfg, events);
      SpentAppend(Log(cfg, before), Admits(cfg, Run(cfg, before), last.call, last.now), AuditKeyOf(cfg), start);
    }
  }

  lemma LastStep(cfg: Setup, events: seq<Event>)
    requires events != []
    ensures var before, last := events[..|events| - 1], events[|events| - 1];
      && Run(cfg, events) == Step(cfg, Run(cfg, before), last.call, last.now).0
      && Log(cfg, events) == Log(cfg, before) + Admits(cfg, Run(cfg, before), last.call, last.now)
  {
    hide Step, Admits;
  }

  /** Every window of "audit.events" stores at most its maximum plus one record, over every run. */
  lemma AuditAllocationCap(cfg: Setup, events: seq<Event>, start: int)
    ensures Allocations(cfg, events, start) <= LimitOf(cfg, AUDIT_EVENTS).maximum + 1
  {
    hide Run, Log, Spent, SlotOf;
    RunBounded(cfg, events, start);
    CapHolds(cfg, events, AuditKeyOf(cfg), start);
  }
}
