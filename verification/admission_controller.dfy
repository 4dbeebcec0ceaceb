/** The admission controller and its tickets, as objects that transactions update. */
module AdmissionControllers {
  import opened Wire
  import opened Options
  import opened Admission

  class AdmissionController {
    const cfg: Setup
    var buckets: map<nat, Bucket>
    var records: map<nat, Record>
    var ring: Option<nat>

    function Snapshot(): State
      reads this
    {
      State(buckets, records, ring)
    }

    constructor (cfg: Setup)
      ensures this.cfg == cfg && Snapshot() == EMPTY
    {
      this.cfg := cfg;
      buckets, records, ring := map[], map[], None;
    }

    method NormalizeCharges(charges: seq<Charge>) returns (r: Option<seq<Normalized>>)
      ensures r == Normalize(cfg, charges)
    {
      hide AddCharge;
      if |charges| == 0 || |charges| > BUDGETS {
        return None;
      }
      var consolidated: seq<Normalized> := [];
      for i := 0 to |charges|
        invariant AddCharges(cfg, [], charges) == AddCharges(cfg, consolidated, charges[i..])
      {
        assert charges[i..][1..] == charges[i + 1..];
        var next := Consolidate(consolidated, charges[i]);
        if next == None {
          return None;
        }
        consolidated := next.value;
      }
      r := Some(consolidated);
    }

    method Consolidate(acc: seq<Normalized>, c: Charge) returns (r: Option<seq<Normalized>>)
      ensures r == AddCharge(cfg, acc, c)
    {
      hide SlotOf, BoundedString;
      if c.budget >= BUDGETS || c.units < 1 || c.units > LimitOf(cfg, c.budget).maximum || !BoundedString(c.subject) {
        return None;
      }
      var key := KeyOf(cfg, c.budget, c.subject, c.keyKind);
      var i := 0;
      while i < |acc| && acc[i].key != key
        invariant i <= |acc| && forall j :: 0 <= j < i ==> acc[j].key != key
      {
        i := i + 1;
      }
      var total := (if i < |acc| then acc[i].units else 0) + c.units;
      if total > MAX_SAFE || total > LimitOf(cfg, c.budget).maximum {
        return None;
      }
      r := Some(if i < |acc| then acc[i := acc[i].(units := total)] else acc + [Normalized(key, total, SlotOf(cfg, key))]);
    }

    /** Whether two charges for different subjects meet in one document. */
    method FindConflict(charges: seq<Normalized>) returns (conflict: bool)
      ensures conflict <==> Conflict(charges)
    {
      var byDocument: map<nat, Normalized> := map[];
      for i := 0 to |charges|
        invariant !Conflict(charges[..i])
        invariant forall slot :: slot in byDocument <==> exists j :: 0 <= j < i && charges[j].slot == slot
        invariant forall j :: 0 <= j < i ==> byDocument[charges[j].slot].key == charges[j].key
      {
        var c := charges[i];
        if c.slot in byDocument && byDocument[c.slot].key != c.key {
          return true;
        }
        byDocument := byDocument[c.slot := c];
      }
      assert charges[..|charges|] == charges;
      conflict := false;
    }

    /** Charges that survive the conflict check have a document each. */
    method EvaluateCharges(charges: seq<Normalized>, now: int) returns (r: Option<seq<Evaluation>>)
      ensures r == Evaluate(cfg, buckets, charges, now)
    {
      hide EvaluateBucket, Conflict;
      var conflict := FindConflict(charges);
      if conflict {
        return Some(DeniedAll(cfg, charges, now));
      }
      var evals: seq<Evaluation> := [];
      for i := 0 to |charges|
        invariant EvaluateEach(cfg, buckets, charges[..i], now) == Some(evals)
      {
        assert charges[..i + 1][..i] == charges[..i];
        var e := EvaluateBucket(cfg, buckets, charges[i], now);
        if e == None {
          StaysBroken(cfg, buckets, charges, now, i + 1);
          return None;
        }
        evals := evals + [e.value];
      }
      assert charges[..|charges|] == charges;
      r := Some(evals);
    }

    /** The denied charges decide the wait and mark the documents they saturated. */
    method MarkSaturation(evals: seq<Evaluation>, event: Identifier, now: int)
      returns (marked: map<nat, Bucket>, denied: bool, retry: int)
      ensures marked == MarkedAll(buckets, evals, event, now)
      ensures denied == AnyDenied(evals) && retry == LongestRetry(evals)
    {
      marked, denied, retry := buckets, false, 0;
      for i := 0 to |evals|
        invariant marked == MarkedAll(buckets, evals[..i], event, now)
        invariant denied <==> exists j :: 0 <= j < i && evals[j].denied
        invariant retry == LongestRetry(evals[..i])
      {
        assert evals[..i + 1][..i] == evals[..i];
        var e := evals[i];
        if e.denied {
          denied := true;
          if e.retry > retry {
            retry := e.retry;
          }
          if e.canMark {
            marked := marked[e.charge.slot := e.bucket.(saturation := Some(event), updatedAt := now)];
          }
        }
      }
      assert evals[..|evals|] == evals;
    }

    method WriteAllowed(evals: seq<Evaluation>, now: int) returns (charged: map<nat, Bucket>, consumed: set<Budget>)
      ensures charged == ChargedAll(buckets, evals, now) && consumed == BudgetsOf(evals)
    {
      charged, consumed := buckets, {};
      for i := 0 to |evals|
        invariant charged == ChargedAll(buckets, evals[..i], now)
        invariant consumed == set j | 0 <= j < i :: evals[j].charge.key.budget
      {
        assert evals[..i + 1][..i] == evals[..i];
        charged := charged[evals[i].charge.slot :=
          evals[i].bucket.(used := evals[i].bucket.used + evals[i].charge.units, updatedAt := now)];
        consumed := consumed + {evals[i].charge.key.budget};
      }
      assert evals[..|evals|] == evals;
    }

    method Open(input: OpenInput, now: int) returns (reply: Reply)
      modifies this
      ensures (Snapshot(), reply) == OpenStep(cfg, old(Snapshot()), input, now)
    {
      hide Normalize, Evaluate, MarkedAll, ChargedAll, AnyDenied, LongestRetry, AllocateAudit, NextSlot, SizeOk, BudgetsOf,
        FindAudit, NewRecord;
      var charges := NormalizeCharges(OpenCharges(input.source));
      if charges == None {
        return Misuse;
      }
      var evaluated := EvaluateCharges(charges.value, now);
      if evaluated == None || FindAudit(evaluated.value) == None {
        return Unavailable;
      }
      var evals, audit := evaluated.value, FindAudit(evaluated.value).value;
      var marked, denied, retry := MarkSaturation(evals, input.event, now);
      if denied && audit.denied && !audit.canMark {
        buckets := marked;
        return RateLimited(retry);
      }
      var allocation := AllocateAudit(cfg, Snapshot(), now);
      if allocation.RingBusy? {
        return RateLimited(cfg.profile.maximumRetryAfter);
      }
      if allocation.RingBroken? {
        return Unavailable;
      }
      var charged, budgets := WriteAllowed(evals, now);
      var record, next;
      if denied {
        record := NewRecord(cfg, input, Denied, Some("rate_limited"), if audit.denied then {} else {AUDIT_EVENTS}, now);
        next := if audit.denied then marked else Charged(marked, audit, now);
        reply := RateLimited(retry);
      } else {
        record := NewRecord(cfg, input, Pending, None, budgets, now);
        next := charged;
        reply := Ticket(allocation.slot);
      }
      if !SizeOk(cfg, record) {
        return Unavailable;
      }
      buckets, records, ring := next, records[allocation.slot := record], Some(NextSlot(cfg, allocation.slot));
    }

    method Consume(slot: nat, event: Identifier, charges: seq<Charge>, now: int) returns (reply: Reply)
      modifies this
      ensures (Snapshot(), reply) == ConsumeStep(cfg, old(Snapshot()), slot, event, charges, now)
    {
      hide Normalize, Evaluate, MarkedAll, ChargedAll, AnyDenied, LongestRetry, SizeOk, BudgetsOf, Live;
      var normal := NormalizeCharges(charges);
      if normal == None {
        return Misuse;
      }
      var evaluated := EvaluateCharges(normal.value, now);
      if evaluated == None || !Live(Snapshot(), slot, event) {
        return Unavailable;
      }
      var marked, denied, retry := MarkSaturation(evaluated.value, event, now);
      if denied {
        buckets := marked;
        return RateLimited(retry);
      }
      var charged, budgets := WriteAllowed(evaluated.value, now);
      LiveStored(Snapshot(), slot, event);
      var next := records[slot].(consumed := records[slot].consumed + budgets, updatedAt := now);
      if !SizeOk(cfg, next) {
        return Unavailable;
      }
      buckets, records := charged, records[slot := next];
      reply := Admitted;
    }

    method Finish(
      slot: nat, event: Identifier, outcome: Status, code: Option<string>, context: Context, now: int)
      returns (reply: Reply)
      modifies this`records
      ensures (Snapshot(), reply) == FinishStep(cfg, old(Snapshot()), slot, event, outcome, code, context, now)
    {
      if outcome == Pending || (outcome == Ok) != (code == None) {
        return Misuse;
      }
      if slot !in records || !RecordOk(records[slot]) || records[slot].event != event {
        return Unavailable;
      }
      var data := records[slot];
      if data.status != Pending {
        return if data.status == outcome && data.code == code then Finished else Unavailable;
      }
      var next := FinishedRecord(cfg, data, outcome, code, context, now);
      if !SizeOk(cfg, next) {
        return Unavailable;
      }
      records := records[slot := next];
      reply := Finished;
    }
  }

  lemma LiveStored(st: State, slot: nat, event: Identifier)
    requires Live(st, slot, event)
    ensures slot in st.records
  {
  }

  lemma {:induction false} StaysBroken(cfg: Setup, buckets: map<nat, Bucket>, charges: seq<Normalized>, now: int, k: nat)
    requires k <= |charges| && EvaluateEach(cfg, buckets, charges[..k], now) == None
    ensures EvaluateEach(cfg, buckets, charges, now) == None
    decreases |charges| - k
  {
    hide EvaluateBucket;
    if k < |charges| {
      assert charges[..k + 1][..k] == charges[..k];
      StaysBroken(cfg, buckets, charges, now, k + 1);
    } else {
      assert charges[..k] == charges;
    }
  }

  class AdmissionTicket {
    const controller: AdmissionController
    const slot: nat
    const event: Identifier
    const source: bytes
    var finished: bool
    var actorKind: ActorKind
    var actor: Option<bytes>
    var home: Option<Identifier>
    var subject: Option<bytes>

    constructor (controller: AdmissionController, slot: nat, event: Identifier, source: bytes)
      ensures this.controller == controller && this.slot == slot && this.event == event && this.source == source
      ensures !finished && Identity() == Context(Anonymous, None, None, None)
    {
      this.controller, this.slot, this.event, this.source := controller, slot, event, source;
      finished, actorKind, actor, home, subject := false, Anonymous, None, None, None;
    }

    function Identity(): Context
      reads this
    {
      Context(actorKind, actor, home, subject)
    }

    /** The kind is stored before the identifier is checked, so a refused identifier still changes the kind. */
    method IdentifyActor(kind: ActorKind, identifier: bytes) returns (ok: bool)
      requires kind != Anonymous
      modifies this`actorKind, this`actor
      ensures ok <==> !finished && BoundedString(identifier)
      ensures Identity() == if finished then old(Identity())
                            else old(Identity()).(actorKind := kind, actor := if ok then Some(identifier) else old(actor))
    {
      if finished {
        return false;
      }
      actorKind := kind;
      if !BoundedString(identifier) {
        return false;
      }
      actor := Some(identifier);
      ok := true;
    }

    method IdentifyHome(id: Identifier) returns (ok: bool)
      modifies this`home
      ensures ok <==> !finished && HomeId(id)
      ensures Identity() == if ok then old(Identity()).(home := Some(id)) else old(Identity())
    {
      if finished || !HomeId(id) {
        return false;
      }
      home := Some(id);
      ok := true;
    }

    method IdentifySubject(identifier: bytes) returns (ok: bool)
      modifies this`subject
      ensures ok <==> !finished && BoundedString(identifier)
      ensures Identity() == if ok then old(Identity()).(subject := Some(identifier)) else old(Identity())
    {
      if finished || !BoundedString(identifier) {
        return false;
      }
      subject := Some(identifier);
      ok := true;
    }

    /** Charges for named subjects, then one unit of each source budget for the ticket's own source. */
    function AllCharges(charges: seq<Charge>, sourceBudgets: seq<Budget>): (all: seq<Charge>)
      ensures |all| == |charges| + |sourceBudgets| && all[..|charges|] == charges
      ensures forall i :: |charges| <= i < |all| ==> all[i] == Charge(sourceBudgets[i - |charges|], source, 1, NetworkKey)
    {
      charges + seq(|sourceBudgets|, i requires 0 <= i < |sourceBudgets| => Charge(sourceBudgets[i], source, 1, NetworkKey))
    }

    method Consume(charges: seq<Charge>, sourceBudgets: seq<Budget>, now: int) returns (reply: Reply)
      modifies controller
      ensures finished ==> reply == Misuse && controller.Snapshot() == old(controller.Snapshot())
      ensures !finished ==> (controller.Snapshot(), reply) == ConsumeStep(
        controller.cfg, old(controller.Snapshot()), slot, event, AllCharges(charges, sourceBudgets), now)
    {
      hide ConsumeStep;
      if finished {
        return Misuse;
      }
      reply := controller.Consume(slot, event, AllCharges(charges, sourceBudgets), now);
    }

    /** A ticket is spent once its record was finished, and only then. */
    method Finish(outcome: Status, code: Option<string>, now: int) returns (reply: Reply)
      modifies this`finished, controller`records
      ensures old(finished) ==> reply == Misuse && finished && controller.Snapshot() == old(controller.Snapshot())
      ensures !old(finished) ==>
        && (controller.Snapshot(), reply)
           == FinishStep(controller.cfg, old(controller.Snapshot()), slot, event, outcome, code, Identity(), now)
        && finished == (reply == Finished)
    {
      if finished {
        return Misuse;
      }
      reply := controller.Finish(slot, event, outcome, code, Identity(), now);
      finished := reply == Finished;
    }
  }
}
