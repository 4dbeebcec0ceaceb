/** What each admission call writes and answers, field by field. */
module AdmissionEffects {
  import opened Wire
  import opened Options
  import opened Admission
  import opened AdmissionCap
  import opened AdmissionTickets

  // ---------------------------------------------------------------- finish

  /** The first half of a keyed digest, as records keep it. */
  function Short(cfg: Setup, kind: KeyKind, domain: Domain, subject: bytes): bytes {
    cfg.hmac(kind, domain, subject)[..16]
  }

  /** A record that says how a call ended and for whom, and otherwise what it said before. */
  predicate SaysFinished(
    cfg: Setup, before: Record, after: Record, outcome: Status, code: Option<string>, context: Context, now: int)
  {
    && after.status == outcome && after.code == code && after.home == context.home
    && after.actorKind == context.actorKind && after.updatedAt == now
    && (context.actor.Some? ==> after.actor == Some(Short(cfg, AuditKey, ActorDomain(context.actorKind), context.actor.value)))
    && (context.actor == None ==> after.actor == None)
    && (context.subject.Some? ==> after.subject == Some(Short(cfg, AuditKey, SubjectDomain, context.subject.value)))
    && (context.subject == None ==> after.subject == None)
    && after.event == before.event && after.request == before.request && after.operation == before.operation
    && after.network == before.network && after.consumed == before.consumed
    && after.createdAt == before.createdAt && after.expiresAt == before.expiresAt
  }

  /** Nothing but the record of one slot differs. */
  predicate OnlyRecord(a: State, b: State, slot: nat) {
    && b.buckets == a.buckets && b.ring == a.ring && b.records.Keys == a.records.Keys + {slot}
    && forall s :: s in a.records && s != slot ==> b.records[s] == a.records[s]
  }

  /** A finish of a pending record that takes effect stores exactly what it was told, and touches nothing else. */
  lemma FinishWrites(
    cfg: Setup, st: State, slot: nat, event: Identifier, outcome: Status, code: Option<string>, context: Context, now: int)
    requires Live(st, slot, event)
    requires FinishStep(cfg, st, slot, event, outcome, code, context, now).1 == Finished
    ensures var after := FinishStep(cfg, st, slot, event, outcome, code, context, now).0;
      OnlyRecord(st, after, slot) && SaysFinished(cfg, st.records[slot], after.records[slot], outcome, code, context, now)
  {
    hide SizeOk;
  }

  /** The same finish again, at any time, is answered as done and changes nothing, as long as the record passes its checks. */
  lemma FinishRepeats(
    cfg: Setup, st: State, slot: nat, event: Identifier, outcome: Status, code: Option<string>, context: Context, now: int,
    again: int)
    requires Live(st, slot, event)
    requires FinishStep(cfg, st, slot, event, outcome, code, context, now).1 == Finished
    ensures var after := FinishStep(cfg, st, slot, event, outcome, code, context, now).0;
      RecordOk(after.records[slot]) ==>
        FinishStep(cfg, after, slot, event, outcome, code, context, again) == (after, Finished)
  {
    hide SizeOk;
  }

  /**
   * Every answer a finish gives. Outcome and code must fit together; the record must be this ticket's
   * and in order; a record already finished answers only to the same outcome and code.
   */
  lemma FinishAnswers(
    cfg: Setup, st: State, slot: nat, event: Identifier, outcome: Status, code: Option<string>, context: Context, now: int)
    ensures var step := FinishStep(cfg, st, slot, event, outcome, code, context, now);
      var after, reply := step.0, step.1;
      var told := outcome != Pending && (outcome == Ok <==> code == None);
      var owned := slot in st.records && RecordOk(st.records[slot]) && st.records[slot].event == event;
      && (reply == Misuse <==> !told)
      && (reply == Finished || reply == Unavailable || reply == Misuse)
      && (told && !owned ==> reply == Unavailable)
      && (told && owned && st.records[slot].status != Pending ==>
            (reply == Finished <==> st.records[slot].status == outcome && st.records[slot].code == code))
      && (reply != Finished || (owned && st.records[slot].status != Pending) ==> after == st)
      && (told && Live(st, slot, event) ==>
            (reply == Unavailable <==>
               forall r: Record :: SaysFinished(cfg, st.records[slot], r, outcome, code, context, now) ==> !SizeOk(cfg, r)))
  {
    hide SizeOk;
    if Live(st, slot, event) {
      var next := FinishedRecord(cfg, st.records[slot], outcome, code, context, now);
      assert SaysFinished(cfg, st.records[slot], next, outcome, code, context, now);
      forall r: Record | SaysFinished(cfg, st.records[slot], r, outcome, code, context, now) ensures r == next {
      }
    }
  }

  // ---------------------------------------------------------------- open

  /** The record a call opens with. */
  predicate SaysOpened(cfg: Setup, r: Record, input: OpenInput, admitted: bool, consumed: set<Budget>, now: int) {
    && r.event == input.event && r.request == input.request && r.operation == input.operation
    && r.status == (if admitted then Pending else Denied)
    && r.code == (if admitted then None else Some("rate_limited"))
    && r.home == None && r.actorKind == Anonymous && r.actor == None && r.subject == None
    && r.network == Short(cfg, NetworkKey, SourceDomain, input.source)
    && r.consumed == consumed && r.createdAt == now && r.updatedAt == now
    && r.expiresAt == now + cfg.profile.auditRetention
  }

  /** A slot may be taken when it was never used, or when its record is in order and either finished or expired. */
  lemma SlotTaken(cfg: Setup, st: State, now: int)
    ensures var slot := RingSlot(st);
      AllocateAudit(cfg, st, now) == Allocated(slot) <==>
        slot < cfg.profile.auditSlots
        && (slot in st.records ==>
              RecordOk(st.records[slot]) && (st.records[slot].status != Pending || st.records[slot].expiresAt <= now))
    ensures AllocateAudit(cfg, st, now).Allocated? ==> AllocateAudit(cfg, st, now).slot == RingSlot(st)
    ensures AllocateAudit(cfg, st, now) == RingBusy <==>
      RingSlot(st) < cfg.profile.auditSlots && RingSlot(st) in st.records && RecordOk(st.records[RingSlot(st)])
      && st.records[RingSlot(st)].status == Pending && now < st.records[RingSlot(st)].expiresAt
  {
  }

  /**
   * A ticket's record is the one at the head of the ring, written in full; a refused call that is
   * recorded says so, with what it consumed; and the head moves on by one. Without a new record the
   * records and the ring are as they were.
   */
  lemma OpenRecorded(cfg: Setup, st: State, input: OpenInput, now: int)
    ensures var step := OpenStep(cfg, st, input, now);
      var after, reply := step.0, step.1;
      var slot := RingSlot(st);
      && (reply.Ticket? ==>
            && reply.slot == slot && slot in after.records && after.ring != st.ring
            && SaysOpened(cfg, after.records[slot], input, true, {AUDIT_EVENTS, SOURCE_OPERATIONS}, now))
      && (after.ring != st.ring ==>
            && AllocateAudit(cfg, st, now) == Allocated(slot)
            && after.ring == Some((slot + 1) % cfg.profile.auditSlots)
            && after.records.Keys == st.records.Keys + {slot}
            && (forall s :: s in st.records && s != slot ==> after.records[s] == st.records[s])
            && (!reply.Ticket? ==>
                  && reply.RateLimited?
                  && (SaysOpened(cfg, after.records[slot], input, false, {AUDIT_EVENTS}, now)
                      || SaysOpened(cfg, after.records[slot], input, false, {}, now))))
      && (after.ring == st.ring ==> after.records == st.records)
  {
    hide SizeOk, MarkedAll, ChargedAll, Charged, Evaluate, Normalize, AnyDenied, LongestRetry;
    OpenNormal(cfg, input.source);
    if BoundedString(input.source) && Evaluate(cfg, st.buckets, [AuditCharge(cfg), SourceCharge(cfg, input.source)], now).Some? {
      OpenEvaluated(cfg, st, input.source, now);
      if AllocateAudit(cfg, st, now).Allocated? {
        RingMoves(cfg, st, now);
      }
    }
  }

  // ---------------------------------------------------------------- charges

  /** The units one call asks of one key. */
  function Asked(cfg: Setup, charges: seq<Charge>, key: Key): int {
    if charges == [] then 0
    else (if ChargeKey(cfg, charges[0]) == Some(key) then charges[0].units else 0) + Asked(cfg, charges[1..], key)
  }

  function HeldFor(acc: seq<Normalized>, key: Key): int {
    if IndexOf(acc, key) < |acc| then acc[IndexOf(acc, key)].units else 0
  }

  lemma HeldAt(cfg: Setup, acc: seq<Normalized>, i: nat)
    requires WellFormed(cfg, acc) && i < |acc|
    ensures HeldFor(acc, acc[i].key) == acc[i].units
  {
  }

  lemma HeldWithin(cfg: Setup, acc: seq<Normalized>, key: Key)
    requires WellFormed(cfg, acc)
    ensures 0 <= HeldFor(acc, key) <= LimitOf(cfg, key.budget).maximum
  {
    assert LimitOk(cfg.profile, cfg.profile.limits[key.budget]);
    if IndexOf(acc, key) < |acc| {
      assert ChargeOk(cfg, acc[IndexOf(acc, key)]);
    }
  }

  lemma OneMoreCharge(cfg: Setup, acc: seq<Normalized>, c: Charge, key: Key)
    requires WellFormed(cfg, acc)
    ensures var k := ChargeKey(cfg, c);
      AddCharge(cfg, acc, c) == None <==> k == None || HeldFor(acc, k.value) + c.units > LimitOf(cfg, k.value.budget).maximum
    ensures AddCharge(cfg, acc, c).Some? ==>
      var next := AddCharge(cfg, acc, c).value;
      && WellFormed(cfg, next)
      && HeldFor(next, key) == HeldFor(acc, key) + if ChargeKey(cfg, c) == Some(key) then c.units else 0
  {
    hide BoundedString, SlotOf, KeyOf;
    var charged := ChargeKey(cfg, c);
    if charged.Some? {
      var k := charged.value;
      assert LimitOk(cfg.profile, cfg.profile.limits[k.budget]);
      HeldWithin(cfg, acc, k);
      var i := IndexOf(acc, k);
      if AddCharge(cfg, acc, c).Some? {
        var next := AddCharge(cfg, acc, c).value;
        assert next[i].key == k && forall j :: 0 <= j < |next| && j != i ==> next[j] == acc[j];
        var j := IndexOf(next, key);
        if j < |next| {
          HeldAt(cfg, next, j);
        }
      }
    }
  }

  lemma {:induction false} AskedPositive(cfg: Setup, charges: seq<Charge>, key: Key)
    ensures Asked(cfg, charges, key) >= 0
  {
    if charges != [] {
      AskedPositive(cfg, charges[1..], key);
    }
  }

  /** Consolidation refuses exactly a bad charge or a key asked for more than its maximum, and otherwise adds up. */
  lemma {:induction false} AddChargesExactly(cfg: Setup, acc: seq<Normalized>, charges: seq<Charge>)
    requires WellFormed(cfg, acc)
    ensures AddCharges(cfg, acc, charges).Some? <==>
      && (forall i :: 0 <= i < |charges| ==> ChargeKey(cfg, charges[i]).Some?)
      && (forall key: Key :: HeldFor(acc, key) + Asked(cfg, charges, key) <= LimitOf(cfg, key.budget).maximum)
    ensures AddCharges(cfg, acc, charges).Some? ==>
      && WellFormed(cfg, AddCharges(cfg, acc, charges).value)
      && forall key: Key :: HeldFor(AddCharges(cfg, acc, charges).value, key) == HeldFor(acc, key) + Asked(cfg, charges, key)
    decreases |charges|
  {
    hide WellFormed, AddCharge, ChargeKey, HeldFor, LimitOf;
    if charges == [] {
      forall key: Key ensures HeldFor(acc, key) <= LimitOf(cfg, key.budget).maximum { HeldWithin(cfg, acc, key); }
    } else {
      var c, rest := charges[0], charges[1..];
      forall key: Key
        ensures AddCharge(cfg, acc, c).Some? ==>
          WellFormed(cfg, AddCharge(cfg, acc, c).value)
          && HeldFor(AddCharge(cfg, acc, c).value, key) == HeldFor(acc, key) + if ChargeKey(cfg, c) == Some(key) then c.units else 0
      {
        OneMoreCharge(cfg, acc, c, key);
      }
      if ChargeKey(cfg, c).Some? {
        var k := ChargeKey(cfg, c).value;
        OneMoreCharge(cfg, acc, c, k);
        AskedPositive(cfg, rest, k);
        assert Asked(cfg, charges, k) == c.units + Asked(cfg, rest, k);
      } else {
        OneMoreCharge(cfg, acc, c, KeyOf(cfg, AUDIT_EVENTS, GLOBAL, AuditKey));
      }
      if AddCharge(cfg, acc, c).Some? {
        AddChargesExactly(cfg, AddCharge(cfg, acc, c).value, rest);
        assert forall i :: 0 < i < |charges| ==> charges[i] == rest[i - 1];
      }
    }
  }

  /**
   * A call's charges are accepted for evaluation exactly when there are between one and 29 of them,
   * each is for a known budget, a positive number of units and a bounded subject, and no key is asked
   * for more than its budget's maximum in all; and then each key is charged once, in full.
   */
  lemma NormalizeExactly(cfg: Setup, charges: seq<Charge>)
    ensures Normalize(cfg, charges).Some? <==>
      && 1 <= |charges| <= BUDGETS
      && (forall i :: 0 <= i < |charges| ==>
            && charges[i].budget < BUDGETS && 1 <= charges[i].units <= LimitOf(cfg, charges[i].budget).maximum
            && BoundedString(charges[i].subject))
      && (forall key: Key :: Asked(cfg, charges, key) <= LimitOf(cfg, key.budget).maximum)
    ensures Normalize(cfg, charges).Some? ==>
      var normal := Normalize(cfg, charges).value;
      && (forall i, j :: 0 <= i < j < |normal| ==> normal[i].key != normal[j].key)
      && (forall i :: 0 <= i < |normal| ==> normal[i].units == Asked(cfg, charges, normal[i].key) && normal[i].units >= 1)
      && (forall key: Key :: Asked(cfg, charges, key) > 0 ==> exists i :: 0 <= i < |normal| && normal[i].key == key)
  {
    hide BoundedString, KeyOf, SlotOf;
    AddChargesExactly(cfg, [], charges);
    forall key: Key ensures HeldFor([], key) == 0 {
    }
    if Normalize(cfg, charges).Some? {
      var normal := Normalize(cfg, charges).value;
      forall i | 0 <= i < |normal| ensures normal[i].units == Asked(cfg, charges, normal[i].key) && normal[i].units >= 1 {
        HeldAt(cfg, normal, i);
        assert ChargeOk(cfg, normal[i]);
      }
      forall key: Key | Asked(cfg, charges, key) > 0 ensures exists i :: 0 <= i < |normal| && normal[i].key == key {
        assert HeldFor(normal, key) > 0;
        assert normal[IndexOf(normal, key)].key == key;
      }
    }
  }

  // ---------------------------------------------------------------- consume

  function BudgetsAsked(charges: seq<Charge>): set<nat> { set i | 0 <= i < |charges| :: charges[i].budget }

  function BudgetsIn(normal: seq<Normalized>): set<nat> { set i | 0 <= i < |normal| :: normal[i].key.budget }

  lemma {:induction false} ChargedBudgets(cfg: Setup, acc: seq<Normalized>, charges: seq<Charge>)
    requires AddCharges(cfg, acc, charges).Some?
    ensures BudgetsIn(AddCharges(cfg, acc, charges).value) == BudgetsIn(acc) + BudgetsAsked(charges)
    decreases |charges|
  {
    if charges != [] {
      var next := AddCharge(cfg, acc, charges[0]).value;
      BudgetAdded(cfg, acc, charges[0]);
      hide AddCharge, BudgetsIn;
      ChargedBudgets(cfg, next, charges[1..]);
      assert charges == [charges[0]] + charges[1..];
      assert BudgetsAsked(charges) == {charges[0].budget} + BudgetsAsked(charges[1..]) by {
        forall i | 0 < i < |charges| ensures charges[i].budget in BudgetsAsked(charges[1..]) {
          assert charges[1..][i - 1] == charges[i];
        }
      }
    }
  }

  lemma BudgetAdded(cfg: Setup, acc: seq<Normalized>, c: Charge)
    requires AddCharge(cfg, acc, c).Some?
    ensures BudgetsIn(AddCharge(cfg, acc, c).value) == BudgetsIn(acc) + {c.budget}
  {
    hide BoundedString, SlotOf;
    var k, next := ChargeKey(cfg, c).value, AddCharge(cfg, acc, c).value;
    assert next[IndexOf(acc, k)].key.budget == c.budget;
    forall i | 0 <= i < |acc| ensures acc[i].key.budget in BudgetsIn(next) {
      assert next[i].key == acc[i].key;
    }
    forall i | 0 <= i < |next| ensures next[i].key.budget in BudgetsIn(acc) + {c.budget} {
      assert i < |acc| ==> next[i].key == acc[i].key;
    }
  }

  /** An admitted call adds the budgets it charged to its record and stamps it, and changes nothing else in any record. */
  lemma ConsumeWrites(cfg: Setup, st: State, slot: nat, event: Identifier, charges: seq<Charge>, now: int)
    requires ConsumeStep(cfg, st, slot, event, charges, now).1 == Admitted
    ensures var after := ConsumeStep(cfg, st, slot, event, charges, now).0;
      && Live(st, slot, event) && after.ring == st.ring && after.records.Keys == st.records.Keys
      && (forall s :: s in st.records && s != slot ==> after.records[s] == st.records[s])
      && after.records[slot].consumed == st.records[slot].consumed + BudgetsAsked(charges)
      && after.records[slot].updatedAt == now
      && after.records[slot].(consumed := st.records[slot].consumed, updatedAt := st.records[slot].updatedAt) == st.records[slot]
  {
    hide Normalize, Evaluate, AnyDenied, ChargedAll, SizeOk;
    NormalizeWellFormed(cfg, charges);
    NormalNotEmpty(cfg, charges);
    NormalBudgets(cfg, charges);
    var normal := Normalize(cfg, charges).value;
    EvaluateIsEvaluated(cfg, st.buckets, normal, now);
    ConflictDenies(cfg, st.buckets, normal, now);
    EvaluatedBudgets(Evaluate(cfg, st.buckets, normal, now).value, normal);
  }

  lemma EvaluatedBudgets(evals: seq<Evaluation>, normal: seq<Normalized>)
    requires |evals| == |normal| && forall i :: 0 <= i < |normal| ==> evals[i].charge == normal[i]
    ensures BudgetsOf(evals) == BudgetsIn(normal)
  {
    forall i | 0 <= i < |normal| ensures normal[i].key.budget in BudgetsOf(evals) {
      assert evals[i].charge.key.budget == normal[i].key.budget;
    }
  }

  lemma NormalBudgets(cfg: Setup, charges: seq<Charge>)
    requires Normalize(cfg, charges).Some?
    ensures BudgetsIn(Normalize(cfg, charges).value) == BudgetsAsked(charges)
  {
    ChargedBudgets(cfg, [], charges);
  }

  /** A bucket as it was, or marked once as saturated by this event. */
  predicate MarkedBy(before: Bucket, after: Bucket, event: Identifier, now: int) {
    after == before || (before.saturation == None && after == before.(saturation := Some(event), updatedAt := now))
  }

  lemma MarkableBucket(cfg: Setup, buckets: map<nat, Bucket>, c: Normalized, now: int)
    requires EvaluateBucket(cfg, buckets, c, now).Some?
    ensures var e := EvaluateBucket(cfg, buckets, c, now).value;
      e.denied && e.canMark ==> c.slot in buckets && e.bucket == buckets[c.slot] && e.bucket.saturation == None
    ensures var e := EvaluateBucket(cfg, buckets, c, now).value;
      e.denied && c.slot in buckets && buckets[c.slot].key == c.key && buckets[c.slot].saturation == None ==> e.canMark
  {
  }

  lemma {:induction false} MarksOnly(
    cfg: Setup, buckets: map<nat, Bucket>, normal: seq<Normalized>, evals: seq<Evaluation>, event: Identifier, now: int, k: nat)
    requires Evaluated(cfg, buckets, normal, evals, now) && k <= |evals|
    ensures var after := MarkedAll(buckets, evals[..k], event, now);
      && after.Keys == buckets.Keys
      && (forall slot :: slot in buckets ==> MarkedBy(buckets[slot], after[slot], event, now))
      && (forall slot :: slot in buckets && (forall i :: 0 <= i < k ==> normal[i].slot != slot) ==> after[slot] == buckets[slot])
      && (forall i :: 0 <= i < k && evals[i].denied && evals[i].canMark ==>
            normal[i].slot in after && after[normal[i].slot].saturation == Some(event))
    decreases k
  {
    hide EvaluateBucket, ChargeOk;
    if k > 0 {
      var n := k - 1;
      assert evals[..k][..n] == evals[..n] && evals[..k][n] == evals[n];
      MarksOnly(cfg, buckets, normal, evals, event, now, n);
      MarkableBucket(cfg, buckets, normal[n], now);
    }
  }

  predicate FirstDenied(cfg: Setup, buckets: map<nat, Bucket>, c: Normalized, now: int) {
    DeniedAt(cfg, buckets, c, now) && buckets[c.slot].key == c.key && buckets[c.slot].saturation == None
  }

  /**
   * A rate-limited call changes no record and no bucket, except that each bucket of its own key that
   * denied it for the first time is marked with the call's event.
   */
  lemma ConsumeMarks(cfg: Setup, st: State, slot: nat, event: Identifier, charges: seq<Charge>, now: int)
    requires ConsumeStep(cfg, st, slot, event, charges, now).1.RateLimited? && Normalize(cfg, charges).Some?
    ensures var after, normal := ConsumeStep(cfg, st, slot, event, charges, now).0, Normalize(cfg, charges).value;
      && after.records == st.records && after.ring == st.ring && after.buckets.Keys == st.buckets.Keys
      && (forall s :: s in st.buckets ==> MarkedBy(st.buckets[s], after.buckets[s], event, now))
      && (Conflict(normal) ==> after == st)
      && (!Conflict(normal) ==>
            forall i :: 0 <= i < |normal| && FirstDenied(cfg, st.buckets, normal[i], now) ==>
              after.buckets[normal[i].slot].saturation == Some(event))
  {
    hide Normalize, EvaluateBucket, ChargedAll, MarkedAll, SizeOk, LongestRetry;
    NormalizeWellFormed(cfg, charges);
    var normal := Normalize(cfg, charges).value;
    EvaluateIsEvaluated(cfg, st.buckets, normal, now);
    var evals := Evaluate(cfg, st.buckets, normal, now).value;
    if Conflict(normal) {
      ConflictMarksNothing(st.buckets, evals, event, now);
    } else {
      MarksOnly(cfg, st.buckets, normal, evals, event, now, |evals|);
      assert evals[..|evals|] == evals;
      forall i | 0 <= i < |normal| && FirstDenied(cfg, st.buckets, normal[i], now)
        ensures evals[i].denied && evals[i].canMark
      {
        MarkableBucket(cfg, st.buckets, normal[i], now);
      }
    }
  }

  // ---------------------------------------------------------------- how long to wait

  /** The least whole number of seconds that reaches the boundary, but at least one and at most the maximum. */
  lemma RetryIsLeast(now: int, boundary: int, maximum: int)
    requires maximum >= 1
    ensures var r := RetryAfter(now, boundary, maximum);
      && 1 <= r <= maximum
      && (r < maximum ==> boundary <= now + 1_000 * r)
      && (r > 1 ==> now + 1_000 * (r - 1) < boundary)
  {
  }

  /** The answer's wait is the longest that a denied charge asks for. */
  lemma {:induction false} LongestIsMaximum(evals: seq<Evaluation>)
    ensures forall i :: 0 <= i < |evals| && evals[i].denied ==> evals[i].retry <= LongestRetry(evals)
    ensures LongestRetry(evals) >= 0
    ensures LongestRetry(evals) > 0 ==> exists i :: 0 <= i < |evals| && evals[i].denied && evals[i].retry == LongestRetry(evals)
  {
    if evals != [] {
      var n := |evals| - 1;
      LongestIsMaximum(evals[..n]);
      if LongestRetry(evals[..n]) > 0 {
        var i :| 0 <= i < n && evals[..n][i].denied && evals[..n][i].retry == LongestRetry(evals[..n]);
        assert evals[i] == evals[..n][i];
      }
      forall i | 0 <= i < |evals| && evals[i].denied ensures evals[i].retry <= LongestRetry(evals) {
        if i < n {
          assert evals[..n][i] == evals[i];
        }
      }
    }
  }

  /** What one denied charge asks to wait for: the end of the bucket that denied it. */
  lemma DeniedRetry(cfg: Setup, buckets: map<nat, Bucket>, c: Normalized, now: int)
    requires EvaluateBucket(cfg, buckets, c, now).Some? && EvaluateBucket(cfg, buckets, c, now).value.denied
    ensures c.slot in buckets && now < buckets[c.slot].end
    ensures EvaluateBucket(cfg, buckets, c, now).value.retry == RetryAfter(now, buckets[c.slot].end, cfg.profile.maximumRetryAfter)
  {
  }

  /**
   * After the wait a rate-limited call is told, if that is less than the longest the profile tells,
   * every bucket that denied it has ended; and one second less would be too early for one of them.
   */
  lemma WaitSuffices(cfg: Setup, st: State, slot: nat, event: Identifier, charges: seq<Charge>, now: int)
    requires ConsumeStep(cfg, st, slot, event, charges, now).1.RateLimited?
    requires Normalize(cfg, charges).Some?
    ensures var wait, normal := ConsumeStep(cfg, st, slot, event, charges, now).1.retry, Normalize(cfg, charges).value;
      && 1 <= wait <= cfg.profile.maximumRetryAfter
      && (Conflict(normal) ==> wait == cfg.profile.maximumRetryAfter)
      && (!Conflict(normal) && wait < cfg.profile.maximumRetryAfter ==>
            forall i :: 0 <= i < |normal| && DeniedAt(cfg, st.buckets, normal[i], now) ==>
              st.buckets[normal[i].slot].end <= now + 1_000 * wait)
      && (!Conflict(normal) && wait > 1 ==>
            exists i :: 0 <= i < |normal| && DeniedAt(cfg, st.buckets, normal[i], now)
              && now + 1_000 * (wait - 1) < st.buckets[normal[i].slot].end)
  {
    hide Normalize, EvaluateBucket, MarkedAll, ChargedAll, SizeOk, RetryAfter, LongestRetry;
    NormalizeWellFormed(cfg, charges);
    NormalNotEmpty(cfg, charges);
    var normal := Normalize(cfg, charges).value;
    EvaluateIsEvaluated(cfg, st.buckets, normal, now);
    var evals := Evaluate(cfg, st.buckets, normal, now).value;
    LongestIsMaximum(evals);
    if Conflict(normal) {
      assert evals[0].denied && evals[0].retry == cfg.profile.maximumRetryAfter;
    } else {
      forall i | 0 <= i < |normal| && evals[i].denied
        ensures DeniedAt(cfg, st.buckets, normal[i], now)
        ensures evals[i].retry == RetryAfter(now, st.buckets[normal[i].slot].end, cfg.profile.maximumRetryAfter)
      {
        DeniedRetry(cfg, st.buckets, normal[i], now);
      }
      forall i | 0 <= i < |normal|
        ensures DeniedAt(cfg, st.buckets, normal[i], now) <==> evals[i].denied
        ensures normal[i].slot in st.buckets ==>
          var r := RetryAfter(now, st.buckets[normal[i].slot].end, cfg.profile.maximumRetryAfter);
          && 1 <= r <= cfg.profile.maximumRetryAfter
          && (r < cfg.profile.maximumRetryAfter ==> st.buckets[normal[i].slot].end <= now + 1_000 * r)
          && (r > 1 ==> now + 1_000 * (r - 1) < st.buckets[normal[i].slot].end)
      {
        if normal[i].slot in st.buckets {
          RetryIsLeast(now, st.buckets[normal[i].slot].end, cfg.profile.maximumRetryAfter);
        }
        if evals[i].denied {
          DeniedRetry(cfg, st.buckets, normal[i], now);
        }
      }
    }
  }

  /** This charge alone is denied by the bucket stored for it. */
  predicate DeniedAt(cfg: Setup, buckets: map<nat, Bucket>, c: Normalized, now: int) {
    c.slot in buckets && EvaluateBucket(cfg, buckets, c, now).Some? && EvaluateBucket(cfg, buckets, c, now).value.denied
  }
}
