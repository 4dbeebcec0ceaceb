/** What the buckets guarantee over every interleaving of calls, whatever clocks those calls sampled. */
module AdmissionCap {
  import opened Wire
  import opened Options
  import opened Admission

  // ---------------------------------------------------------------- what was admitted

  /** Units admitted for one key in the window that starts at `start`. */
  datatype Spend = Spend(key: Key, start: int, units: int)

  function Spent(log: seq<Spend>, key: Key, start: int): int {
    if log == [] then 0
    else
      var last := log[|log| - 1];
      Spent(log[..|log| - 1], key, start) + (if last.key == key && last.start == start then last.units else 0)
  }

  lemma {:induction false} SpentAppend(a: seq<Spend>, b: seq<Spend>, key: Key, start: int)
    ensures Spent(a + b, key, start) == Spent(a, key, start) + Spent(b, key, start)
  {
    if b == [] {
      assert a + b == a;
    } else {
      SpentAppend(a, b[..|b| - 1], key, start);
      assert (a + b)[..|a + b| - 1] == a + b[..|b| - 1];
    }
  }

  lemma SpentOne(s: Spend, key: Key, start: int)
    ensures Spent([s], key, start) == if s.key == key && s.start == start then s.units else 0
  {
    assert [s][..0] == [];
    assert Spent([], key, start) == 0;
  }

  /** The charges as their caller wrote them, before any are merged. */
  function Spending(cfg: Setup, charges: seq<Charge>, now: int): seq<Spend> {
    if charges == [] then []
    else
      var last := charges[|charges| - 1];
      Spending(cfg, charges[..|charges| - 1], now) +
      match ChargeKey(cfg, last)
      case None => []
      case Some(key) => [Spend(key, WindowStart(cfg, key.budget, now), last.units)]
  }

  function Listed(charges: seq<Charge>, budgets: set<Budget>): seq<Charge> {
    if charges == [] then []
    else
      var n := |charges| - 1;
      Listed(charges[..n], budgets) + if charges[n].budget in budgets then [charges[n]] else []
  }

  function RingSlot(st: State): nat { if st.ring.Some? then st.ring.value else 0 }

  function OpenAdmits(cfg: Setup, st: State, source: bytes, after: State, now: int): seq<Spend> {
    if after.ring == st.ring || RingSlot(st) !in after.records then []
    else Spending(cfg, Listed(OpenCharges(source), after.records[RingSlot(st)].consumed), now)
  }

  /**
   * What a step admitted: every charge of a call that was let through, and for an open, let through
   * or not, the charges its new audit record says it consumed.
   */
  function Admits(cfg: Setup, st: State, call: Call, now: int): seq<Spend> {
    var (after, reply) := Step(cfg, st, call, now);
    match call
    case Open(input) => OpenAdmits(cfg, st, input.source, after, now)
    case Consume(_, _, charges) => if reply == Admitted then Spending(cfg, charges, now) else []
    case Finish(_, _, _, _, _) => []
  }

  // ---------------------------------------------------------------- runs

  datatype Event = Event(call: Call, now: int)

  /** The documents after any sequence of committed transactions, each with its own clock reading. */
  function Run(cfg: Setup, events: seq<Event>): State {
    if events == [] then EMPTY
    else
      var last := events[|events| - 1];
      Step(cfg, Run(cfg, events[..|events| - 1]), last.call, last.now).0
  }

  function Log(cfg: Setup, events: seq<Event>): seq<Spend> {
    if events == [] then []
    else
      var before, last := events[..|events| - 1], events[|events| - 1];
      Log(cfg, before) + Admits(cfg, Run(cfg, before), last.call, last.now)
  }

  // ---------------------------------------------------------------- slots and windows

  lemma ProductsApart(a: int, b: int, n: int, x: int, y: int)
    requires a < b && 0 <= x < n && 0 <= y
    ensures a * n + x < b * n + y
  {
    assert (a + 1) * n <= b * n;
    assert (a + 1) * n == a * n + n;
  }

  /** Budgets never share a bucket document, so only subjects of one budget can collide. */
  lemma SlotsPartitioned(cfg: Setup, a: Key, b: Key)
    requires SlotOf(cfg, a) == SlotOf(cfg, b)
    ensures a.budget == b.budget
  {
    var n := SlotsPerBudget(cfg);
    var x, y := FromBE(a.digest[..4]) % n, FromBE(b.digest[..4]) % n;
    if a.budget < b.budget {
      ProductsApart(a.budget, b.budget, n, x, y);
    } else if b.budget < a.budget {
      ProductsApart(b.budget, a.budget, n, y, x);
    }
  }

  lemma FloorBounds(now: int, window: int)
    requires window > 0
    ensures Floor(now, window) <= now < Floor(now, window) + window
    ensures Floor(now, window) % window == 0
  {
    assert now == now / window * window + now % window;
    MultipleModulo(now / window, window);
  }

  lemma TimesOrder(a: int, b: int, n: int)
    requires a <= b && n > 0
    ensures a * n <= b * n
  {
  }

  lemma MultipleModulo(k: int, n: int)
    requires n > 0
    ensures k * n % n == 0 && k * n / n == k
  {
    var q := k * n / n;
    if k > q {
      TimesOrder(q + 1, k, n);
    } else if k < q {
      TimesOrder(k, q - 1, n);
    }
  }

  /** A window that has ended ends no later than the current one starts. */
  lemma EndedBefore(end: int, now: int, window: int)
    requires window > 0 && end % window == 0 && end <= now
    ensures end <= Floor(now, window)
  {
    QuotientOrder(end / window, now / window, now % window, window);
  }

  lemma QuotientOrder(p: int, q: int, r: int, n: int)
    requires n > 0 && 0 <= r < n && p * n <= q * n + r
    ensures p * n <= q * n
  {
    if p > q {
      TimesOrder(q + 1, p, n);
    } else {
      TimesOrder(p, q, n);
    }
  }

  lemma SumDivisible(a: int, n: int)
    requires n > 0 && a % n == 0
    ensures (a + n) % n == 0
  {
    assert a == a / n * n;
    assert a + n == (a / n + 1) * n;
    MultipleModulo(a / n + 1, n);
  }

  // ---------------------------------------------------------------- consolidation

  ghost predicate WellFormed(cfg: Setup, normal: seq<Normalized>) {
    && (forall i :: 0 <= i < |normal| ==> ChargeOk(cfg, normal[i]))
    && (forall i, j :: 0 <= i < j < |normal| ==> normal[i].key != normal[j].key)
  }

  predicate ChargeOk(cfg: Setup, c: Normalized) {
    c.slot == SlotOf(cfg, c.key) && 1 <= c.units <= LimitOf(cfg, c.key.budget).maximum
  }

  function SpendOf(cfg: Setup, c: Normalized, now: int): Spend {
    Spend(c.key, WindowStart(cfg, c.key.budget, now), c.units)
  }

  function Spends(cfg: Setup, normal: seq<Normalized>, now: int): (s: seq<Spend>)
    ensures |s| == |normal|
  {
    seq(|normal|, i requires 0 <= i < |normal| => SpendOf(cfg, normal[i], now))
  }

  lemma SpendsAppend(cfg: Setup, a: seq<Normalized>, c: Normalized, now: int)
    ensures Spends(cfg, a + [c], now) == Spends(cfg, a, now) + [SpendOf(cfg, c, now)]
  {
  }

  /** Adding units to one entry adds them to that key's total. */
  lemma {:induction false} SpentUpdated(cfg: Setup, acc: seq<Normalized>, i: nat, more: int, now: int, key: Key, start: int)
    requires i < |acc|
    ensures Spent(Spends(cfg, acc[i := acc[i].(units := acc[i].units + more)], now), key, start)
         == Spent(Spends(cfg, acc, now), key, start)
          + Spent([SpendOf(cfg, acc[i].(units := more), now)], key, start)
    decreases |acc|
  {
    hide WindowStart;
    var n := |acc| - 1;
    var next := acc[i := acc[i].(units := acc[i].units + more)];
    SpentOne(SpendOf(cfg, acc[i].(units := more), now), key, start);
    assert Spends(cfg, next, now)[..n] == Spends(cfg, next[..n], now);
    assert Spends(cfg, acc, now)[..n] == Spends(cfg, acc[..n], now);
    if i < n {
      SpentUpdated(cfg, acc[..n], i, more, now, key, start);
      assert next[..n] == acc[..n][i := acc[i].(units := acc[i].units + more)];
    } else {
      assert next[..n] == acc[..n];
    }
  }

  lemma AddChargeKeeps(cfg: Setup, acc: seq<Normalized>, c: Charge, now: int, key: Key, start: int)
    requires WellFormed(cfg, acc) && AddCharge(cfg, acc, c).Some?
    ensures WellFormed(cfg, AddCharge(cfg, acc, c).value)
    ensures Spent(Spends(cfg, AddCharge(cfg, acc, c).value, now), key, start)
         == Spent(Spends(cfg, acc, now), key, start) + Spent(Spending(cfg, [c], now), key, start)
  {
    hide SlotOf, WindowStart, Spent, BoundedString, KeyOf;
    var charged := ChargeKey(cfg, c).value;
    var i := IndexOf(acc, charged);
    assert [c][..0] == [];
    assert Spending(cfg, [c], now) == [Spend(charged, WindowStart(cfg, charged.budget, now), c.units)];
    if i < |acc| {
      SpentUpdated(cfg, acc, i, c.units, now, key, start);
    } else {
      var entry := Normalized(charged, c.units, SlotOf(cfg, charged));
      SpendsAppend(cfg, acc, entry, now);
      SpentAppend(Spends(cfg, acc, now), [SpendOf(cfg, entry, now)], key, start);
    }
  }

  lemma {:induction false} SpendingAppend(cfg: Setup, a: seq<Charge>, b: seq<Charge>, now: int)
    ensures Spending(cfg, a + b, now) == Spending(cfg, a, now) + Spending(cfg, b, now)
  {
    if b == [] {
      assert a + b == a;
    } else {
      SpendingAppend(cfg, a, b[..|b| - 1], now);
      assert (a + b)[..|a + b| - 1] == a + b[..|b| - 1];
    }
  }

  lemma {:induction false} AddChargesKeeps(
    cfg: Setup, acc: seq<Normalized>, charges: seq<Charge>, now: int, key: Key, start: int)
    requires WellFormed(cfg, acc) && AddCharges(cfg, acc, charges).Some?
    ensures WellFormed(cfg, AddCharges(cfg, acc, charges).value)
    ensures Spent(Spends(cfg, AddCharges(cfg, acc, charges).value, now), key, start)
         == Spent(Spends(cfg, acc, now), key, start) + Spent(Spending(cfg, charges, now), key, start)
    decreases |charges|
  {
    hide AddCharge, WellFormed;
    if charges != [] {
      AddChargeKeeps(cfg, acc, charges[0], now, key, start);
      AddChargesKeeps(cfg, AddCharge(cfg, acc, charges[0]).value, charges[1..], now, key, start);
      assert charges == [charges[0]] + charges[1..];
      SpendingAppend(cfg, [charges[0]], charges[1..], now);
      SpentAppend(Spending(cfg, [charges[0]], now), Spending(cfg, charges[1..], now), key, start);
    }
  }

  /** Merging charges changes no total: each key is charged the sum its caller asked for, once. */
  lemma NormalizeSound(cfg: Setup, charges: seq<Charge>, now: int, key: Key, start: int)
    requires Normalize(cfg, charges).Some?
    ensures WellFormed(cfg, Normalize(cfg, charges).value)
    ensures Spent(Spends(cfg, Normalize(cfg, charges).value, now), key, start)
         == Spent(Spending(cfg, charges, now), key, start)
  {
    AddChargesKeeps(cfg, [], charges, now, key, start);
    assert Spends(cfg, [], now) == [];
  }

  lemma NormalizeWellFormed(cfg: Setup, charges: seq<Charge>)
    requires Normalize(cfg, charges).Some?
    ensures WellFormed(cfg, Normalize(cfg, charges).value)
  {
    NormalizeSound(cfg, charges, 0, KeyOf(cfg, AUDIT_EVENTS, GLOBAL, AuditKey), 0);
  }

  // ---------------------------------------------------------------- the invariant

  predicate BucketOk(cfg: Setup, slot: nat, b: Bucket) {
    b.slot == slot == SlotOf(cfg, b.key) && Intact(b) && MatchesProfile(cfg, b)
  }

  /** The bucket counts what its key was admitted in its window. */
  ghost predicate Counts(cfg: Setup, buckets: map<nat, Bucket>, log: seq<Spend>) {
    forall slot :: slot in buckets ==>
      BucketOk(cfg, slot, buckets[slot]) && Spent(log, buckets[slot].key, buckets[slot].start) == buckets[slot].used
  }

  /** Nothing was ever admitted in a later window than the bucket's, nor to another key in the same one. */
  ghost predicate Settled(cfg: Setup, buckets: map<nat, Bucket>, log: seq<Spend>) {
    forall key, start :: Spent(log, key, start) != 0 ==> Known(cfg, buckets, key, start)
  }

  predicate Known(cfg: Setup, buckets: map<nat, Bucket>, key: Key, start: int) {
    var slot := SlotOf(cfg, key);
    slot in buckets && (start < buckets[slot].start || (start == buckets[slot].start && key == buckets[slot].key))
  }

  ghost predicate Capped(cfg: Setup, log: seq<Spend>) {
    forall key, start :: 0 <= Spent(log, key, start) <= LimitOf(cfg, key.budget).maximum
  }

  /** One document serves one subject per window. */
  ghost predicate Exclusive(cfg: Setup, log: seq<Spend>) {
    forall a, b, start ::
      Spent(log, a, start) != 0 && Spent(log, b, start) != 0 && SlotOf(cfg, a) == SlotOf(cfg, b) ==> a == b
  }

  ghost predicate Sound(cfg: Setup, buckets: map<nat, Bucket>, log: seq<Spend>) {
    Counts(cfg, buckets, log) && Settled(cfg, buckets, log) && Capped(cfg, log) && Exclusive(cfg, log)
  }

  /** The bucket a charge is evaluated against is the one its window belongs to, and it counts that window. */
  lemma EvaluatedBucket(cfg: Setup, buckets: map<nat, Bucket>, log: seq<Spend>, c: Normalized, now: int)
    requires Sound(cfg, buckets, log) && ChargeOk(cfg, c)
    requires EvaluateBucket(cfg, buckets, c, now).Some?
    ensures var e := EvaluateBucket(cfg, buckets, c, now).value;
      && e.charge == c
      && (!e.denied || e.canMark ==>
          && BucketOk(cfg, c.slot, e.bucket) && e.bucket.key == c.key
          && e.bucket.start == WindowStart(cfg, c.key.budget, now) && e.bucket.start <= now < e.bucket.end
          && Spent(log, c.key, e.bucket.start) == e.bucket.used
          && (c.slot in buckets ==> buckets[c.slot].start < e.bucket.start || buckets[c.slot] == e.bucket))
      && (!e.denied ==> e.bucket.used + c.units <= LimitOf(cfg, c.key.budget).maximum)
      && (e.canMark ==> e.denied && e.bucket.saturation == None && c.slot in buckets && buckets[c.slot] == e.bucket)
  {
    hide Spent, SlotOf;
    var limit := LimitOf(cfg, c.key.budget);
    FloorBounds(now, limit.window);
    var start := WindowStart(cfg, c.key.budget, now);
    if c.slot in buckets {
      var b := buckets[c.slot];
      SlotsPartitioned(cfg, b.key, c.key);
      if b.end <= now {
        SumDivisible(b.start, limit.window);
        EndedBefore(b.end, now, limit.window);
        assert !Known(cfg, buckets, c.key, start);
      }
    } else {
      assert !Known(cfg, buckets, c.key, start);
    }
  }

  /** Charging one bucket keeps the count, the order of windows and the cap. */
  lemma ChargedKeeps(cfg: Setup, buckets: map<nat, Bucket>, log: seq<Spend>, c: Normalized, now: int)
    requires Sound(cfg, buckets, log) && ChargeOk(cfg, c)
    requires EvaluateBucket(cfg, buckets, c, now).Some? && !EvaluateBucket(cfg, buckets, c, now).value.denied
    ensures Sound(cfg, Charged(buckets, EvaluateBucket(cfg, buckets, c, now).value, now), log + [SpendOf(cfg, c, now)])
  {
    hide Spent, SlotOf, EvaluateBucket, WindowStart;
    EvaluatedBucket(cfg, buckets, log, c, now);
    var e := EvaluateBucket(cfg, buckets, c, now).value;
    var after, longer := Charged(buckets, e, now), log + [SpendOf(cfg, c, now)];
    forall key, start
      ensures Spent(longer, key, start)
           == Spent(log, key, start) + if key == c.key && start == e.bucket.start then c.units else 0
    {
      SpentAppend(log, [SpendOf(cfg, c, now)], key, start);
      SpentOne(SpendOf(cfg, c, now), key, start);
    }
    forall key, start | Spent(longer, key, start) != 0 ensures Known(cfg, after, key, start) {
      if !(key == c.key && start == e.bucket.start) {
        assert Known(cfg, buckets, key, start);
      }
    }
    assert Counts(cfg, after, longer);
    forall a, b, at | Spent(longer, a, at) != 0 && Spent(longer, b, at) != 0 && SlotOf(cfg, a) == SlotOf(cfg, b)
      ensures a == b
    {
      assert Spent(log, a, at) != 0 ==> Known(cfg, buckets, a, at);
      assert Spent(log, b, at) != 0 ==> Known(cfg, buckets, b, at);
    }
  }

  lemma MarkedKeeps(cfg: Setup, buckets: map<nat, Bucket>, log: seq<Spend>, c: Normalized, event: Identifier, now: int)
    requires Sound(cfg, buckets, log) && ChargeOk(cfg, c) && EvaluateBucket(cfg, buckets, c, now).Some?
    ensures Sound(cfg, Marked(buckets, EvaluateBucket(cfg, buckets, c, now).value, event, now), log)
  {
    hide Spent, SlotOf, EvaluateBucket, WindowStart;
    EvaluatedBucket(cfg, buckets, log, c, now);
    var after := Marked(buckets, EvaluateBucket(cfg, buckets, c, now).value, event, now);
    forall key, start | Spent(log, key, start) != 0 ensures Known(cfg, after, key, start) {
      assert Known(cfg, buckets, key, start);
    }
  }

  // ---------------------------------------------------------------- whole calls

  /** The charges are for different documents and were evaluated one by one. */
  ghost predicate Evaluated(cfg: Setup, buckets: map<nat, Bucket>, normal: seq<Normalized>, evals: seq<Evaluation>, now: int) {
    && |evals| == |normal|
    && (forall i :: 0 <= i < |normal| ==> ChargeOk(cfg, normal[i]))
    && (forall i :: 0 <= i < |normal| ==> EvaluateBucket(cfg, buckets, normal[i], now) == Some(evals[i]))
    && (forall i, j :: 0 <= i < j < |normal| ==> normal[i].slot != normal[j].slot)
    && (forall i :: 0 <= i < |normal| ==> evals[i].charge == normal[i])
  }

  lemma {:induction false} EvaluateEachAt(cfg: Setup, buckets: map<nat, Bucket>, normal: seq<Normalized>, now: int, i: nat)
    requires EvaluateEach(cfg, buckets, normal, now).Some?
    ensures |EvaluateEach(cfg, buckets, normal, now).value| == |normal|
    ensures i < |normal| ==>
      EvaluateBucket(cfg, buckets, normal[i], now) == Some(EvaluateEach(cfg, buckets, normal, now).value[i])
    decreases |normal|
  {
    hide EvaluateBucket;
    if normal != [] {
      EvaluateEachAt(cfg, buckets, normal[..|normal| - 1], now, i);
    }
  }

  lemma EvaluateEachSize(cfg: Setup, buckets: map<nat, Bucket>, normal: seq<Normalized>, now: int)
    requires EvaluateEach(cfg, buckets, normal, now).Some?
    ensures |EvaluateEach(cfg, buckets, normal, now).value| == |normal|
  {
    EvaluateEachAt(cfg, buckets, normal, now, 0);
  }

  lemma EvaluateIsEvaluated(cfg: Setup, buckets: map<nat, Bucket>, normal: seq<Normalized>, now: int)
    requires WellFormed(cfg, normal) && Evaluate(cfg, buckets, normal, now).Some?
    ensures var evals := Evaluate(cfg, buckets, normal, now).value;
      if Conflict(normal)
      then |evals| == |normal| && forall i :: 0 <= i < |evals| ==> evals[i].denied && !evals[i].canMark && evals[i].charge == normal[i]
      else Evaluated(cfg, buckets, normal, evals, now)
  {
    hide SlotOf;
    if !Conflict(normal) {
      EvaluateEachSize(cfg, buckets, normal, now);
      forall i | 0 <= i < |normal|
        ensures EvaluateBucket(cfg, buckets, normal[i], now) == Some(Evaluate(cfg, buckets, normal, now).value[i])
      {
        EvaluateEachAt(cfg, buckets, normal, now, i);
      }
    }
  }

  lemma {:induction false} ChargedElsewhere(
    cfg: Setup, buckets: map<nat, Bucket>, normal: seq<Normalized>, evals: seq<Evaluation>, now: int, k: nat, slot: nat)
    requires Evaluated(cfg, buckets, normal, evals, now) && k <= |evals|
    requires forall i :: 0 <= i < k ==> evals[i].charge.slot != slot
    ensures var after := ChargedAll(buckets, evals[..k], now);
      (slot in after <==> slot in buckets) && (slot in buckets ==> after[slot] == buckets[slot])
    decreases k
  {
    hide EvaluateBucket;
    if k > 0 {
      ChargedElsewhere(cfg, buckets, normal, evals, now, k - 1, slot);
      assert evals[..k][..k - 1] == evals[..k - 1];
    }
  }

  lemma {:induction false} ChargedAllKeeps(
    cfg: Setup, buckets: map<nat, Bucket>, log: seq<Spend>, normal: seq<Normalized>, evals: seq<Evaluation>, now: int,
    k: nat)
    requires Sound(cfg, buckets, log) && Evaluated(cfg, buckets, normal, evals, now) && k <= |evals|
    requires !AnyDenied(evals)
    ensures Sound(cfg, ChargedAll(buckets, evals[..k], now), log + Spends(cfg, normal[..k], now))
    decreases k
  {
    hide EvaluateBucket, Sound, ChargeOk;
    if k == 0 {
      assert log + Spends(cfg, normal[..0], now) == log;
    } else {
      var before := ChargedAll(buckets, evals[..k - 1], now);
      var c := normal[k - 1];
      ChargedAllKeeps(cfg, buckets, log, normal, evals, now, k - 1);
      ChargedElsewhere(cfg, buckets, normal, evals, now, k - 1, c.slot);
      EvaluationLocal(cfg, buckets, before, c, now);
      ChargedKeeps(cfg, before, log + Spends(cfg, normal[..k - 1], now), c, now);
      assert normal[..k] == normal[..k - 1] + [c];
      SpendsAppend(cfg, normal[..k - 1], c, now);
      assert evals[..k][..k - 1] == evals[..k - 1];
      assert log + Spends(cfg, normal[..k - 1], now) + [SpendOf(cfg, c, now)] == log + Spends(cfg, normal[..k], now);
    }
  }

  /** An evaluation looks at one document. */
  lemma EvaluationLocal(cfg: Setup, a: map<nat, Bucket>, b: map<nat, Bucket>, c: Normalized, now: int)
    requires c.slot in a <==> c.slot in b
    requires c.slot in a ==> a[c.slot] == b[c.slot]
    ensures EvaluateBucket(cfg, a, c, now) == EvaluateBucket(cfg, b, c, now)
  {
  }

  /** Marking saturation touches only buckets of denied charges, and only their mark and time. */
  ghost predicate SameCounts(a: map<nat, Bucket>, b: map<nat, Bucket>) {
    a.Keys == b.Keys
    && forall slot :: slot in a ==> b[slot] == a[slot].(saturation := b[slot].saturation, updatedAt := b[slot].updatedAt)
  }

  lemma {:induction false} MarkedAllKeeps(
    cfg: Setup, buckets: map<nat, Bucket>, log: seq<Spend>, normal: seq<Normalized>, evals: seq<Evaluation>,
    event: Identifier, now: int, k: nat)
    requires Sound(cfg, buckets, log) && Evaluated(cfg, buckets, normal, evals, now) && k <= |evals|
    ensures Sound(cfg, MarkedAll(buckets, evals[..k], event, now), log)
    ensures SameCounts(buckets, MarkedAll(buckets, evals[..k], event, now))
    ensures forall slot :: slot in buckets && (forall i :: 0 <= i < k ==> evals[i].charge.slot != slot || !evals[i].canMark) ==>
      MarkedAll(buckets, evals[..k], event, now)[slot] == buckets[slot]
    decreases k
  {
    hide EvaluateBucket, Sound, ChargeOk;
    if k > 0 {
      var before := MarkedAll(buckets, evals[..k - 1], event, now);
      var c := normal[k - 1];
      MarkedAllKeeps(cfg, buckets, log, normal, evals, event, now, k - 1);
      EvaluationLocal(cfg, buckets, before, c, now);
      MarkedKeeps(cfg, before, log, c, event, now);
      EvaluatedBucket(cfg, before, log, c, now);
      assert evals[..k][..k - 1] == evals[..k - 1];
    }
  }

  lemma ConflictMarksNothing(buckets: map<nat, Bucket>, evals: seq<Evaluation>, event: Identifier, now: int)
    requires forall i :: 0 <= i < |evals| ==> !evals[i].canMark
    ensures MarkedAll(buckets, evals, event, now) == buckets
  {
  }

  // ---------------------------------------------------------------- steps

  lemma SoundByTotals(cfg: Setup, buckets: map<nat, Bucket>, a: seq<Spend>, b: seq<Spend>)
    requires Sound(cfg, buckets, a) && forall key, start :: Spent(a, key, start) == Spent(b, key, start)
    ensures Sound(cfg, buckets, b)
  {
    hide Spent, SlotOf, BucketOk;
    forall key, start | Spent(b, key, start) != 0 ensures Known(cfg, buckets, key, start) {
      assert Spent(a, key, start) != 0;
    }
    forall k, l, start | Spent(b, k, start) != 0 && Spent(b, l, start) != 0 && SlotOf(cfg, k) == SlotOf(cfg, l)
      ensures k == l
    {
      assert Spent(a, k, start) != 0 && Spent(a, l, start) != 0;
    }
  }

  /** Charging every document of a call admits exactly the units its caller listed. */
  lemma CallCharged(
    cfg: Setup, buckets: map<nat, Bucket>, log: seq<Spend>, charges: seq<Charge>, now: int)
    requires Sound(cfg, buckets, log) && Normalize(cfg, charges).Some?
    requires Evaluate(cfg, buckets, Normalize(cfg, charges).value, now).Some?
    requires !AnyDenied(Evaluate(cfg, buckets, Normalize(cfg, charges).value, now).value)
    ensures Sound(
      cfg, ChargedAll(buckets, Evaluate(cfg, buckets, Normalize(cfg, charges).value, now).value, now),
      log + Spending(cfg, charges, now))
  {
    hide Sound, Evaluate, Normalize, ChargedAll, Spending, EvaluateBucket, Conflict;
    var normal := Normalize(cfg, charges).value;
    var evals := Evaluate(cfg, buckets, normal, now).value;
    NormalizeWellFormed(cfg, charges);
    forall key, start
      ensures Spent(log + Spends(cfg, normal, now), key, start) == Spent(log + Spending(cfg, charges, now), key, start)
    {
      NormalizeSound(cfg, charges, now, key, start);
      SpentAppend(log, Spends(cfg, normal, now), key, start);
      SpentAppend(log, Spending(cfg, charges, now), key, start);
    }
    NormalNotEmpty(cfg, charges);
    EvaluateIsEvaluated(cfg, buckets, normal, now);
    ConflictDenies(cfg, buckets, normal, now);
    ChargedAllKeeps(cfg, buckets, log, normal, evals, now, |evals|);
    assert evals[..|evals|] == evals && normal[..|evals|] == normal;
    SoundByTotals(cfg, ChargedAll(buckets, evals, now), log + Spends(cfg, normal, now), log + Spending(cfg, charges, now));
  }

  lemma ConflictDenies(cfg: Setup, buckets: map<nat, Bucket>, normal: seq<Normalized>, now: int)
    requires normal != [] && Evaluate(cfg, buckets, normal, now).Some?
    ensures Conflict(normal) ==> AnyDenied(Evaluate(cfg, buckets, normal, now).value)
  {
    if Conflict(normal) {
      assert DeniedAll(cfg, normal, now)[0].denied;
    }
  }

  lemma {:induction false} AddChargesLonger(cfg: Setup, acc: seq<Normalized>, charges: seq<Charge>)
    requires AddCharges(cfg, acc, charges).Some?
    ensures |AddCharges(cfg, acc, charges).value| >= |acc|
    ensures charges != [] ==> AddCharges(cfg, acc, charges).value != []
    decreases |charges|
  {
    if charges != [] {
      AddChargesLonger(cfg, AddCharge(cfg, acc, charges[0]).value, charges[1..]);
    }
  }

  lemma NormalNotEmpty(cfg: Setup, charges: seq<Charge>)
    requires Normalize(cfg, charges).Some?
    ensures Normalize(cfg, charges).value != []
  {
    AddChargesLonger(cfg, [], charges);
  }

  lemma CallMarked(
    cfg: Setup, buckets: map<nat, Bucket>, log: seq<Spend>, charges: seq<Charge>, event: Identifier, now: int)
    requires Sound(cfg, buckets, log) && Normalize(cfg, charges).Some?
    requires Evaluate(cfg, buckets, Normalize(cfg, charges).value, now).Some?
    ensures var after := MarkedAll(buckets, Evaluate(cfg, buckets, Normalize(cfg, charges).value, now).value, event, now);
      Sound(cfg, after, log) && SameCounts(buckets, after)
  {
    hide Sound, Evaluate, Normalize, MarkedAll, EvaluateBucket, Conflict;
    var normal := Normalize(cfg, charges).value;
    var evals := Evaluate(cfg, buckets, normal, now).value;
    NormalizeWellFormed(cfg, charges);
    EvaluateIsEvaluated(cfg, buckets, normal, now);
    if Conflict(normal) {
      ConflictMarksNothing(buckets, evals, event, now);
    } else {
      MarkedAllKeeps(cfg, buckets, log, normal, evals, event, now, |evals|);
      assert evals[..|evals|] == evals;
    }
  }

  /** A denied call leaves every count, key and window as it was, and every audit record. */
  lemma DeniedConsumeChargesNothing(
    cfg: Setup, st: State, log: seq<Spend>, slot: nat, event: Identifier, charges: seq<Charge>, now: int)
    requires Sound(cfg, st.buckets, log)
    requires ConsumeStep(cfg, st, slot, event, charges, now).1 != Admitted
    ensures var after := ConsumeStep(cfg, st, slot, event, charges, now).0;
      SameCounts(st.buckets, after.buckets) && after.records == st.records && after.ring == st.ring
  {
    hide Sound, Evaluate, Normalize, MarkedAll;
    if Normalize(cfg, charges).Some? && Evaluate(cfg, st.buckets, Normalize(cfg, charges).value, now).Some? {
      CallMarked(cfg, st.buckets, log, charges, event, now);
    }
  }

  lemma ConsumeSound(
    cfg: Setup, st: State, log: seq<Spend>, slot: nat, event: Identifier, charges: seq<Charge>, now: int)
    requires Sound(cfg, st.buckets, log)
    ensures var call := Consume(slot, event, charges);
      Sound(cfg, Step(cfg, st, call, now).0.buckets, log + Admits(cfg, st, call, now))
  {
    hide Sound, Evaluate, Normalize, MarkedAll, ChargedAll, AnyDenied, Live, SizeOk, Spending;
    assert log + [] == log;
    if Normalize(cfg, charges).Some? && Evaluate(cfg, st.buckets, Normalize(cfg, charges).value, now).Some? {
      CallMarked(cfg, st.buckets, log, charges, event, now);
      if !AnyDenied(Evaluate(cfg, st.buckets, Normalize(cfg, charges).value, now).value) {
        CallCharged(cfg, st.buckets, log, charges, now);
      }
    }
  }

  // ---------------------------------------------------------------- opening

  function AuditCharge(cfg: Setup): Normalized {
    var key := KeyOf(cfg, AUDIT_EVENTS, GLOBAL, AuditKey);
    Normalized(key, 1, SlotOf(cfg, key))
  }

  function SourceCharge(cfg: Setup, source: bytes): Normalized {
    var key := KeyOf(cfg, SOURCE_OPERATIONS, source, NetworkKey);
    Normalized(key, 1, SlotOf(cfg, key))
  }

  /** Opening charges one audit event and one source operation, in documents that cannot coincide. */
  lemma OpenNormal(cfg: Setup, source: bytes)
    ensures Normalize(cfg, OpenCharges(source)).Some? <==> BoundedString(source)
    ensures BoundedString(source) ==>
      Normalize(cfg, OpenCharges(source)) == Some([AuditCharge(cfg), SourceCharge(cfg, source)])
    ensures AuditCharge(cfg).slot != SourceCharge(cfg, source).slot
    ensures ChargeOk(cfg, AuditCharge(cfg)) && ChargeOk(cfg, SourceCharge(cfg, source))
  {
    hide SlotOf, BoundedString;
    var charges := OpenCharges(source);
    GlobalBounded();
    assert charges[1..] == [charges[1]] && charges[1..][1..] == [];
    if AuditCharge(cfg).slot == SourceCharge(cfg, source).slot {
      SlotsPartitioned(cfg, AuditCharge(cfg).key, SourceCharge(cfg, source).key);
    }
    var one, two := [AuditCharge(cfg)], [AuditCharge(cfg), SourceCharge(cfg, source)];
    assert [] + one == one && one + [SourceCharge(cfg, source)] == two;
    assert AddCharge(cfg, [], charges[0]) == Some(one);
    assert AddCharge(cfg, one, charges[1]) == if BoundedString(source) then Some(two) else None;
    assert AddCharges(cfg, two, []) == Some(two);
    assert AddCharges(cfg, [], charges) == AddCharges(cfg, one, charges[1..]);
  }

  lemma GlobalBounded()
    ensures BoundedString(GLOBAL)
  {
  }

  lemma OpenEvaluated(cfg: Setup, st: State, source: bytes, now: int)
    requires BoundedString(source)
    requires Evaluate(cfg, st.buckets, [AuditCharge(cfg), SourceCharge(cfg, source)], now).Some?
    ensures var normal := [AuditCharge(cfg), SourceCharge(cfg, source)];
      var evals := Evaluate(cfg, st.buckets, normal, now).value;
      && Evaluated(cfg, st.buckets, normal, evals, now)
      && FindAudit(evals) == Some(evals[0]) && BudgetsOf(evals) == {AUDIT_EVENTS, SOURCE_OPERATIONS}
  {
    hide SlotOf, EvaluateBucket, EvaluateEach, ChargeOk;
    var normal := [AuditCharge(cfg), SourceCharge(cfg, source)];
    OpenNormal(cfg, source);
    EvaluateIsEvaluated(cfg, st.buckets, normal, now);
    var evals := Evaluate(cfg, st.buckets, normal, now).value;
    assert evals[0].charge.key.budget == AUDIT_EVENTS && evals[1].charge.key.budget == SOURCE_OPERATIONS;
  }

  lemma ListedOpen(source: bytes)
    ensures Listed(OpenCharges(source), {}) == []
    ensures Listed(OpenCharges(source), {AUDIT_EVENTS}) == [OpenCharges(source)[0]]
    ensures Listed(OpenCharges(source), {AUDIT_EVENTS, SOURCE_OPERATIONS}) == OpenCharges(source)
  {
    var charges := OpenCharges(source);
    assert charges[..1] == [charges[0]] && [charges[0]][..0] == [];
    forall budgets: set<Budget>
      ensures Listed(charges, budgets) == Listed([charges[0]], budgets) + (if SOURCE_OPERATIONS in budgets then [charges[1]] else [])
      ensures Listed([charges[0]], budgets) == Listed([], budgets) + (if AUDIT_EVENTS in budgets then [charges[0]] else [])
    {
    }
  }

  lemma RingMoves(cfg: Setup, st: State, now: int)
    requires AllocateAudit(cfg, st, now).Allocated?
    ensures AllocateAudit(cfg, st, now).slot == RingSlot(st) < cfg.profile.auditSlots
    ensures Some(NextSlot(cfg, RingSlot(st))) != st.ring
  {
  }

  lemma NoSpending(cfg: Setup, now: int)
    ensures Spending(cfg, [], now) == []
  {
  }

  lemma AuditSpending(cfg: Setup, source: bytes, now: int)
    requires BoundedString(source)
    ensures Spending(cfg, [OpenCharges(source)[0]], now) == [SpendOf(cfg, AuditCharge(cfg), now)]
  {
    hide BoundedString, WindowStart, SlotOf;
    GlobalBounded();
    var c := OpenCharges(source)[0];
    assert [c][..0] == [];
    assert Spending(cfg, [c][..0], now) == [];
  }

  /** An open that is refused but still recorded: its audit event is charged, unless that is what ran out. */
  lemma RefusedOpenSound(cfg: Setup, st: State, log: seq<Spend>, input: OpenInput, now: int)
    requires Sound(cfg, st.buckets, log) && BoundedString(input.source)
    requires Evaluate(cfg, st.buckets, [AuditCharge(cfg), SourceCharge(cfg, input.source)], now).Some?
    ensures var evals := Evaluate(cfg, st.buckets, [AuditCharge(cfg), SourceCharge(cfg, input.source)], now).value;
      var marked := MarkedAll(st.buckets, evals, input.event, now);
      && |evals| == 2 && Sound(cfg, marked, log)
      && (!evals[0].denied ==>
          Sound(cfg, Charged(marked, evals[0], now), log + Spending(cfg, [OpenCharges(input.source)[0]], now)))
  {
    hide Sound, Evaluate, MarkedAll, EvaluateBucket, Charged, Spending, AuditCharge, SourceCharge, BoundedString;
    var normal := [AuditCharge(cfg), SourceCharge(cfg, input.source)];
    var evals := Evaluate(cfg, st.buckets, normal, now).value;
    OpenEvaluated(cfg, st, input.source, now);
    MarkedAllKeeps(cfg, st.buckets, log, normal, evals, input.event, now, 2);
    assert evals[..2] == evals;
    var marked := MarkedAll(st.buckets, evals, input.event, now);
    if !evals[0].denied {
      EvaluatedBucket(cfg, st.buckets, log, normal[0], now);
      EvaluationLocal(cfg, st.buckets, marked, normal[0], now);
      ChargedKeeps(cfg, marked, log, normal[0], now);
      AuditSpending(cfg, input.source, now);
    }
  }

  lemma OpenAllowedSound(cfg: Setup, st: State, log: seq<Spend>, input: OpenInput, now: int)
    requires Sound(cfg, st.buckets, log) && BoundedString(input.source)
    requires Evaluate(cfg, st.buckets, [AuditCharge(cfg), SourceCharge(cfg, input.source)], now).Some?
    requires !AnyDenied(Evaluate(cfg, st.buckets, [AuditCharge(cfg), SourceCharge(cfg, input.source)], now).value)
    ensures var evals := Evaluate(cfg, st.buckets, [AuditCharge(cfg), SourceCharge(cfg, input.source)], now).value;
      var after := OpenAllowed(cfg, st, input, evals, now).0;
      Sound(cfg, after.buckets, log + OpenAdmits(cfg, st, input.source, after, now))
  {
    hide Sound, Evaluate, Normalize, ChargedAll, AnyDenied, SizeOk, Spending, AllocateAudit, NextSlot, OpenCharges,
      AuditCharge, SourceCharge, Listed, BudgetsOf, BoundedString;
    assert log + [] == log;
    if AllocateAudit(cfg, st, now).Allocated? {
      RingMoves(cfg, st, now);
      ListedOpen(input.source);
      OpenNormal(cfg, input.source);
      OpenEvaluated(cfg, st, input.source, now);
      CallCharged(cfg, st.buckets, log, OpenCharges(input.source), now);
    }
  }

  lemma OpenDeniedSound(cfg: Setup, st: State, log: seq<Spend>, input: OpenInput, now: int)
    requires Sound(cfg, st.buckets, log) && BoundedString(input.source)
    requires Evaluate(cfg, st.buckets, [AuditCharge(cfg), SourceCharge(cfg, input.source)], now).Some?
    ensures var evals := Evaluate(cfg, st.buckets, [AuditCharge(cfg), SourceCharge(cfg, input.source)], now).value;
      |evals| == 2 &&
      var after := OpenDenied(cfg, st, input, evals, evals[0], now).0;
      Sound(cfg, after.buckets, log + OpenAdmits(cfg, st, input.source, after, now))
  {
    hide Sound, Evaluate, MarkedAll, Charged, SizeOk, Spending, AllocateAudit, NextSlot, OpenCharges,
      AuditCharge, SourceCharge, Listed, BoundedString, LongestRetry;
    assert log + [] == log;
    NoSpending(cfg, now);
    ListedOpen(input.source);
    RefusedOpenSound(cfg, st, log, input, now);
    if AllocateAudit(cfg, st, now).Allocated? {
      RingMoves(cfg, st, now);
    }
  }

  lemma OpenSound(cfg: Setup, st: State, log: seq<Spend>, input: OpenInput, now: int)
    requires Sound(cfg, st.buckets, log)
    ensures Sound(cfg, Step(cfg, st, Open(input), now).0.buckets, log + Admits(cfg, st, Open(input), now))
  {
    hide Sound, Evaluate, Normalize, AnyDenied, Spending, OpenCharges, AuditCharge, SourceCharge, FindAudit,
      OpenAllowed, OpenDenied, Listed, BoundedString;
    assert log + [] == log;
    OpenNormal(cfg, input.source);
    var normal := [AuditCharge(cfg), SourceCharge(cfg, input.source)];
    if BoundedString(input.source) && Evaluate(cfg, st.buckets, normal, now).Some? {
      OpenEvaluated(cfg, st, input.source, now);
      if AnyDenied(Evaluate(cfg, st.buckets, normal, now).value) {
        OpenDeniedSound(cfg, st, log, input, now);
      } else {
        OpenAllowedSound(cfg, st, log, input, now);
      }
    }
  }

  lemma StepSound(cfg: Setup, st: State, log: seq<Spend>, call: Call, now: int)
    requires Sound(cfg, st.buckets, log)
    ensures Sound(cfg, Step(cfg, st, call, now).0.buckets, log + Admits(cfg, st, call, now))
  {
    hide Sound, OpenStep, ConsumeStep;
    match call
    case Open(input) => OpenSound(cfg, st, log, input, now);
    case Consume(slot, event, charges) => ConsumeSound(cfg, st, log, slot, event, charges, now);
    case Finish(_, _, _, _, _) => assert log + [] == log;
  }

  // ---------------------------------------------------------------- whole runs

  lemma EmptySound(cfg: Setup)
    ensures Sound(cfg, map[], [])
  {
  }

  lemma {:induction false} RunSound(cfg: Setup, events: seq<Event>)
    ensures Sound(cfg, Run(cfg, events).buckets, Log(cfg, events))
  {
    hide Sound, Step, Admits;
    if events == [] {
      EmptySound(cfg);
    } else {
      var before, last := events[..|events| - 1], events[|events| - 1];
      RunSound(cfg, before);
      StepSound(cfg, Run(cfg, before), Log(cfg, before), last.call, last.now);
    }
  }

  /**
   * The admission cap. However the calls of any number of processes interleave, whatever clock each
   * of them sampled, and whichever subjects share a document, the units admitted for one budget,
   * subject and window never exceed the budget's maximum.
   */
  lemma CapHolds(cfg: Setup, events: seq<Event>, key: Key, start: int)
    ensures 0 <= Spent(Log(cfg, events), key, start) <= LimitOf(cfg, key.budget).maximum
  {
    hide Run, Log, Spent;
    RunSound(cfg, events);
  }

  /** Subjects that collide in a document are never both admitted in one window. */
  lemma CollidingSubjectsExclude(cfg: Setup, events: seq<Event>, a: Key, b: Key, start: int)
    requires SlotOf(cfg, a) == SlotOf(cfg, b) && a != b
    ensures Spent(Log(cfg, events), a, start) == 0 || Spent(Log(cfg, events), b, start) == 0
  {
    hide Run, Log, Spent, SlotOf;
    RunSound(cfg, events);
  }

  /**
   * In every reachable state a charge is refused exactly when its history and units exceed the
   * maximum or another subject holds its document, and fails outright exactly when its own document
   * belongs to a window the sampled clock has not reached.
   */
  lemma DeniedExactly(cfg: Setup, events: seq<Event>, c: Normalized, now: int)
    requires ChargeOk(cfg, c)
    ensures var b := Run(cfg, events).buckets;
      var spent := Spent(Log(cfg, events), c.key, WindowStart(cfg, c.key.budget, now));
      var r := EvaluateBucket(cfg, b, c, now);
      && (r == None <==> c.slot in b && b[c.slot].key == c.key && now < b[c.slot].start)
      && (r.Some? ==> (r.value.denied <==>
            || (c.slot in b && now < b[c.slot].end && b[c.slot].key != c.key)
            || spent + c.units > LimitOf(cfg, c.key.budget).maximum))
  {
    hide Run, Log, Spent, SlotOf;
    RunSound(cfg, events);
    var b, log := Run(cfg, events).buckets, Log(cfg, events);
    FloorBounds(now, LimitOf(cfg, c.key.budget).window);
    if c.slot in b {
      SlotsPartitioned(cfg, b[c.slot].key, c.key);
      if b[c.slot].key == c.key && b[c.slot].start <= now < b[c.slot].end {
        SameWindow(b[c.slot].start, now, LimitOf(cfg, c.key.budget).window);
      }
    }
    if EvaluateBucket(cfg, b, c, now).Some? {
      EvaluatedBucket(cfg, b, log, c, now);
    }
  }

  lemma SameWindow(start: int, now: int, window: int)
    requires window > 0 && start % window == 0 && start <= now < start + window
    ensures Floor(now, window) == start
  {
    FloorBounds(now, window);
    EndedBefore(start, now, window);
    QuotientOrder(now / window, start / window, now - start, window);
  }
}
