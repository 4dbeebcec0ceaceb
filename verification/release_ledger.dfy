/** The anti-rollback ledger a host keeps of the component releases it accepted. */
module ReleaseLedger {
  import opened Options

  type Digest = string

  datatype Pointer = Pointer(
    home: string, generation: int, release: string, abi: string, url: string, sha: Digest, size: int,
    requirements: seq<seq<string>>)

  /** The enrolled home, and which pointers pass validation for it. */
  datatype Context = Context(home: string, valid: Pointer -> bool)

  datatype Record = Record(home: string, highest: Pointer, good: Option<Pointer>)

  datatype Error = PointerInvalid | ReleaseQuarantined | MetadataInvalid

  datatype Outcome = Done(record: Record) | Refused(error: Error)

  predicate PointerOk(ctx: Context, p: Pointer, minimum: int) {
    ctx.valid(p) && p.home == ctx.home && p.generation >= 1 && p.generation >= minimum
  }

  /** The stored record belongs to this home, and last-known-good is not above the floor nor in conflict with it. */
  predicate StateOk(ctx: Context, r: Record) {
    && r.home == ctx.home && PointerOk(ctx, r.highest, 0)
    && (r.good.Some? ==>
          && PointerOk(ctx, r.good.value, 0) && r.good.value.generation <= r.highest.generation
          && (r.good.value.generation == r.highest.generation ==> r.good.value == r.highest))
  }

  function AcceptCandidate(ctx: Context, current: Option<Record>, p: Pointer, quarantined: set<Digest>): Outcome {
    if !PointerOk(ctx, p, if current.Some? then current.value.highest.generation else 0) then Refused(PointerInvalid)
    else if p.sha in quarantined then Refused(ReleaseQuarantined)
    else
      match current
      case None => Done(Record(p.home, p, None))
      case Some(r) =>
        if p.generation == r.highest.generation then (if p == r.highest then Done(r) else Refused(PointerInvalid))
        else Done(Record(p.home, p, r.good))
  }

  function MarkReleaseActive(ctx: Context, r: Record, p: Pointer, quarantined: set<Digest>): Outcome {
    if !PointerOk(ctx, p, r.highest.generation) then Refused(PointerInvalid)
    else if p.sha in quarantined then Refused(ReleaseQuarantined)
    else if p != r.highest then Refused(PointerInvalid)
    else Done(r.(good := Some(p)))
  }

  datatype Fallback = NoFallback | FallBack(p: Pointer) | BadCandidate | BadMetadata

  /** Only a candidate that never left staging may be replaced automatically. */
  function SelectFallback(ctx: Context, r: Record, candidate: Pointer, staging: bool, quarantined: set<Digest>): Fallback {
    if !PointerOk(ctx, candidate, r.highest.generation) || candidate != r.highest then BadCandidate
    else if !staging || r.good == None || r.good.value == candidate || r.good.value.sha in quarantined then NoFallback
    else FallBack(r.good.value)
  }

  // ---------------------------------------------------------------- the ledger

  function AcceptStep(ctx: Context, stored: Option<Record>, p: Pointer, quarantined: set<Digest>): Outcome {
    if stored.Some? && !StateOk(ctx, stored.value) then Refused(MetadataInvalid)
    else AcceptCandidate(ctx, stored, p, quarantined)
  }

  function MarkStep(ctx: Context, stored: Option<Record>, p: Pointer, quarantined: set<Digest>): Outcome {
    if stored == None || !StateOk(ctx, stored.value) then Refused(MetadataInvalid)
    else MarkReleaseActive(ctx, stored.value, p, quarantined)
  }

  function FallbackStep(
    ctx: Context, stored: Option<Record>, candidate: Pointer, staging: bool, quarantined: set<Digest>): Fallback {
    if stored == None then NoFallback
    else if !StateOk(ctx, stored.value) then BadMetadata
    else SelectFallback(ctx, stored.value, candidate, staging, quarantined)
  }

  function Kept(stored: Option<Record>, o: Outcome): Option<Record> { if o.Done? then Some(o.record) else stored }

  /** The ledger of one home; a refused mutation aborts its transaction and stores nothing. */
  class Ledger {
    const ctx: Context
    var stored: Option<Record>

    constructor (ctx: Context)
      ensures this.ctx == ctx && stored == None
    {
      this.ctx := ctx;
      stored := None;
    }

    method Accept(p: Pointer, quarantined: set<Digest>) returns (o: Outcome)
      modifies this`stored
      ensures o == AcceptStep(ctx, old(stored), p, quarantined) && stored == Kept(old(stored), o)
    {
      if stored.Some? && !StateOk(ctx, stored.value) {
        return Refused(MetadataInvalid);
      }
      o := AcceptCandidate(ctx, stored, p, quarantined);
      if o.Done? {
        stored := Some(o.record);
      }
    }

    method MarkActive(p: Pointer, quarantined: set<Digest>) returns (o: Outcome)
      modifies this`stored
      ensures o == MarkStep(ctx, old(stored), p, quarantined) && stored == Kept(old(stored), o)
    {
      if stored == None || !StateOk(ctx, stored.value) {
        return Refused(MetadataInvalid);
      }
      o := MarkReleaseActive(ctx, stored.value, p, quarantined);
      if o.Done? {
        stored := Some(o.record);
      }
    }

    method AutomaticFallback(candidate: Pointer, staging: bool, quarantined: set<Digest>) returns (f: Fallback)
      ensures f == FallbackStep(ctx, stored, candidate, staging, quarantined)
    {
      if stored == None {
        return NoFallback;
      }
      if !StateOk(ctx, stored.value) {
        return BadMetadata;
      }
      f := SelectFallback(ctx, stored.value, candidate, staging, quarantined);
    }
  }

  // ---------------------------------------------------------------- runs

  datatype Event = Accept(p: Pointer, quarantined: set<Digest>) | MarkActive(p: Pointer, quarantined: set<Digest>)

  function Outcomes(ctx: Context, stored: Option<Record>, e: Event): Outcome {
    match e
    case Accept(p, quarantined) => AcceptStep(ctx, stored, p, quarantined)
    case MarkActive(p, quarantined) => MarkStep(ctx, stored, p, quarantined)
  }

  function Run(ctx: Context, events: seq<Event>): Option<Record> {
    if events == [] then None
    else
      var before := Run(ctx, events[..|events| - 1]);
      Kept(before, Outcomes(ctx, before, events[|events| - 1]))
  }

  /** The pointers accepted, and those marked active, in the course of a run. */
  function Accepted(ctx: Context, events: seq<Event>): set<Pointer> {
    if events == [] then {}
    else
      var n := |events| - 1;
      Accepted(ctx, events[..n])
      + if events[n].Accept? && Outcomes(ctx, Run(ctx, events[..n]), events[n]).Done? then {events[n].p} else {}
  }

  function Marked(ctx: Context, events: seq<Event>): set<Pointer> {
    if events == [] then {}
    else
      var n := |events| - 1;
      Marked(ctx, events[..n])
      + if events[n].MarkActive? && Outcomes(ctx, Run(ctx, events[..n]), events[n]).Done? then {events[n].p} else {}
  }

  /** A stored record against the pointers accepted and marked so far. */
  ghost predicate Agrees(ctx: Context, stored: Option<Record>, accepted: set<Pointer>, marked: set<Pointer>) {
    && marked <= accepted
    && (forall p, q :: p in accepted && q in accepted && p.generation == q.generation ==> p == q)
    && (match stored
        case None => accepted == {}
        case Some(r) =>
          && StateOk(ctx, r) && r.highest in accepted
          && (forall p :: p in accepted ==> p.generation <= r.highest.generation)
          && (r.good.Some? <==> marked != {}) && (r.good.Some? ==> r.good.value in marked))
  }

  lemma AcceptAgrees(
    ctx: Context, stored: Option<Record>, accepted: set<Pointer>, marked: set<Pointer>, p: Pointer, quarantined: set<Digest>)
    requires Agrees(ctx, stored, accepted, marked)
    ensures
      var o := AcceptStep(ctx, stored, p, quarantined);
      Agrees(ctx, Kept(stored, o), if o.Done? then accepted + {p} else accepted, marked)
  {
    var o := AcceptStep(ctx, stored, p, quarantined);
    if o.Done? {
      assert stored == None || p == stored.value.highest || p.generation > stored.value.highest.generation;
    }
  }

  lemma MarkAgrees(
    ctx: Context, stored: Option<Record>, accepted: set<Pointer>, marked: set<Pointer>, p: Pointer, quarantined: set<Digest>)
    requires Agrees(ctx, stored, accepted, marked)
    ensures
      var o := MarkStep(ctx, stored, p, quarantined);
      Agrees(ctx, Kept(stored, o), accepted, if o.Done? then marked + {p} else marked)
  {
  }

  ghost predicate Sound(ctx: Context, events: seq<Event>) {
    Agrees(ctx, Run(ctx, events), Accepted(ctx, events), Marked(ctx, events))
  }

  lemma {:induction false} RunSound(ctx: Context, events: seq<Event>)
    ensures Sound(ctx, events)
  {
    if events != [] {
      hide Agrees, AcceptStep, MarkStep, Kept;
      var n := |events| - 1;
      RunSound(ctx, events[..n]);
      var stored, accepted, marked := Run(ctx, events[..n]), Accepted(ctx, events[..n]), Marked(ctx, events[..n]);
      if events[n].Accept? {
        AcceptAgrees(ctx, stored, accepted, marked, events[n].p, events[n].quarantined);
        assert accepted + {} == accepted && marked + {} == marked;
      } else {
        MarkAgrees(ctx, stored, accepted, marked, events[n].p, events[n].quarantined);
        assert accepted + {} == accepted && marked + {} == marked;
      }
    } else {
      assert Agrees(ctx, None, {}, {});
    }
  }

  function Floor(r: Option<Record>): int { if r.Some? then r.value.highest.generation else 0 }

  /** The floor never falls, however the run goes on. */
  lemma {:induction false} FloorNeverFalls(ctx: Context, events: seq<Event>, more: seq<Event>)
    ensures Floor(Run(ctx, events)) <= Floor(Run(ctx, events + more))
    ensures Run(ctx, events).Some? ==> Run(ctx, events + more).Some?
    decreases |more|
  {
    hide Sound;
    if more == [] {
      assert events + more == events;
    } else {
      var m := |more| - 1;
      FloorNeverFalls(ctx, events, more[..m]);
      assert (events + more)[..|events + more| - 1] == events + more[..m];
      RunSound(ctx, events + more[..m]);
      FloorStep(ctx, events + more[..m], more[m]);
      assert (events + more[..m]) + [more[m]] == events + more;
    }
  }

  lemma FloorStep(ctx: Context, events: seq<Event>, e: Event)
    requires Sound(ctx, events)
    ensures Floor(Run(ctx, events)) <= Floor(Run(ctx, events + [e]))
    ensures Run(ctx, events).Some? ==> Run(ctx, events + [e]).Some?
  {
    assert (events + [e])[..|events|] == events;
  }

  /** One generation is never bound to two different pointers. */
  lemma OnePointerPerGeneration(ctx: Context, events: seq<Event>, p: Pointer, q: Pointer)
    requires p in Accepted(ctx, events) && q in Accepted(ctx, events) && p.generation == q.generation
    ensures p == q
  {
    RunSound(ctx, events);
  }

  /** The ledger's own writes always pass its own checks: it refuses for invalid metadata only when nothing was accepted. */
  lemma MetadataAlwaysValid(ctx: Context, events: seq<Event>, e: Event)
    ensures Outcomes(ctx, Run(ctx, events), e) == Refused(MetadataInvalid) ==> e.MarkActive? && Accepted(ctx, events) == {}
  {
    RunSound(ctx, events);
  }

  /** An accepted candidate is exactly a valid, unquarantined one above the floor, or the floor itself again. */
  lemma AcceptedExactly(ctx: Context, events: seq<Event>, p: Pointer, quarantined: set<Digest>)
    ensures AcceptStep(ctx, Run(ctx, events), p, quarantined).Done? <==>
      && PointerOk(ctx, p, 0) && p.sha !in quarantined
      && (p in Accepted(ctx, events) ==> p.generation == Floor(Run(ctx, events)))
      && (p !in Accepted(ctx, events) ==> p.generation > Floor(Run(ctx, events)))
  {
    RunSound(ctx, events);
  }

  /**
   * An automatic fallback is strictly older than the candidate that failed, was marked active earlier
   * in the run, and is not quarantined; there is none once effects may have started, and before that
   * it is found unless nothing was marked active, or the candidate itself or a quarantined one was.
   */
  lemma FallbackIsOlder(ctx: Context, events: seq<Event>, candidate: Pointer, staging: bool, quarantined: set<Digest>)
    ensures
      match FallbackStep(ctx, Run(ctx, events), candidate, staging, quarantined)
      case FallBack(p) =>
        && staging && p.generation < candidate.generation && p in Marked(ctx, events)
        && p.sha !in quarantined && candidate == Run(ctx, events).value.highest
      case BadCandidate => Run(ctx, events).Some? && candidate != Run(ctx, events).value.highest
      case NoFallback =>
        || !staging || Marked(ctx, events) == {} || candidate in Marked(ctx, events)
        || exists p :: p in Marked(ctx, events) && p.sha in quarantined
      case BadMetadata => false
  {
    RunSound(ctx, events);
  }

  /** Accepting raises the floor to the candidate and keeps last-known-good; what is refused for quarantine is otherwise at or above the floor. */
  lemma AcceptWrites(ctx: Context, events: seq<Event>, p: Pointer, quarantined: set<Digest>)
    ensures var before, o := Run(ctx, events), AcceptStep(ctx, Run(ctx, events), p, quarantined);
      && (o.Done? ==>
            && o.record.home == ctx.home && o.record.highest == p
            && o.record.good == (if before.Some? then before.value.good else None))
      && (o == Refused(ReleaseQuarantined) <==>
            PointerOk(ctx, p, 0) && p.generation >= Floor(before) && p.sha in quarantined)
      && o != Refused(MetadataInvalid)
  {
    RunSound(ctx, events);
  }

  /** Only the highest accepted candidate is marked active, unless it is quarantined; it becomes last-known-good and the floor stays. */
  lemma MarkedExactly(ctx: Context, events: seq<Event>, p: Pointer, quarantined: set<Digest>)
    ensures var before, o := Run(ctx, events), MarkStep(ctx, Run(ctx, events), p, quarantined);
      if before == None then o == Refused(MetadataInvalid)
      else if p == before.value.highest && p.sha !in quarantined then o == Done(Record(ctx.home, p, Some(p)))
      else if PointerOk(ctx, p, before.value.highest.generation) && p.sha in quarantined then o == Refused(ReleaseQuarantined)
      else o == Refused(PointerInvalid)
  {
    RunSound(ctx, events);
  }
}
