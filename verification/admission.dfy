/** Admission control: units charged per budget, subject and window, and the ring of audit records. */
module Admission {
  import opened Wire
  import opened Names
  import opened Options

  // ---------------------------------------------------------------- configuration

  /** A budget is named by its position in the list of budgets. */
  type Budget = b: nat | b < BUDGETS
  const BUDGETS := 29
  const AUDIT_EVENTS: Budget := 0
  const SOURCE_OPERATIONS: Budget := 1

  const MAX_SUBJECT_BYTES := 4_096
  const MAX_INTERVAL := 31 * 24 * 60 * 60 * 1_000
  const MAX_UNITS := 1_000_000_000
  const MAX_SAFE := 0x1f_ffff_ffff_ffff

  type Identifier = string
  type Digest = d: bytes | |d| == 32 witness seq(32, _ => 0)

  datatype KeyKind = AuditKey | NetworkKey
  datatype ActorKind = Anonymous | FirebaseUser | HomeKey | AccessToken | UploadCapability
  datatype Domain = SourceDomain | BudgetDomain(budget: Budget) | ActorDomain(kind: ActorKind) | SubjectDomain

  datatype Limit = Limit(maximum: int, window: int)

  datatype Profile = Profile(
    limits: seq<Limit>, auditSlots: int, bucketSlots: int, maximumAuditEventBytes: int,
    auditRetention: int, bucketRetention: int, maximumRetryAfter: int)

  /** The profile, the keyed digest, the key versions and the serialised length of a record. */
  datatype Config = Config(
    profile: Profile, hmac: (KeyKind, Domain, bytes) -> Digest, version: KeyKind -> string, size: Record -> nat)

  predicate ProfileOk(p: Profile) {
    && 64 <= p.auditSlots <= 65_536 && 256 <= p.bucketSlots <= 65_536
    && 512 <= p.maximumAuditEventBytes <= 4_096
    && 60_000 <= p.auditRetention <= MAX_INTERVAL && 60_000 <= p.bucketRetention <= MAX_INTERVAL
    && 1 <= p.maximumRetryAfter <= 300
    && |p.limits| == BUDGETS
    && forall b :: 0 <= b < BUDGETS ==> LimitOk(p, p.limits[b])
  }

  predicate LimitOk(p: Profile, limit: Limit) {
    && 1 <= limit.maximum <= MAX_UNITS
    && 1_000 <= limit.window <= MAX_INTERVAL
    && limit.window <= p.bucketRetention
  }

  /** A configuration the controller's constructor accepts. */
  type Setup = cfg: Config | ProfileOk(cfg.profile)
    witness Config(
      Profile(seq(BUDGETS, _ => Limit(1, 1_000)), 64, 256, 512, 60_000, 60_000, 1),
      (_, _, _) => seq(32, _ => 0), _ => "1", _ => 0)

  function LimitOf(cfg: Setup, budget: Budget): Limit { cfg.profile.limits[budget] }

  // ---------------------------------------------------------------- documents

  /** Whom a bucket counts: a subject of one budget, by its keyed digest. */
  datatype Key = Key(budget: Budget, version: string, digest: Digest)

  datatype Bucket = Bucket(
    slot: nat, key: Key, start: int, end: int, used: int, limit: int,
    saturation: Option<Identifier>, updatedAt: int, expiresAt: int)

  datatype Status = Pending | Ok | Denied | OutcomeUnknown

  datatype Record = Record(
    event: Identifier, request: Identifier, operation: string, status: Status, code: Option<string>,
    home: Option<Identifier>, actorKind: ActorKind, actor: Option<bytes>, subject: Option<bytes>, network: bytes,
    consumed: set<Budget>, createdAt: int, updatedAt: int, expiresAt: int)

  /** The bucket documents, the audit documents and the next audit slot, if it was ever stored. */
  datatype State = State(buckets: map<nat, Bucket>, records: map<nat, Record>, ring: Option<nat>)

  const EMPTY := State(map[], map[], None)

  // ---------------------------------------------------------------- charges

  datatype Charge = Charge(budget: nat, subject: bytes, units: int, keyKind: KeyKind)
  datatype Normalized = Normalized(key: Key, units: int, slot: nat)

  predicate BoundedString(s: bytes) { 1 <= |s| <= MAX_SUBJECT_BYTES && !ContainsControl(s) }

  predicate HomeChar(c: char) { 'a' <= c <= 'z' || '0' <= c <= '9' }

  /** [a-z][a-z0-9-]{1,61}[a-z0-9] */
  predicate HomeId(id: string) {
    && 3 <= |id| <= 63 && 'a' <= id[0] <= 'z' && HomeChar(id[|id| - 1])
    && forall i :: 0 < i < |id| - 1 ==> HomeChar(id[i]) || id[i] == '-'
  }

  function KeyOf(cfg: Config, budget: Budget, subject: bytes, kind: KeyKind): Key {
    Key(budget, cfg.version(kind), cfg.hmac(kind, BudgetDomain(budget), subject))
  }

  function SlotsPerBudget(cfg: Setup): (n: nat)
    ensures n >= 8
  {
    cfg.profile.bucketSlots / BUDGETS
  }

  /** Each budget has its own range of slots; the digest picks one of them. */
  function SlotOf(cfg: Setup, key: Key): nat {
    key.budget * SlotsPerBudget(cfg) + FromBE(key.digest[..4]) % SlotsPerBudget(cfg)
  }

  function IndexOf(charges: seq<Normalized>, key: Key): (i: nat)
    ensures i <= |charges|
    ensures i < |charges| ==> charges[i].key == key
    ensures forall j :: 0 <= j < i ==> charges[j].key != key
  {
    if charges == [] then 0
    else if charges[0].key == key then 0
    else 1 + IndexOf(charges[1..], key)
  }

  /** The key a charge counts against, or None when the charge is refused on its own. */
  function ChargeKey(cfg: Setup, c: Charge): Option<Key> {
    if c.budget < BUDGETS && 1 <= c.units <= LimitOf(cfg, c.budget).maximum && BoundedString(c.subject)
    then Some(KeyOf(cfg, c.budget, c.subject, c.keyKind))
    else None
  }

  /** One turn of the consolidating loop: add the charge to the entry with its key, or append it. */
  function AddCharge(cfg: Setup, acc: seq<Normalized>, c: Charge): Option<seq<Normalized>> {
    match ChargeKey(cfg, c)
    case None => None
    case Some(key) =>
      var i := IndexOf(acc, key);
      var total := (if i < |acc| then acc[i].units else 0) + c.units;
      if total > MAX_SAFE || total > LimitOf(cfg, key.budget).maximum then None
      else if i < |acc| then Some(acc[i := acc[i].(units := total)])
      else Some(acc + [Normalized(key, total, SlotOf(cfg, key))])
  }

  function AddCharges(cfg: Setup, acc: seq<Normalized>, charges: seq<Charge>): Option<seq<Normalized>>
    decreases charges
  {
    if charges == [] then Some(acc)
    else
      match AddCharge(cfg, acc, charges[0])
      case None => None
      case Some(next) => AddCharges(cfg, next, charges[1..])
  }

  function Normalize(cfg: Setup, charges: seq<Charge>): Option<seq<Normalized>> {
    if 1 <= |charges| <= BUDGETS then AddCharges(cfg, [], charges) else None
  }

  // ---------------------------------------------------------------- evaluation

  datatype Evaluation = Evaluation(charge: Normalized, bucket: Bucket, denied: bool, retry: int, canMark: bool)

  function Floor(now: int, window: int): int
    requires window > 0
  {
    now / window * window
  }

  function WindowStart(cfg: Setup, budget: Budget, now: int): int { Floor(now, LimitOf(cfg, budget).window) }

  function RetryAfter(now: int, boundary: int, maximum: int): int {
    var seconds := (boundary - now + 999) / 1_000;
    var capped := if seconds < maximum then seconds else maximum;
    if capped > 1 then capped else 1
  }

  function Fresh(cfg: Setup, c: Normalized, now: int): Bucket {
    var limit := LimitOf(cfg, c.key.budget);
    var start := WindowStart(cfg, c.key.budget, now);
    var end := start + limit.window;
    Bucket(c.slot, c.key, start, end, 0, limit.maximum, None, now, end + cfg.profile.bucketRetention)
  }

  predicate Intact(b: Bucket) {
    && 0 <= b.used <= MAX_UNITS && 1 <= b.limit <= MAX_UNITS && b.used <= b.limit
    && b.start < b.end && b.end - b.start <= MAX_INTERVAL
    && b.start <= b.updatedAt < b.end
    && b.end < b.expiresAt && b.expiresAt - b.end <= MAX_INTERVAL
  }

  predicate MatchesProfile(cfg: Setup, b: Bucket) {
    var limit := LimitOf(cfg, b.key.budget);
    && b.start % limit.window == 0 && b.end - b.start == limit.window
    && b.limit == limit.maximum
    && b.expiresAt == b.end + cfg.profile.bucketRetention
  }

  /** None is the failure that aborts the transaction. */
  function EvaluateBucket(cfg: Setup, buckets: map<nat, Bucket>, c: Normalized, now: int): Option<Evaluation> {
    var renewed := Fresh(cfg, c, now);
    if c.slot !in buckets then Some(Evaluation(c, renewed, false, 1, false))
    else
      var b := buckets[c.slot];
      if b.slot != c.slot || !Intact(b) then None
      else if b.end <= now then Some(Evaluation(c, renewed, false, 1, false))
      else if !MatchesProfile(cfg, b) then None
      else
        var retry := RetryAfter(now, b.end, cfg.profile.maximumRetryAfter);
        if b.key != c.key then Some(Evaluation(c, b, true, retry, false))
        else if b.start != renewed.start || b.end != renewed.end || b.limit != renewed.limit then None
        else
          var denied := b.used + c.units > renewed.limit;
          Some(Evaluation(c, b, denied, retry, denied && b.saturation == None))
  }

  /** Two subjects of one call that hash to the same document. */
  predicate Conflict(charges: seq<Normalized>) {
    exists i, j :: 0 <= i < j < |charges| && charges[i].slot == charges[j].slot && charges[i].key != charges[j].key
  }

  function EvaluateEach(
    cfg: Setup, buckets: map<nat, Bucket>, charges: seq<Normalized>, now: int): (r: Option<seq<Evaluation>>)
  {
    if charges == [] then Some([])
    else
      var n := |charges| - 1;
      match (EvaluateEach(cfg, buckets, charges[..n], now), EvaluateBucket(cfg, buckets, charges[n], now))
      case (Some(before), Some(last)) => Some(before + [last])
      case _ => None
  }

  function DeniedAll(cfg: Setup, charges: seq<Normalized>, now: int): seq<Evaluation> {
    seq(|charges|, i requires 0 <= i < |charges| =>
      Evaluation(charges[i], Fresh(cfg, charges[i], now), true, cfg.profile.maximumRetryAfter, false))
  }

  function Evaluate(
    cfg: Setup, buckets: map<nat, Bucket>, charges: seq<Normalized>, now: int): Option<seq<Evaluation>>
  {
    if Conflict(charges) then Some(DeniedAll(cfg, charges, now)) else EvaluateEach(cfg, buckets, charges, now)
  }

  predicate AnyDenied(evals: seq<Evaluation>) { exists i :: 0 <= i < |evals| && evals[i].denied }

  /** The longest wait any denied charge asks for. */
  function LongestRetry(evals: seq<Evaluation>): int {
    if evals == [] then 0
    else
      var n := |evals| - 1;
      var before := LongestRetry(evals[..n]);
      if evals[n].denied && evals[n].retry > before then evals[n].retry else before
  }

  // ---------------------------------------------------------------- bucket writes

  function Charged(buckets: map<nat, Bucket>, e: Evaluation, now: int): map<nat, Bucket> {
    buckets[e.charge.slot := e.bucket.(used := e.bucket.used + e.charge.units, updatedAt := now)]
  }

  function Marked(buckets: map<nat, Bucket>, e: Evaluation, event: Identifier, now: int): map<nat, Bucket> {
    if e.denied && e.canMark
    then buckets[e.charge.slot := e.bucket.(saturation := Some(event), updatedAt := now)]
    else buckets
  }

  function ChargedAll(buckets: map<nat, Bucket>, evals: seq<Evaluation>, now: int): map<nat, Bucket> {
    if evals == [] then buckets
    else Charged(ChargedAll(buckets, evals[..|evals| - 1], now), evals[|evals| - 1], now)
  }

  function MarkedAll(
    buckets: map<nat, Bucket>, evals: seq<Evaluation>, event: Identifier, now: int): map<nat, Bucket>
  {
    if evals == [] then buckets
    else Marked(MarkedAll(buckets, evals[..|evals| - 1], event, now), evals[|evals| - 1], event, now)
  }

  // ---------------------------------------------------------------- audit records

  predicate RecordOk(r: Record) {
    && (r.status in {Pending, Ok} <==> r.code == None)
    && (r.actorKind == Anonymous <==> r.actor == None)
    && r.createdAt <= r.updatedAt < r.expiresAt
  }

  predicate SizeOk(cfg: Setup, r: Record) { cfg.size(r) <= cfg.profile.maximumAuditEventBytes }

  datatype Allocation = Allocated(slot: nat) | RingBusy | RingBroken

  function AllocateAudit(cfg: Setup, st: State, now: int): Allocation {
    var next := if st.ring.Some? then st.ring.value else 0;
    if next >= cfg.profile.auditSlots then RingBroken
    else if next !in st.records then Allocated(next)
    else if !RecordOk(st.records[next]) then RingBroken
    else if st.records[next].status == Pending && st.records[next].expiresAt > now then RingBusy
    else Allocated(next)
  }

  function NextSlot(cfg: Setup, slot: nat): nat { (slot + 1) % cfg.profile.auditSlots }

  datatype OpenInput = OpenInput(event: Identifier, request: Identifier, operation: string, source: bytes)

  function NewRecord(
    cfg: Setup, input: OpenInput, status: Status, code: Option<string>, consumed: set<Budget>, now: int): Record
  {
    Record(
      input.event, input.request, input.operation, status, code, None, Anonymous, None, None,
      cfg.hmac(NetworkKey, SourceDomain, input.source)[..16], consumed, now, now, now + cfg.profile.auditRetention)
  }

  // ---------------------------------------------------------------- transactions

  datatype Reply =
    | Ticket(slot: nat) | Admitted | Finished
    | RateLimited(retry: int) | Unavailable | Misuse

  datatype Context = Context(
    actorKind: ActorKind, actor: Option<bytes>, home: Option<Identifier>, subject: Option<bytes>)

  datatype Call =
    | Open(input: OpenInput)
    | Consume(slot: nat, event: Identifier, charges: seq<Charge>)
    | Finish(slot: nat, event: Identifier, outcome: Status, code: Option<string>, context: Context)

  function OpenCharges(source: bytes): seq<Charge> {
    [Charge(AUDIT_EVENTS, GLOBAL, 1, AuditKey), Charge(SOURCE_OPERATIONS, source, 1, NetworkKey)]
  }

  /** The subject "global". */
  const GLOBAL: bytes := [0x67, 0x6c, 0x6f, 0x62, 0x61, 0x6c]

  function FindAudit(evals: seq<Evaluation>): Option<Evaluation> {
    if evals == [] then None
    else if evals[0].charge.key.budget == AUDIT_EVENTS then Some(evals[0])
    else FindAudit(evals[1..])
  }

  function BudgetsOf(evals: seq<Evaluation>): set<Budget> {
    set i | 0 <= i < |evals| :: evals[i].charge.key.budget
  }

  function OpenDenied(
    cfg: Setup, st: State, input: OpenInput, evals: seq<Evaluation>, audit: Evaluation, now: int): (State, Reply)
  {
    var reply := RateLimited(LongestRetry(evals));
    var marked := MarkedAll(st.buckets, evals, input.event, now);
    if audit.denied && !audit.canMark then (st.(buckets := marked), reply)
    else
      match AllocateAudit(cfg, st, now)
      case RingBusy => (st, RateLimited(cfg.profile.maximumRetryAfter))
      case RingBroken => (st, Unavailable)
      case Allocated(slot) =>
        var consumed := if audit.denied then {} else {AUDIT_EVENTS};
        var r := NewRecord(cfg, input, Denied, Some("rate_limited"), consumed, now);
        if !SizeOk(cfg, r) then (st, Unavailable)
        else
          var buckets := if audit.denied then marked else Charged(marked, audit, now);
          (State(buckets, st.records[slot := r], Some(NextSlot(cfg, slot))), reply)
  }

  function OpenAllowed(
    cfg: Setup, st: State, input: OpenInput, evals: seq<Evaluation>, now: int): (State, Reply)
  {
    match AllocateAudit(cfg, st, now)
    case RingBusy => (st, RateLimited(cfg.profile.maximumRetryAfter))
    case RingBroken => (st, Unavailable)
    case Allocated(slot) =>
      var r := NewRecord(cfg, input, Pending, None, BudgetsOf(evals), now);
      if !SizeOk(cfg, r) then (st, Unavailable)
      else
        (State(ChargedAll(st.buckets, evals, now), st.records[slot := r], Some(NextSlot(cfg, slot))), Ticket(slot))
  }

  function OpenStep(cfg: Setup, st: State, input: OpenInput, now: int): (State, Reply) {
    match Normalize(cfg, OpenCharges(input.source))
    case None => (st, Misuse)
    case Some(charges) =>
      match Evaluate(cfg, st.buckets, charges, now)
      case None => (st, Unavailable)
      case Some(evals) =>
        match FindAudit(evals)
        case None => (st, Unavailable)
        case Some(audit) =>
          if AnyDenied(evals) then OpenDenied(cfg, st, input, evals, audit, now)
          else OpenAllowed(cfg, st, input, evals, now)
  }

  /** The record a ticket still has to be pending under. */
  predicate Live(st: State, slot: nat, event: Identifier) {
    && slot in st.records && RecordOk(st.records[slot])
    && st.records[slot].event == event && st.records[slot].status == Pending
  }

  function ConsumeStep(
    cfg: Setup, st: State, slot: nat, event: Identifier, charges: seq<Charge>, now: int): (State, Reply)
  {
    match Normalize(cfg, charges)
    case None => (st, Misuse)
    case Some(normal) =>
      match Evaluate(cfg, st.buckets, normal, now)
      case None => (st, Unavailable)
      case Some(evals) =>
        if !Live(st, slot, event) then (st, Unavailable)
        else if AnyDenied(evals) then
          (st.(buckets := MarkedAll(st.buckets, evals, event, now)), RateLimited(LongestRetry(evals)))
        else
          var r := st.records[slot];
          var next := r.(consumed := r.consumed + BudgetsOf(evals), updatedAt := now);
          if !SizeOk(cfg, next) then (st, Unavailable)
          else (State(ChargedAll(st.buckets, evals, now), st.records[slot := next], st.ring), Admitted)
  }

  function FinishedRecord(
    cfg: Setup, r: Record, outcome: Status, code: Option<string>, context: Context, now: int): Record
  {
    var actor := match context.actor
      case None => None
      case Some(identifier) => Some(cfg.hmac(AuditKey, ActorDomain(context.actorKind), identifier)[..16]);
    var subject := match context.subject
      case None => None
      case Some(identifier) => Some(cfg.hmac(AuditKey, SubjectDomain, identifier)[..16]);
    r.(
      status := outcome, code := code, home := context.home, actorKind := context.actorKind, actor := actor,
      subject := subject, updatedAt := now)
  }

  function FinishStep(
    cfg: Setup, st: State, slot: nat, event: Identifier, outcome: Status, code: Option<string>, context: Context,
    now: int): (State, Reply)
  {
    if outcome == Pending || (outcome == Ok) != (code == None) then (st, Misuse)
    else if slot !in st.records || !RecordOk(st.records[slot]) || st.records[slot].event != event
    then (st, Unavailable)
    else
      var r := st.records[slot];
      if r.status != Pending then (st, if r.status == outcome && r.code == code then Finished else Unavailable)
      else
        var next := FinishedRecord(cfg, r, outcome, code, context, now);
        if !SizeOk(cfg, next) then (st, Unavailable)
        else (st.(records := st.records[slot := next]), Finished)
  }

  function Step(cfg: Setup, st: State, call: Call, now: int): (State, Reply) {
    match call
    case Open(input) => OpenStep(cfg, st, input, now)
    case Consume(slot, event, charges) => ConsumeStep(cfg, st, slot, event, charges, now)
    case Finish(slot, event, outcome, code, context) => FinishStep(cfg, st, slot, event, outcome, code, context, now)
  }
}
