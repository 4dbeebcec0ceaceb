/** Push destinations and push grants: the documents and the transactions that rewrite them. */
module Push {
  import opened Wire
  import opened Options
  import opened Retention

  const MAX_ACTIVE_CHALLENGES := 4
  const MAX_ACTIVE_DESTINATIONS := 16
  const MAX_RETAINED_GRANTS := 256
  const CHALLENGE_TTL := 5 * 60 * 1_000
  const GRANT_TTL := 180 * 24 * 60 * 60 * 1_000

  type Id = bytes
  type Uid = string
  type HomeId = string
  type Digest = bytes

  /** Which key versions exist, and the keyed digests of a proof and of a device identifier. */
  datatype Keys = Keys(
    known: string -> bool, verifier: (string, Uid, string, Id, bytes) -> Digest, fingerprint: (string, bytes) -> Digest)

  datatype ChallengeStatus = Pending | Consumed

  datatype Challenge = Challenge(
    app: string, fid: bytes, fingerprint: Digest, verifier: Digest, version: string, status: ChallengeStatus,
    destination: Option<Id>, createdAt: int, expiresAt: int, consumedAt: Option<int>)

  datatype Destination = Destination(fid: bytes, fingerprint: Digest, app: string, createdAt: int, updatedAt: int)

  datatype GrantStatus = Active | Revoked

  datatype Grant = Grant(destination: Id, status: GrantStatus, createdAt: int, expiresAt: int, revokedAt: Option<int>)

  datatype IndexEntry = IndexEntry(home: HomeId, owner: Uid, destination: Id, status: GrantStatus, createdAt: int)

  /** A user's destination counter and the two collections beside it. */
  datatype User = User(count: nat, destinations: map<Id, Destination>, challenges: map<Id, Challenge>)

  /** The counter and the grant records of one user in one home. */
  datatype Registry = Registry(count: nat, records: map<Id, Grant>)

  datatype Owner = Owner(uid: Uid, home: HomeId)

  datatype State = State(
    homes: set<HomeId>, users: map<Uid, User>, registries: map<Owner, Registry>, index: map<Id, IndexEntry>)

  /** A document that does not exist counts zero. */
  function UserOf(st: State, uid: Uid): User {
    if uid in st.users then st.users[uid] else User(0, map[], map[])
  }

  function RegistryOf(st: State, o: Owner): Registry {
    if o in st.registries then st.registries[o] else Registry(0, map[])
  }

  function Start(homes: set<HomeId>): State { State(homes, map[], map[], map[]) }

  // ---------------------------------------------------------------- stored documents

  predicate ChallengeOk(c: Challenge) {
    && c.createdAt < c.expiresAt
    && (c.status == Pending <==> c.destination == None) && (c.status == Pending <==> c.consumedAt == None)
  }

  predicate DestinationOk(d: Destination) { d.createdAt <= d.updatedAt }

  predicate GrantOk(g: Grant) { g.createdAt < g.expiresAt && (g.status == Active <==> g.revokedAt == None) }

  predicate DestinationsReconciled(u: User) {
    && |u.destinations| <= MAX_ACTIVE_DESTINATIONS && |u.destinations| == u.count
    && forall d :: d in u.destinations ==> DestinationOk(u.destinations[d])
  }

  predicate ChallengesOk(u: User) {
    |u.challenges| <= MAX_ACTIVE_CHALLENGES && forall c :: c in u.challenges ==> ChallengeOk(u.challenges[c])
  }

  predicate ActiveAt(records: map<Id, Grant>, id: Id) { id in records && records[id].status == Active }

  /** No destination has two active grants. */
  predicate OneActive(records: map<Id, Grant>) {
    forall a, b | a in records && b in records ::
      (ActiveAt(records, a) && ActiveAt(records, b) && records[a].destination == records[b].destination) ==> a == b
  }

  predicate GrantsReconciled(r: Registry) {
    && |r.records| <= MAX_RETAINED_GRANTS && |r.records| == r.count
    && (forall g :: g in r.records ==> GrantOk(r.records[g]))
    && OneActive(r.records)
  }

  function EntryFor(o: Owner, g: Grant): IndexEntry {
    IndexEntry(o.home, o.uid, g.destination, g.status, g.createdAt)
  }

  /** The index entry agrees with the grant in everything but its timestamp, which is not compared. */
  predicate Indexed(index: map<Id, IndexEntry>, o: Owner, id: Id, g: Grant) {
    id in index && index[id].(createdAt := g.createdAt) == EntryFor(o, g)
  }

  // ---------------------------------------------------------------- replies

  datatype Error = Unavailable | LimitExceeded | InvalidProof | InvalidGrant | HomeNotFound | Collision

  datatype Reply =
    | Issued(expiresAt: int)
    | Registered(id: Id, destination: Destination)
    | Granted(id: Id, grant: Grant)
    | Authorized(id: Id, fid: bytes)
    | Done
    | Failed(error: Error)

  // ---------------------------------------------------------------- challenges and destinations

  datatype IssueInput = IssueInput(uid: Uid, app: string, fid: bytes, id: Id, secret: bytes, version: string)

  predicate Live(c: Challenge, now: int) { c.status == Pending && c.expiresAt > now }

  function LiveChallenges(u: User, now: int): map<Id, Challenge> {
    map c | c in u.challenges && Live(u.challenges[c], now) :: u.challenges[c]
  }

  function NewChallenge(keys: Keys, input: IssueInput, now: int): Challenge {
    Challenge(
      input.app, input.fid, keys.fingerprint(input.version, input.fid),
      keys.verifier(input.version, input.uid, input.app, input.id, input.secret), input.version,
      Pending, None, now, now + CHALLENGE_TTL, None)
  }

  function IssueStep(keys: Keys, st: State, input: IssueInput, now: int): (State, Reply) {
    var user := UserOf(st, input.uid);
    if !keys.known(input.version) || !ChallengesOk(user) then (st, Failed(Unavailable))
    else
      var issued := NewChallenge(keys, input, now);
      if input.id in user.challenges then
        var stored := user.challenges[input.id];
        (st, if stored == issued.(createdAt := stored.createdAt) then Issued(stored.expiresAt) else Failed(Collision))
      else
        var live := LiveChallenges(user, now);
        if |live| >= MAX_ACTIVE_CHALLENGES then (st, Failed(LimitExceeded))
        else
          (st.(users := st.users[input.uid := user.(challenges := live[input.id := issued])]), Issued(issued.expiresAt))
  }

  /** The proof the challenge was issued for, by the same user and application, in time. */
  predicate Proved(keys: Keys, c: Challenge, uid: Uid, app: string, id: Id, secret: bytes, now: int) {
    && c.app == app && now < c.expiresAt
    && keys.verifier(c.version, uid, app, id, secret) == c.verifier
    && keys.fingerprint(c.version, c.fid) == c.fingerprint
  }

  function CompleteStep(
    keys: Keys, st: State, uid: Uid, app: string, id: Id, secret: bytes, destination: Id, now: int): (State, Reply)
  {
    var user := UserOf(st, uid);
    if !DestinationsReconciled(user) then (st, Failed(Unavailable))
    else if id !in user.challenges then (st, Failed(InvalidProof))
    else
      var c := user.challenges[id];
      if !ChallengeOk(c) then (st, Failed(Unavailable))
      else if c.status == Consumed then
        (st,
         if c.destination == Some(destination) && destination in user.destinations
         then Registered(destination, user.destinations[destination])
         else Failed(InvalidProof))
      else if !keys.known(c.version) then (st, Failed(Unavailable))
      else if !Proved(keys, c, uid, app, id, secret, now) then (st, Failed(InvalidProof))
      else if destination in user.destinations then (st, Failed(Collision))
      else if user.count >= MAX_ACTIVE_DESTINATIONS then (st, Failed(LimitExceeded))
      else
        var d := Destination(c.fid, c.fingerprint, app, now, now);
        var consumed := c.(status := Consumed, destination := Some(destination), consumedAt := Some(now));
        var next := User(user.count + 1, user.destinations[destination := d], user.challenges[id := consumed]);
        (st.(users := st.users[uid := next]), Registered(destination, d))
  }

  function DeleteStep(st: State, uid: Uid, id: Id): (State, Reply) {
    var user := UserOf(st, uid);
    if !DestinationsReconciled(user) then (st, Failed(Unavailable))
    else if id !in user.destinations then (st, Done)
    else if user.count == 0 then (st, Failed(Unavailable))
    else (st.(users := st.users[uid := user.(count := user.count - 1, destinations := user.destinations - {id})]), Done)
  }

  // ---------------------------------------------------------------- grants

  predicate Compactable(g: Grant, current: set<Id>, now: int) {
    g.status == Revoked || g.expiresAt <= now || g.destination !in current
  }

  function StampOf(records: map<Id, Grant>, id: Id): Stamp
    requires id in records
  {
    Stamp(records[id].createdAt, id)
  }

  function Candidates(records: map<Id, Grant>, current: set<Id>, now: int): set<Stamp> {
    set id | id in records && Compactable(records[id], current, now) :: StampOf(records, id)
  }

  predicate ActiveFor(records: map<Id, Grant>, destination: Id, id: Id) {
    id in records && records[id].status == Active && records[id].destination == destination
  }

  ghost function Previous(records: map<Id, Grant>, destination: Id): Option<Id> {
    if exists id :: ActiveFor(records, destination, id)
    then var id :| ActiveFor(records, destination, id); Some(id)
    else None
  }

  ghost function Compacted(r: Registry, current: set<Id>, now: int): Option<Id> {
    if r.count < MAX_RETAINED_GRANTS then None
    else
      match Oldest(Candidates(r.records, current, now))
      case None => None
      case Some(s) => Some(s.id)
  }

  function Dropped<V>(m: map<Id, V>, id: Option<Id>): map<Id, V> {
    if id.Some? then m - {id.value} else m
  }

  function RevokeRecord(records: map<Id, Grant>, id: Option<Id>, now: int): map<Id, Grant> {
    if id.Some? && id.value in records
    then records[id.value := records[id.value].(status := Revoked, revokedAt := Some(now))]
    else records
  }

  function RevokeEntry(index: map<Id, IndexEntry>, id: Option<Id>): map<Id, IndexEntry> {
    if id.Some? && id.value in index then index[id.value := index[id.value].(status := Revoked)] else index
  }

  function NewGrant(destination: Id, now: int): Grant { Grant(destination, Active, now, now + GRANT_TTL, None) }

  /** Drop the compacted grant, revoke the previous one unless it was that one, add the new one. */
  function WithGrant(
    st: State, o: Owner, r: Registry, id: Id, destination: Id, previous: Option<Id>, compacted: Option<Id>, now: int): State
  {
    var g := NewGrant(destination, now);
    var superseded := if previous == compacted then None else previous;
    var records := RevokeRecord(Dropped(r.records, compacted), superseded, now)[id := g];
    var index := RevokeEntry(Dropped(st.index, compacted), superseded)[id := EntryFor(o, g)];
    var count := if compacted == None then r.count + 1 else r.count;
    st.(registries := st.registries[o := Registry(count, records)], index := index)
  }

  predicate IndexedIfAny(st: State, o: Owner, r: Registry, id: Option<Id>) {
    id.Some? && id.value in r.records ==> Indexed(st.index, o, id.value, r.records[id.value])
  }

  ghost function CreateGrantStep(st: State, o: Owner, destination: Id, id: Id, now: int): (State, Reply) {
    var user, r := UserOf(st, o.uid), RegistryOf(st, o);
    if o.home !in st.homes then (st, Failed(HomeNotFound))
    else if !DestinationsReconciled(user) then (st, Failed(Unavailable))
    else if destination !in user.destinations then (st, Failed(InvalidGrant))
    else if !GrantsReconciled(r) then (st, Failed(Unavailable))
    else if id in r.records || id in st.index then
      if id !in r.records || id !in st.index then (st, Failed(Collision))
      else if !Indexed(st.index, o, id, r.records[id]) then (st, Failed(Unavailable))
      else (st, if r.records[id] == NewGrant(destination, now) then Granted(id, r.records[id]) else Failed(Collision))
    else
      var previous := Previous(r.records, destination);
      var compacted := Compacted(r, user.destinations.Keys, now);
      if r.count >= MAX_RETAINED_GRANTS && compacted == None then (st, Failed(LimitExceeded))
      else if !IndexedIfAny(st, o, r, previous) || !IndexedIfAny(st, o, r, compacted) then (st, Failed(Unavailable))
      else (WithGrant(st, o, r, id, destination, previous, compacted, now), Granted(id, NewGrant(destination, now)))
  }

  function RevokeGrantStep(st: State, o: Owner, id: Id, now: int): (State, Reply) {
    var r := RegistryOf(st, o);
    if id !in r.records then (st, Done)
    else
      var g := r.records[id];
      if !GrantOk(g) || !Indexed(st.index, o, id, g) then (st, Failed(Unavailable))
      else if g.status == Revoked then (st, Done)
      else
        (st.(registries := st.registries[o := r.(records := RevokeRecord(r.records, Some(id), now))],
             index := RevokeEntry(st.index, Some(id))), Done)
  }

  /** Read only: the destination a grant lets its home push to. */
  function AuthorizeStep(st: State, home: HomeId, id: Id, now: int): Reply {
    if id !in st.index then Failed(InvalidGrant)
    else
      var e := st.index[id];
      if e.home != home || |e.owner| == 0 || |e.owner| > 128 || e.status != Active then Failed(InvalidGrant)
      else
        var o := Owner(e.owner, e.home);
        var r, user := RegistryOf(st, o), UserOf(st, e.owner);
        if id !in r.records then Failed(InvalidGrant)
        else
          var g := r.records[id];
          if !GrantOk(g) || !Indexed(st.index, o, id, g) then Failed(Unavailable)
          else if g.status != Active || g.expiresAt <= now then Failed(InvalidGrant)
          else if g.destination !in user.destinations then Failed(InvalidGrant)
          else if !DestinationOk(user.destinations[g.destination]) then Failed(Unavailable)
          else Authorized(g.destination, user.destinations[g.destination].fid)
  }

  // ---------------------------------------------------------------- runs

  datatype Call =
    | IssueChallenge(input: IssueInput)
    | CompleteChallenge(uid: Uid, app: string, challenge: Id, secret: bytes, destination: Id)
    | DeleteDestination(uid: Uid, destination: Id)
    | CreateGrant(o: Owner, destination: Id, grant: Id)
    | RevokeGrant(o: Owner, grant: Id)
    | AuthorizePush(home: HomeId, grant: Id)

  /** One committed transaction; `now` is the clock its call sampled. */
  datatype Event = Event(call: Call, now: int)

  ghost function Step(keys: Keys, st: State, e: Event): (State, Reply) {
    match e.call
    case IssueChallenge(input) => IssueStep(keys, st, input, e.now)
    case CompleteChallenge(uid, app, challenge, secret, destination) =>
      CompleteStep(keys, st, uid, app, challenge, secret, destination, e.now)
    case DeleteDestination(uid, destination) => DeleteStep(st, uid, destination)
    case CreateGrant(o, destination, grant) => CreateGrantStep(st, o, destination, grant, e.now)
    case RevokeGrant(o, grant) => RevokeGrantStep(st, o, grant, e.now)
    case AuthorizePush(home, grant) => (st, AuthorizeStep(st, home, grant, e.now))
  }

  ghost function Run(keys: Keys, st: State, events: seq<Event>): State
    decreases |events|
  {
    if events == [] then st
    else Step(keys, Run(keys, st, events[..|events| - 1]), events[|events| - 1]).0
  }
}
