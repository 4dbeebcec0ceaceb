/** Homes, Home Keys and pairing codes: the documents and the transactions that rewrite them. */
module HomeKeys {
  import opened Wire
  import opened Options
  import opened Retention

  const MAX_OWNED_HOMES := 16
  const MAX_ACTIVE_HOME_KEYS := 64
  const MAX_RETAINED_HOME_KEYS := 64
  const PAIRING_CODE_LIFETIME := 10 * 60 * 1_000
  const TOKEN_LIFETIME_SECONDS := 300

  type Id = bytes
  type Uid = string
  type HomeId = string
  type Lookup = bytes
  type Digest = bytes

  datatype Scope = RelayCoordinator | RelayCli | PushSend | ComponentsPublish

  const ALL_SCOPES := [RelayCoordinator, RelayCli, PushSend, ComponentsPublish]

  predicate ScopesOk(s: seq<Scope>) { 1 <= |s| <= 4 && forall i, j :: 0 <= i < j < |s| ==> s[i] != s[j] }

  /** A parsed list of scopes. */
  type Scopes = s: seq<Scope> | ScopesOk(s) witness [RelayCli]

  /** A generated Home Key: its public identifier and its secret. */
  datatype HomeKey = HomeKey(id: Id, secret: bytes)

  /** Which pepper versions exist, and the keyed digest that stands for a key. */
  datatype Peppers = Peppers(known: string -> bool, verifier: (string, HomeKey) -> Digest)

  datatype KeyStatus = Active | Revoked

  datatype KeyRecord = KeyRecord(
    verifier: Digest, version: string, name: string, scopes: seq<Scope>, status: KeyStatus, createdAt: int, createdBy: Uid,
    revokedAt: Option<int>, lastUsedAt: Option<int>, lastIssuance: Option<Id>)

  datatype Home = Home(owner: Uid, active: int, retained: int, keys: map<Id, KeyRecord>)

  datatype KeyEntry = KeyEntry(home: HomeId, status: KeyStatus)

  datatype CodeStatus = Pending | Redeemed

  datatype Code = Code(
    home: HomeId, createdBy: Uid, status: CodeStatus, createdAt: int, expiresAt: int, redeemedAt: Option<int>, key: Option<Id>)

  datatype State = State(
    owners: map<Uid, nat>, homes: map<HomeId, Home>, index: map<Id, KeyEntry>, codes: map<Lookup, Code>)

  const EMPTY := State(map[], map[], map[], map[])

  // ---------------------------------------------------------------- stored documents

  predicate RecordOk(k: KeyRecord) { ScopesOk(k.scopes) && (k.status == Active <==> k.revokedAt == None) }

  function ActiveKeys(keys: map<Id, KeyRecord>): set<Id> { set id | id in keys && keys[id].status == Active }

  predicate Reconciled(h: Home) {
    && |h.keys| <= MAX_RETAINED_HOME_KEYS && |h.keys| == h.retained
    && h.active <= MAX_ACTIVE_HOME_KEYS && h.retained <= MAX_RETAINED_HOME_KEYS
    && (forall id :: id in h.keys ==> RecordOk(h.keys[id]))
    && |ActiveKeys(h.keys)| == h.active
  }

  predicate Indexed(index: map<Id, KeyEntry>, home: HomeId, id: Id, status: KeyStatus) {
    id in index && index[id] == KeyEntry(home, status)
  }

  function KeysOf(st: State, home: HomeId): map<Id, KeyRecord> {
    if home in st.homes then st.homes[home].keys else map[]
  }

  // ---------------------------------------------------------------- replies

  datatype Error =
    | Unavailable | LimitExceeded | HomeExists | HomeNotFound | NotHomeOwner
    | InvalidHomeKey | InvalidPairingCode | InsufficientScope | Collision

  datatype Reply =
    | Done
    | Created(id: Id, record: KeyRecord)
    | Granted(home: HomeId, id: Id, scope: Scope)
    | Paired(home: HomeId, id: Id)
    | Failed(error: Error)

  // ---------------------------------------------------------------- homes

  function OwnedHomes(homes: map<HomeId, Home>, uid: Uid): set<HomeId> { set h | h in homes && homes[h].owner == uid }

  function OwnedCount(owners: map<Uid, nat>, uid: Uid): nat { if uid in owners then owners[uid] else 0 }

  function CreateHomeStep(st: State, uid: Uid, home: HomeId): (State, Reply) {
    var owned, count := |OwnedHomes(st.homes, uid)|, OwnedCount(st.owners, uid);
    if home in st.homes then (st, Failed(HomeExists))
    else if owned != count || owned > MAX_OWNED_HOMES then (st, Failed(Unavailable))
    else if count >= MAX_OWNED_HOMES then (st, Failed(LimitExceeded))
    else (st.(owners := st.owners[uid := count + 1], homes := st.homes[home := Home(uid, 0, 0, map[])]), Done)
  }

  // ---------------------------------------------------------------- staging a key

  /** What a new key record says. */
  datatype NewKey = NewKey(key: HomeKey, name: string, scopes: Scopes, createdBy: Uid, version: string)

  function NewRecord(p: Peppers, n: NewKey, now: int): KeyRecord {
    KeyRecord(
      p.verifier(n.version, n.key), n.version, n.name, n.scopes, Active, now, n.createdBy, None, None, None)
  }

  function StampOf(keys: map<Id, KeyRecord>, id: Id): Stamp
    requires id in keys
  {
    Stamp(keys[id].createdAt, id)
  }

  function RevokedStamps(keys: map<Id, KeyRecord>): set<Stamp> {
    set id | id in keys && keys[id].status == Revoked :: StampOf(keys, id)
  }

  ghost function Compacted(h: Home): Option<Id> {
    if h.retained < MAX_RETAINED_HOME_KEYS then None
    else
      match Oldest(RevokedStamps(h.keys))
      case None => None
      case Some(s) => Some(s.id)
  }

  /** The replay of a commit this call already made: the same key under the same identifier. */
  predicate SameKey(p: Peppers, k: KeyRecord, n: NewKey) {
    && k.status == Active && k.verifier == p.verifier(n.version, n.key) && k.version == n.version
    && k.createdBy == n.createdBy && k.name == n.name && k.scopes == n.scopes
  }

  datatype Staged = Refused(error: Error) | Existing(record: KeyRecord) | Fresh(compacted: Option<Id>)

  ghost function Stage(p: Peppers, st: State, home: HomeId, h: Home, n: NewKey): Staged {
    var id := n.key.id;
    if !Reconciled(h) then Refused(Unavailable)
    else if id in h.keys || id in st.index then
      if id !in h.keys then Refused(Collision)
      else if !Indexed(st.index, home, id, h.keys[id].status) then Refused(Unavailable)
      else if SameKey(p, h.keys[id], n) then Existing(h.keys[id])
      else Refused(Collision)
    else if h.active >= MAX_ACTIVE_HOME_KEYS then Refused(LimitExceeded)
    else
      var compacted := Compacted(h);
      if h.retained >= MAX_RETAINED_HOME_KEYS && compacted == None then Refused(LimitExceeded)
      else if compacted.Some? && !Indexed(st.index, home, compacted.value, Revoked) then Refused(Unavailable)
      else Fresh(compacted)
  }

  function Without<V>(m: map<Id, V>, id: Option<Id>): map<Id, V> {
    if id.Some? then m - {id.value} else m
  }

  function WithKey(p: Peppers, st: State, home: HomeId, h: Home, n: NewKey, compacted: Option<Id>, now: int): State {
    var id := n.key.id;
    var keys := Without(h.keys, compacted)[id := NewRecord(p, n, now)];
    var next := h.(active := h.active + 1, retained := if compacted == None then h.retained + 1 else h.retained, keys := keys);
    st.(homes := st.homes[home := next], index := Without(st.index, compacted)[id := KeyEntry(home, Active)])
  }

  ghost function CreateKeyStep(p: Peppers, st: State, uid: Uid, home: HomeId, n: NewKey, now: int): (State, Reply) {
    if !p.known(n.version) then (st, Failed(Unavailable))
    else if home !in st.homes then (st, Failed(HomeNotFound))
    else if st.homes[home].owner != uid then (st, Failed(NotHomeOwner))
    else
      var h := st.homes[home];
      var owned := n.(createdBy := uid);
      match Stage(p, st, home, h, owned)
      case Refused(error) => (st, Failed(error))
      case Existing(record) => (st, Created(n.key.id, record))
      case Fresh(compacted) => (WithKey(p, st, home, h, owned, compacted, now), Created(n.key.id, NewRecord(p, owned, now)))
  }

  function RevokeKeyStep(st: State, uid: Uid, home: HomeId, id: Id, now: int): (State, Reply) {
    if home !in st.homes then (st, Failed(HomeNotFound))
    else if st.homes[home].owner != uid then (st, Failed(NotHomeOwner))
    else
      var h := st.homes[home];
      if !Reconciled(h) then (st, Failed(Unavailable))
      else if id !in h.keys || h.keys[id].status == Revoked then (st, Done)
      else if id !in st.index || h.active == 0 then (st, Failed(Unavailable))
      else
        var keys := h.keys[id := h.keys[id].(status := Revoked, revokedAt := Some(now))];
        (st.(homes := st.homes[home := h.(active := h.active - 1, keys := keys)],
             index := st.index[id := st.index[id].(status := Revoked)]), Done)
  }

  // ---------------------------------------------------------------- exchange

  datatype Exchange = Exchange(key: HomeKey, scope: Scope, token: Id, issuedAt: int)

  /** `checkedAt` is the clock, in seconds, sampled while the transaction runs. */
  function ExchangeStep(p: Peppers, st: State, x: Exchange, checkedAt: int): (State, Reply) {
    var id := x.key.id;
    if id !in st.index then (st, Failed(InvalidHomeKey))
    else
      var home := st.index[id].home;
      if home !in st.homes || id !in st.homes[home].keys || st.index[id].status != Active then (st, Failed(InvalidHomeKey))
      else
        var h, k := st.homes[home], st.homes[home].keys[id];
        if !RecordOk(k) || !Indexed(st.index, home, id, k.status) then (st, Failed(Unavailable))
        else if !p.known(k.version) then (st, Failed(Unavailable))
        else if p.verifier(k.version, x.key) != k.verifier then (st, Failed(InvalidHomeKey))
        else if x.issuedAt + TOKEN_LIFETIME_SECONDS <= checkedAt then (st, Failed(Unavailable))
        else if x.scope !in k.scopes then (st, Failed(InsufficientScope))
        else
          var used := k.(lastUsedAt := Some(x.issuedAt * 1_000), lastIssuance := Some(x.token));
          (st.(homes := st.homes[home := h.(keys := h.keys[id := used])]), Granted(home, id, x.scope))
  }

  // ---------------------------------------------------------------- pairing

  function IssueCodeStep(p: Peppers, st: State, uid: Uid, home: HomeId, lookup: Lookup, version: string, now: int): (State, Reply) {
    if !p.known(version) then (st, Failed(Unavailable))
    else if home !in st.homes then (st, Failed(HomeNotFound))
    else if st.homes[home].owner != uid then (st, Failed(NotHomeOwner))
    else if lookup in st.codes then (st, Failed(Collision))
    else
      (st.(codes := st.codes[lookup := Code(home, uid, Pending, now, now + PAIRING_CODE_LIFETIME, None, None)]), Done)
  }

  /** One redemption attempt: the code it looks up and the key it generated for itself. */
  datatype Redemption = Redemption(lookup: Lookup, key: HomeKey, name: string, version: string)

  /** `checkedAt` is the clock when the code was read, `now` the one written. */
  ghost function RedeemStep(p: Peppers, st: State, r: Redemption, checkedAt: int, now: int): (State, Reply) {
    if !p.known(r.version) then (st, Failed(Unavailable))
    else if r.lookup !in st.codes then (st, Failed(InvalidPairingCode))
    else
      var c := st.codes[r.lookup];
      if c.status == Redeemed then
        (st, if c.key == Some(r.key.id) then Paired(c.home, r.key.id) else Failed(InvalidPairingCode))
      else if c.expiresAt <= checkedAt then (st, Failed(InvalidPairingCode))
      else if c.home !in st.homes || st.homes[c.home].owner != c.createdBy then (st, Failed(InvalidPairingCode))
      else
        var h, n := st.homes[c.home], PairingKey(r, c);
        match Stage(p, st, c.home, h, n)
        case Refused(error) => (st, Failed(error))
        case Existing(_) => (st, Failed(Collision))
        case Fresh(compacted) =>
          var redeemed := c.(status := Redeemed, redeemedAt := Some(now), key := Some(r.key.id));
          (WithKey(p, st, c.home, h, n, compacted, now).(codes := st.codes[r.lookup := redeemed]), Paired(c.home, r.key.id))
  }

  /** Pairing grants every scope, in the issuer's name. */
  function PairingKey(r: Redemption, c: Code): NewKey { NewKey(r.key, r.name, ALL_SCOPES, c.createdBy, r.version) }

  // ---------------------------------------------------------------- runs

  datatype Call =
    | CreateHome(uid: Uid, home: HomeId)
    | CreateKey(uid: Uid, home: HomeId, n: NewKey)
    | RevokeKey(uid: Uid, home: HomeId, id: Id)
    | ExchangeKey(x: Exchange)
    | IssueCode(uid: Uid, home: HomeId, lookup: Lookup, version: string)
    | Redeem(r: Redemption)

  /** One committed transaction, with the clock it sampled while reading and the one it wrote. */
  datatype Event = Event(call: Call, checkedAt: int, now: int)

  ghost function Step(p: Peppers, st: State, e: Event): (State, Reply) {
    match e.call
    case CreateHome(uid, home) => CreateHomeStep(st, uid, home)
    case CreateKey(uid, home, n) => CreateKeyStep(p, st, uid, home, n, e.now)
    case RevokeKey(uid, home, id) => RevokeKeyStep(st, uid, home, id, e.now)
    case ExchangeKey(x) => ExchangeStep(p, st, x, e.checkedAt)
    case IssueCode(uid, home, lookup, version) => IssueCodeStep(p, st, uid, home, lookup, version, e.now)
    case Redeem(r) => RedeemStep(p, st, r, e.checkedAt, e.now)
  }

  ghost function Run(p: Peppers, st: State, events: seq<Event>): State
    decreases |events|
  {
    if events == [] then st
    else Step(p, Run(p, st, events[..|events| - 1]), events[|events| - 1]).0
  }
}
