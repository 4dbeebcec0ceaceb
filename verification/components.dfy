/** Component uploads, releases and pointers: documents, stored objects, transactions and calls. */
module Components {
  import opened Wire
  import opened Options

  const UPLOAD_TTL := 900_000
  const MAX_ARTIFACT_BYTES := 2_097_152
  const MAX_SAFE := 0x1f_ffff_ffff_ffff

  type Id = bytes
  type Digest = bytes
  type HomeId = string
  type Uid = string

  datatype Abi = ComponentAbi | AppAbi

  datatype Input = Input(release: string, abi: Abi, sha: Digest, size: int, requirements: seq<seq<string>>)

  datatype Publisher = Publisher(owner: bool, id: string)

  /** Who publishes, and for which home they were admitted. */
  datatype Principal = Principal(home: HomeId, publisher: Publisher)

  /** Digests, keyed digests, public addresses and the syntax check, as functions. */
  datatype Config = Config(
    sha256: bytes -> Digest, binding: (HomeId, Input, Publisher) -> Digest, known: string -> bool,
    verifier: (string, Id, bytes) -> Digest, url: Digest -> string, syntaxValid: bytes -> bool)

  datatype Status = AwaitingUpload | DeliveryReserved | Delivered | Finalized

  function Rank(s: Status): nat {
    match s
    case AwaitingUpload => 0
    case DeliveryReserved => 1
    case Delivered => 2
    case Finalized => 3
  }

  datatype Upload = Upload(
    input: Input, publisher: Publisher, binding: Digest, verifier: Digest, version: string, status: Status,
    createdAt: int, expiresAt: int, consumedAt: Option<int>, deliveredAt: Option<int>, finalizedAt: Option<int>)

  datatype Entry = Entry(home: HomeId, status: Status, createdAt: int)

  datatype Release = Release(input: Input, publisher: Publisher, binding: Digest, url: string, finalizedAt: int)

  datatype Pointer = Pointer(generation: int, input: Input, url: string)

  datatype Key = Key(home: HomeId, id: bytes)

  /** Documents and stored objects. A publication is kept as its public address. */
  datatype Docs = Docs(
    homes: map<HomeId, Uid>, uploads: map<Key, Upload>, index: map<Id, Entry>, releases: map<Key, Release>,
    publications: map<Digest, string>, pointers: map<HomeId, Pointer>, quarantine: set<Digest>,
    staging: map<Id, bytes>, artifacts: map<Digest, bytes>)

  const EMPTY := Docs(map[], map[], map[], map[], map[], map[], {}, map[], map[])

  // ---------------------------------------------------------------- stored documents

  predicate InputOk(input: Input) {
    1 <= |input.release| <= 64 && |input.sha| == 32 && 1 <= input.size <= MAX_ARTIFACT_BYTES
  }

  predicate TimesOk(u: Upload) {
    && u.createdAt < u.expiresAt && u.expiresAt - u.createdAt <= UPLOAD_TTL
    && (u.consumedAt.Some? ==> u.createdAt <= u.consumedAt.value < u.expiresAt)
    && (u.deliveredAt.Some? ==> u.consumedAt.Some? && u.consumedAt.value <= u.deliveredAt.value)
    && (u.finalizedAt.Some? ==> u.deliveredAt.Some? && u.deliveredAt.value <= u.finalizedAt.value)
    && (u.consumedAt.Some? <==> Rank(u.status) >= 1)
    && (u.deliveredAt.Some? <==> Rank(u.status) >= 2)
    && (u.finalizedAt.Some? <==> Rank(u.status) >= 3)
  }

  predicate UploadOk(cfg: Config, home: HomeId, u: Upload) {
    InputOk(u.input) && TimesOk(u) && u.binding == cfg.binding(home, u.input, u.publisher)
  }

  predicate Indexed(index: map<Id, Entry>, k: Key, u: Upload) {
    k.id in index && index[k.id] == Entry(k.home, u.status, u.createdAt)
  }

  predicate ReleaseOk(cfg: Config, k: Key, r: Release) {
    && InputOk(r.input) && r.input.sha == k.id && r.binding == cfg.binding(k.home, r.input, r.publisher)
    && r.url == cfg.url(k.id)
  }

  // ---------------------------------------------------------------- replies

  datatype Error =
    | HomeNotFound | NotHomeOwner | InvalidAccessToken | InvalidRequest | InvalidArtifact | LimitExceeded
    | InvalidUploadCapability | PublisherMismatch | DigestQuarantined | GenerationConflict | Unavailable | Collision

  datatype Reply = Done | Home(home: HomeId) | Found(upload: Upload) | Bytes(data: Option<bytes>) | Failed(error: Error)

  /** The caller publishes for this home, which exists and, for an owner, is theirs. */
  function Authorize(d: Docs, p: Principal, home: HomeId): Reply {
    if home !in d.homes then Failed(HomeNotFound)
    else if p.home != home then Failed(if p.publisher.owner then NotHomeOwner else InvalidAccessToken)
    else if p.publisher.owner && d.homes[home] != p.publisher.id then Failed(NotHomeOwner)
    else Done
  }

  // ---------------------------------------------------------------- uploads

  datatype Issue = Issue(p: Principal, home: HomeId, id: Id, input: Input, token: bytes, version: string, createdAt: int)

  function NewUpload(cfg: Config, i: Issue): Upload {
    Upload(
      i.input, i.p.publisher, cfg.binding(i.home, i.input, i.p.publisher), cfg.verifier(i.version, i.id, i.token), i.version,
      AwaitingUpload, i.createdAt, i.createdAt + UPLOAD_TTL, None, None, None)
  }

  function CreateUpload(cfg: Config, d: Docs, i: Issue): (Docs, Reply) {
    var k := Key(i.home, i.id);
    if !InputOk(i.input) then (d, Failed(InvalidArtifact))
    else if !cfg.known(i.version) then (d, Failed(Unavailable))
    else if Authorize(d, i.p, i.home) != Done then (d, Authorize(d, i.p, i.home))
    else if k in d.uploads || i.id in d.index then
      if k !in d.uploads || i.id !in d.index then (d, Failed(Collision))
      else if !UploadOk(cfg, i.home, d.uploads[k]) || !Indexed(d.index, k, d.uploads[k]) then (d, Failed(Unavailable))
      else (d, if d.uploads[k] == NewUpload(cfg, i) then Done else Failed(Collision))
    else
      var u := NewUpload(cfg, i);
      (d.(uploads := d.uploads[k := u], index := d.index[i.id := Entry(i.home, AwaitingUpload, i.createdAt)]), Done)
  }

  predicate CapabilityOk(cfg: Config, u: Upload, id: Id, token: bytes, now: int) {
    && u.status == AwaitingUpload && u.createdAt <= now < u.expiresAt
    && cfg.known(u.version) && cfg.verifier(u.version, id, token) == u.verifier
  }

  /** The home an upload capability delivers to, while it is unused and in time. */
  function DeliveryHome(cfg: Config, d: Docs, id: Id, token: bytes, now: int): Reply {
    if id !in d.index || Key(d.index[id].home, id) !in d.uploads then Failed(InvalidUploadCapability)
    else
      var home, u := d.index[id].home, d.uploads[Key(d.index[id].home, id)];
      if !UploadOk(cfg, home, u) || !Indexed(d.index, Key(home, id), u) then Failed(Unavailable)
      else if !CapabilityOk(cfg, u, id, token, now) then Failed(InvalidUploadCapability)
      else Home(home)
  }

  function WithStatus(d: Docs, k: Key, u: Upload): Docs
    requires k.id in d.index
  {
    d.(uploads := d.uploads[k := u], index := d.index[k.id := d.index[k.id].(status := u.status)])
  }

  function ReserveDelivery(cfg: Config, d: Docs, id: Id, token: bytes, now: int): (Docs, Reply) {
    var reply := DeliveryHome(cfg, d, id, token, now);
    if !reply.Home? then (d, reply)
    else
      var k := Key(reply.home, id);
      (WithStatus(d, k, d.uploads[k].(status := DeliveryReserved, consumedAt := Some(now))), reply)
  }

  function MarkDelivered(cfg: Config, d: Docs, home: HomeId, id: Id, now: int): (Docs, Reply) {
    var k := Key(home, id);
    if k !in d.uploads || id !in d.index then (d, Failed(Unavailable))
    else
      var u := d.uploads[k];
      if !UploadOk(cfg, home, u) || !Indexed(d.index, k, u) then (d, Failed(Unavailable))
      else if u.status == Delivered || u.status == Finalized then (d, Done)
      else if u.status != DeliveryReserved then (d, Failed(Unavailable))
      else (WithStatus(d, k, u.(status := Delivered, deliveredAt := Some(now))), Done)
  }

  function AuthorizedUpload(cfg: Config, d: Docs, p: Principal, home: HomeId, id: Id): Reply {
    var k := Key(home, id);
    if Authorize(d, p, home) != Done then Authorize(d, p, home)
    else if k !in d.uploads then Failed(InvalidArtifact)
    else if !UploadOk(cfg, home, d.uploads[k]) then Failed(Unavailable)
    else if d.uploads[k].publisher != p.publisher then Failed(PublisherMismatch)
    else Found(d.uploads[k])
  }

  // ---------------------------------------------------------------- stored objects

  /** Create only: a second write succeeds only when it would write the same bytes. */
  function WriteStaging(d: Docs, id: Id, data: bytes): (Docs, Reply) {
    if id !in d.staging then (d.(staging := d.staging[id := data]), Done)
    else (d, if d.staging[id] == data then Done else Failed(InvalidUploadCapability))
  }

  function ReadStaging(d: Docs, id: Id): Option<bytes> { if id in d.staging then Some(d.staging[id]) else None }

  function WriteArtifact(d: Docs, sha: Digest, data: bytes): (Docs, Reply) {
    if sha !in d.artifacts then (d.(artifacts := d.artifacts[sha := data]), Done)
    else (d, if d.artifacts[sha] == data then Done else Failed(InvalidArtifact))
  }

  /** The staged bytes are the artifact the upload declared. */
  predicate Evidence(cfg: Config, u: Upload, data: bytes) {
    cfg.syntaxValid(data) && cfg.sha256(data) == u.input.sha && |data| == u.input.size
  }

  // ---------------------------------------------------------------- releases

  predicate Agrees(current: Upload, seen: Upload) {
    current.input == seen.input && current.binding == seen.binding && current.status != AwaitingUpload
  }

  function AsFinal(u: Upload, now: int): Upload {
    u.(status := Finalized, deliveredAt := if u.deliveredAt.Some? then u.deliveredAt else Some(now), finalizedAt := Some(now))
  }

  /** The closing transaction of a finalization that saw the upload `seen`. */
  function CommitFinalization(cfg: Config, d: Docs, p: Principal, home: HomeId, id: Id, seen: Upload, now: int): (Docs, Reply) {
    var k := Key(home, id);
    if Authorize(d, p, home) != Done then (d, Authorize(d, p, home))
    else if k !in d.uploads || id !in d.index then (d, Failed(InvalidArtifact))
    else
      var u := d.uploads[k];
      if !UploadOk(cfg, home, u) || !Indexed(d.index, k, u) then (d, Failed(Unavailable))
      else if u.publisher != p.publisher then (d, Failed(PublisherMismatch))
      else if !Agrees(u, seen) then (d, Failed(InvalidArtifact))
      else
        var sha, rk := u.input.sha, Key(home, u.input.sha);
        if sha in d.publications && d.publications[sha] != cfg.url(sha) then (d, Failed(Unavailable))
        else
          var published := d.(publications := d.publications[sha := cfg.url(sha)]);
          if rk in d.releases then
            if !ReleaseOk(cfg, rk, d.releases[rk]) then (d, Failed(Unavailable))
            else if d.releases[rk].binding != u.binding then (d, Failed(InvalidArtifact))
            else (WithStatus(published, k, if u.status == Finalized then u else AsFinal(u, now)), Done)
          else
            var r := Release(u.input, u.publisher, u.binding, cfg.url(sha), now);
            (WithStatus(published.(releases := d.releases[rk := r]), k, AsFinal(u, now)), Done)
  }

  // ---------------------------------------------------------------- activation

  datatype Activation = Activation(p: Principal, home: HomeId, sha: Digest, expected: int, generation: int)

  predicate PointerOk(p: Pointer) { 1 <= p.generation <= MAX_SAFE && InputOk(p.input) }

  function Generation(d: Docs, home: HomeId): int { if home in d.pointers then d.pointers[home].generation else 0 }

  function Activate(cfg: Config, d: Docs, a: Activation): (Docs, Reply) {
    var rk := Key(a.home, a.sha);
    if !(0 <= a.expected <= MAX_SAFE && a.expected < a.generation <= MAX_SAFE) then (d, Failed(InvalidRequest))
    else if Authorize(d, a.p, a.home) != Done then (d, Authorize(d, a.p, a.home))
    else if rk !in d.releases then (d, Failed(InvalidArtifact))
    else
      var r := d.releases[rk];
      if !ReleaseOk(cfg, rk, r) then (d, Failed(Unavailable))
      else if a.sha !in d.publications || d.publications[a.sha] != r.url then (d, Failed(Unavailable))
      else if a.sha in d.quarantine then (d, Failed(DigestQuarantined))
      else if a.home in d.pointers && !PointerOk(d.pointers[a.home]) then (d, Failed(Unavailable))
      else if Generation(d, a.home) != a.expected then (d, Failed(GenerationConflict))
      else (d.(pointers := d.pointers[a.home := Pointer(a.generation, r.input, r.url)]), Done)
  }
}
