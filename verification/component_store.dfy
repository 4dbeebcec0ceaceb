/** The component store and its object storage, as objects updated step by step. */
module ComponentStores {
  import opened Wire
  import opened Options
  import opened Components

  /** Objects are created and never replaced. */
  class ObjectStorage {
    var staging: map<Id, bytes>
    var artifacts: map<Digest, bytes>

    constructor ()
      ensures staging == map[] && artifacts == map[]
    {
      staging, artifacts := map[], map[];
    }

    method WriteStaging(id: Id, data: bytes) returns (ok: bool)
      modifies this`staging
      ensures ok <==> id !in old(staging) || old(staging)[id] == data
      ensures staging == if id in old(staging) then old(staging) else old(staging)[id := data]
    {
      if id !in staging {
        staging := staging[id := data];
        return true;
      }
      ok := staging[id] == data;
    }

    method WriteArtifact(sha: Digest, data: bytes) returns (ok: bool)
      modifies this`artifacts
      ensures ok <==> sha !in old(artifacts) || old(artifacts)[sha] == data
      ensures artifacts == if sha in old(artifacts) then old(artifacts) else old(artifacts)[sha := data]
    {
      if sha !in artifacts {
        artifacts := artifacts[sha := data];
        return true;
      }
      ok := artifacts[sha] == data;
    }

    method ReadStaging(id: Id) returns (data: Option<bytes>)
      ensures data == if id in staging then Some(staging[id]) else None
    {
      data := if id in staging then Some(staging[id]) else None;
    }
  }

  class ComponentStore {
    const cfg: Config
    const storage: ObjectStorage
    var homes: map<HomeId, Uid>
    var uploads: map<Key, Upload>
    var index: map<Id, Entry>
    var releases: map<Key, Release>
    var publications: map<Digest, string>
    var pointers: map<HomeId, Pointer>
    var quarantine: set<Digest>

    function Documents(): Docs
      reads this, storage
    {
      Docs(homes, uploads, index, releases, publications, pointers, quarantine, storage.staging, storage.artifacts)
    }

    constructor (cfg: Config, storage: ObjectStorage)
      ensures this.cfg == cfg && this.storage == storage
      ensures Documents() == EMPTY.(staging := storage.staging, artifacts := storage.artifacts)
    {
      this.cfg, this.storage := cfg, storage;
      homes, uploads, index, releases := map[], map[], map[], map[];
      publications, pointers, quarantine := map[], map[], {};
    }

    method CreateUploadTransaction(i: Issue) returns (reply: Reply)
      modifies this`uploads, this`index
      ensures (Documents(), reply) == CreateUpload(cfg, old(Documents()), i)
    {
      hide InputOk, TimesOk;
      var k := Key(i.home, i.id);
      if !InputOk(i.input) {
        return Failed(InvalidArtifact);
      }
      if !cfg.known(i.version) {
        return Failed(Unavailable);
      }
      reply := Authorize(Documents(), i.p, i.home);
      if reply != Done {
        return;
      }
      if k in uploads || i.id in index {
        if k !in uploads || i.id !in index {
          return Failed(Collision);
        }
        var existing := uploads[k];
        if !UploadOk(cfg, i.home, existing) || !Indexed(index, k, existing) {
          return Failed(Unavailable);
        }
        return if existing == NewUpload(cfg, i) then Done else Failed(Collision);
      }
      uploads := uploads[k := NewUpload(cfg, i)];
      index := index[i.id := Entry(i.home, AwaitingUpload, i.createdAt)];
    }

    method AuthorizedDeliveryHome(id: Id, token: bytes, now: int) returns (reply: Reply)
      ensures reply == DeliveryHome(cfg, Documents(), id, token, now)
    {
      hide UploadOk, CapabilityOk;
      if id !in index || Key(index[id].home, id) !in uploads {
        return Failed(InvalidUploadCapability);
      }
      var home := index[id].home;
      var upload := uploads[Key(home, id)];
      if !UploadOk(cfg, home, upload) || !Indexed(index, Key(home, id), upload) {
        return Failed(Unavailable);
      }
      if !CapabilityOk(cfg, upload, id, token, now) {
        return Failed(InvalidUploadCapability);
      }
      reply := Home(home);
    }

    method ReserveDeliveryTransaction(id: Id, token: bytes, now: int) returns (reply: Reply)
      modifies this`uploads, this`index
      ensures (Documents(), reply) == ReserveDelivery(cfg, old(Documents()), id, token, now)
    {
      hide UploadOk, CapabilityOk;
      reply := AuthorizedDeliveryHome(id, token, now);
      if reply.Home? {
        var k := Key(reply.home, id);
        SetStatus(k, uploads[k].(status := DeliveryReserved, consumedAt := Some(now)));
      }
    }

    method MarkDeliveredTransaction(home: HomeId, id: Id, now: int) returns (reply: Reply)
      modifies this`uploads, this`index
      ensures (Documents(), reply) == MarkDelivered(cfg, old(Documents()), home, id, now)
    {
      hide UploadOk;
      var k := Key(home, id);
      if k !in uploads || id !in index {
        return Failed(Unavailable);
      }
      var upload := uploads[k];
      if !UploadOk(cfg, home, upload) || !Indexed(index, k, upload) {
        return Failed(Unavailable);
      }
      if upload.status == Delivered || upload.status == Finalized {
        return Done;
      }
      if upload.status != DeliveryReserved {
        return Failed(Unavailable);
      }
      SetStatus(k, upload.(status := Delivered, deliveredAt := Some(now)));
      reply := Done;
    }

    /** The whole call, its three clock readings given: check, reserve, stage, mark. */
    method DeliverUpload(id: Id, token: bytes, data: bytes, seenAt: int, reservedAt: int, markedAt: int) returns (reply: Reply)
      modifies this`uploads, this`index, storage`staging
      ensures (Documents(), reply) == Delivery(cfg, old(Documents()), id, token, data, seenAt, reservedAt, markedAt)
    {
      hide DeliveryHome, ReserveDelivery, MarkDelivered;
      if |data| == 0 || |data| > MAX_ARTIFACT_BYTES {
        return Failed(if |data| == 0 then InvalidArtifact else LimitExceeded);
      }
      var seen := AuthorizedDeliveryHome(id, token, seenAt);
      if !seen.Home? {
        return seen;
      }
      reply := ReserveDeliveryTransaction(id, token, reservedAt);
      if !reply.Home? {
        return;
      }
      var ok := storage.WriteStaging(id, data);
      if !ok {
        return Failed(InvalidUploadCapability);
      }
      reply := MarkDeliveredTransaction(seen.home, id, markedAt);
    }

    method CommitFinalizationTransaction(p: Principal, home: HomeId, id: Id, seen: Upload, now: int) returns (reply: Reply)
      modifies this`uploads, this`index, this`releases, this`publications
      ensures (Documents(), reply) == CommitFinalization(cfg, old(Documents()), p, home, id, seen, now)
    {
      hide UploadOk, ReleaseOk, Agrees, Authorize, AsFinal, WithStatus, Indexed;
      var k := Key(home, id);
      reply := Authorize(Documents(), p, home);
      if reply != Done {
        return;
      }
      if k !in uploads || id !in index {
        return Failed(InvalidArtifact);
      }
      var current := uploads[k];
      if !UploadOk(cfg, home, current) || !Indexed(index, k, current) {
        return Failed(Unavailable);
      }
      if current.publisher != p.publisher {
        return Failed(PublisherMismatch);
      }
      if !Agrees(current, seen) {
        return Failed(InvalidArtifact);
      }
      var sha := current.input.sha;
      var rk := Key(home, sha);
      if sha in publications && publications[sha] != cfg.url(sha) {
        return Failed(Unavailable);
      }
      if rk in releases {
        if !ReleaseOk(cfg, rk, releases[rk]) {
          return Failed(Unavailable);
        }
        if releases[rk].binding != current.binding {
          return Failed(InvalidArtifact);
        }
        publications := publications[sha := cfg.url(sha)];
        SetStatus(k, if current.status == Finalized then current else AsFinal(current, now));
      } else {
        publications := publications[sha := cfg.url(sha)];
        releases := releases[rk := Release(current.input, current.publisher, current.binding, cfg.url(sha), now)];
        SetStatus(k, AsFinal(current, now));
      }
    }

    /** An upload record and the status in its index entry are written together. */
    method SetStatus(k: Key, u: Upload)
      requires k.id in index
      modifies this`uploads, this`index
      ensures Documents() == WithStatus(old(Documents()), k, u)
    {
      uploads := uploads[k := u];
      index := index[k.id := index[k.id].(status := u.status)];
    }

    /** The whole call: read the upload, read and check the staged bytes, store the artifact, commit. */
    method FinalizeRelease(p: Principal, home: HomeId, id: Id, now: int) returns (reply: Reply)
      modifies this`uploads, this`index, this`releases, this`publications, storage`artifacts
      ensures (Documents(), reply) == Finalization(cfg, old(Documents()), p, home, id, now)
    {
      hide AuthorizedUpload, Stored, Evidence;
      var found := AuthorizedUpload(cfg, Documents(), p, home, id);
      if !found.Found? {
        return found;
      }
      if found.upload.status == AwaitingUpload {
        return Failed(InvalidArtifact);
      }
      if found.upload.status == Finalized {
        return found;
      }
      var staged := storage.ReadStaging(id);
      if staged == None || !Evidence(cfg, found.upload, staged.value) {
        return Failed(InvalidArtifact);
      }
      reply := StoreAndCommit(p, home, id, found.upload, staged.value, now);
    }

    method StoreAndCommit(p: Principal, home: HomeId, id: Id, seen: Upload, data: bytes, now: int) returns (reply: Reply)
      modifies this`uploads, this`index, this`releases, this`publications, storage`artifacts
      ensures (Documents(), reply) == Stored(cfg, old(Documents()), p, home, id, seen, data, now)
    {
      hide CommitFinalization;
      var ok := storage.WriteArtifact(cfg.sha256(data), data);
      if !ok {
        return Failed(InvalidArtifact);
      }
      reply := CommitFinalizationTransaction(p, home, id, seen, now);
    }

    method ActivateRelease(a: Activation) returns (reply: Reply)
      modifies this`pointers
      ensures (Documents(), reply) == Activate(cfg, old(Documents()), a)
    {
      hide ReleaseOk, PointerOk, Authorize;
      var rk := Key(a.home, a.sha);
      if a.expected < 0 || a.expected > MAX_SAFE || a.generation <= a.expected || a.generation > MAX_SAFE {
        return Failed(InvalidRequest);
      }
      reply := Authorize(Documents(), a.p, a.home);
      if reply != Done {
        return;
      }
      if rk !in releases {
        return Failed(InvalidArtifact);
      }
      var release := releases[rk];
      if !ReleaseOk(cfg, rk, release) || a.sha !in publications || publications[a.sha] != release.url {
        return Failed(Unavailable);
      }
      if a.sha in quarantine {
        return Failed(DigestQuarantined);
      }
      var current := 0;
      if a.home in pointers {
        if !PointerOk(pointers[a.home]) {
          return Failed(Unavailable);
        }
        current := pointers[a.home].generation;
      }
      if current != a.expected {
        return Failed(GenerationConflict);
      }
      pointers := pointers[a.home := Pointer(a.generation, release.input, release.url)];
    }
  }

  function Delivery(
    cfg: Config, d: Docs, id: Id, token: bytes, data: bytes, seenAt: int, reservedAt: int, markedAt: int): (Docs, Reply)
  {
    var seen := DeliveryHome(cfg, d, id, token, seenAt);
    if |data| == 0 then (d, Failed(InvalidArtifact))
    else if |data| > MAX_ARTIFACT_BYTES then (d, Failed(LimitExceeded))
    else if !seen.Home? then (d, seen)
    else
      var (reserved, reply) := ReserveDelivery(cfg, d, id, token, reservedAt);
      if !reply.Home? then (reserved, reply)
      else
        var (staged, written) := WriteStaging(reserved, id, data);
        if written.Failed? then (staged, written) else MarkDelivered(cfg, staged, seen.home, id, markedAt)
  }

  function Finalization(cfg: Config, d: Docs, p: Principal, home: HomeId, id: Id, now: int): (Docs, Reply) {
    var found := AuthorizedUpload(cfg, d, p, home, id);
    if !found.Found? then (d, found)
    else if found.upload.status == AwaitingUpload then (d, Failed(InvalidArtifact))
    else if found.upload.status == Finalized then (d, found)
    else
      match ReadStaging(d, id)
      case None => (d, Failed(InvalidArtifact))
      case Some(data) =>
        if !Evidence(cfg, found.upload, data) then (d, Failed(InvalidArtifact))
        else Stored(cfg, d, p, home, id, found.upload, data, now)
  }

  /** Its last two steps, on the bytes read. */
  function Stored(
    cfg: Config, d: Docs, p: Principal, home: HomeId, id: Id, seen: Upload, data: bytes, now: int): (Docs, Reply)
  {
    var (stored, written) := WriteArtifact(d, cfg.sha256(data), data);
    if written.Failed? then (stored, written) else CommitFinalization(cfg, stored, p, home, id, seen, now)
  }
}
