/** Publication integrity and the upload state machine, in every reachable state. */
module ComponentIntegrity {
  import opened Wire
  import opened Options
  import opened Components
  import opened ComponentCalls

  // ---------------------------------------------------------------- the invariant on documents

  ghost predicate UploadsIndexed(uploads: map<Key, Upload>, index: map<Id, Entry>) {
    forall k :: k in uploads ==> Indexed(index, k, uploads[k])
  }

  ghost predicate IndexBacked(uploads: map<Key, Upload>, index: map<Id, Entry>) {
    forall id :: id in index ==> Key(index[id].home, id) in uploads
  }

  /** Bytes are staged only for uploads whose capability was consumed. */
  ghost predicate StagingOk(staging: map<Id, bytes>, index: map<Id, Entry>) {
    forall id :: id in staging ==> id in index && Rank(index[id].status) >= 1
  }

  /** A delivered upload has its staged bytes; a finalized one has its release. */
  ghost predicate UploadsBacked(uploads: map<Key, Upload>, staging: map<Id, bytes>, releases: map<Key, Release>) {
    forall k :: k in uploads ==> Backed(staging, releases, k, uploads[k])
  }

  predicate Backed(staging: map<Id, bytes>, releases: map<Key, Release>, k: Key, u: Upload) {
    var rk := Key(k.home, u.input.sha);
    && (Rank(u.status) >= 2 ==> k.id in staging)
    && (u.status == Finalized ==> rk in releases && releases[rk].binding == u.binding)
  }

  /** An artifact is stored under its own digest. */
  ghost predicate ArtifactsOk(cfg: Config, artifacts: map<Digest, bytes>) {
    forall sha :: sha in artifacts ==> cfg.sha256(artifacts[sha]) == sha
  }

  predicate ArtifactStored(artifacts: map<Digest, bytes>, input: Input) {
    input.sha in artifacts && |artifacts[input.sha]| == input.size
  }

  predicate Published(cfg: Config, publications: map<Digest, string>, artifacts: map<Digest, bytes>, input: Input) {
    && input.sha in publications && publications[input.sha] == cfg.url(input.sha)
    && ArtifactStored(artifacts, input)
  }

  ghost predicate ReleasesOk(
    cfg: Config, releases: map<Key, Release>, publications: map<Digest, string>, artifacts: map<Digest, bytes>)
  {
    forall k :: k in releases ==> ReleaseOk(cfg, k, releases[k]) && Published(cfg, publications, artifacts, releases[k].input)
  }

  /** The live pointer of a home names a release of that home. */
  ghost predicate PointersOk(pointers: map<HomeId, Pointer>, releases: map<Key, Release>) {
    forall h :: h in pointers ==> Released(releases, h, pointers[h])
  }

  predicate Released(releases: map<Key, Release>, h: HomeId, p: Pointer) {
    && PointerOk(p)
    && Key(h, p.input.sha) in releases
    && releases[Key(h, p.input.sha)].input == p.input && releases[Key(h, p.input.sha)].url == p.url
  }

  ghost predicate DocsOk(cfg: Config, d: Docs) {
    && UploadsIndexed(d.uploads, d.index) && IndexBacked(d.uploads, d.index)
    && StagingOk(d.staging, d.index) && UploadsBacked(d.uploads, d.staging, d.releases)
    && ArtifactsOk(cfg, d.artifacts) && ReleasesOk(cfg, d.releases, d.publications, d.artifacts)
    && PointersOk(d.pointers, d.releases)
  }

  // ---------------------------------------------------------------- the invariant on processes

  predicate Consumed(d: Docs, home: HomeId, id: Id) {
    Key(home, id) in d.uploads && Rank(d.uploads[Key(home, id)].status) >= 1
  }

  predicate ProcessOk(cfg: Config, d: Docs, p: Process) {
    match p
    case Delivering(id, _, _, home) => Key(home, id) in d.uploads
    case Reserved(id, data, home) => Consumed(d, home, id) && (id in d.staging ==> d.staging[id] == data)
    case Staged(id, home) => Consumed(d, home, id) && id in d.staging
    case Inspecting(id, home) => Consumed(d, home, id)
    case Finalizing(_, id, home, _) => Consumed(d, home, id)
    case Verified(_, id, home, seen, data) => Consumed(d, home, id) && id in d.staging && Evidence(cfg, seen, data)
    case Stored(_, id, home, seen) => Consumed(d, home, id) && id in d.staging && ArtifactStored(d.artifacts, seen.input)
    case _ => true
  }

  ghost predicate ProcessesOk(cfg: Config, s: System) {
    forall pid :: ProcessOk(cfg, s.d, ProcessOf(s, pid))
  }

  /** At most one process holds the reservation of an upload. */
  ghost predicate Exclusive(s: System) {
    forall p, q :: ProcessOf(s, p).Reserved? && ProcessOf(s, q).Reserved? && ProcessOf(s, p).id == ProcessOf(s, q).id ==> p == q
  }

  ghost predicate Inv(cfg: Config, s: System) { DocsOk(cfg, s.d) && ProcessesOk(cfg, s) && Exclusive(s) }

  // ---------------------------------------------------------------- transactions

  lemma CreateKeeps(cfg: Config, d: Docs, i: Issue)
    requires DocsOk(cfg, d)
    ensures DocsOk(cfg, CreateUpload(cfg, d, i).0)
  {
    hide InputOk, TimesOk, Authorize, ArtifactsOk, ReleasesOk, PointersOk, UploadOk, DocsOk;
    var k, after := Key(i.home, i.id), CreateUpload(cfg, d, i).0;
    if after != d {
      UploadAdded(cfg, d, k, NewUpload(cfg, i));
    }
  }

  lemma UploadAdded(cfg: Config, d: Docs, k: Key, u: Upload)
    requires DocsOk(cfg, d) && k !in d.uploads && k.id !in d.index && u.status == AwaitingUpload
    ensures DocsOk(cfg, d.(uploads := d.uploads[k := u], index := d.index[k.id := Entry(k.home, AwaitingUpload, u.createdAt)]))
  {
    hide ArtifactsOk, ReleasesOk, PointersOk;
  }

  lemma StatusKeeps(cfg: Config, d: Docs, k: Key, u: Upload)
    requires DocsOk(cfg, d) && k in d.uploads && k.id in d.index
    requires Forward(d.uploads[k], u) && Backed(d.staging, d.releases, k, u)
    ensures DocsOk(cfg, WithStatus(d, k, u))
  {
    hide ArtifactsOk, ReleasesOk, PointersOk;
    assert Indexed(d.index, k, d.uploads[k]);
  }

  lemma StoredUpload(cfg: Config, d: Docs, home: HomeId, id: Id)
    requires DocsOk(cfg, d) && Key(home, id) in d.uploads
    ensures Indexed(d.index, Key(home, id), d.uploads[Key(home, id)])
    ensures Backed(d.staging, d.releases, Key(home, id), d.uploads[Key(home, id)])
    ensures id in d.staging ==> Consumed(d, home, id)
  {
    hide ArtifactsOk, ReleasesOk, PointersOk;
  }

  lemma ReserveKeeps(cfg: Config, d: Docs, id: Id, token: bytes, now: int)
    requires DocsOk(cfg, d)
    ensures DocsOk(cfg, ReserveDelivery(cfg, d, id, token, now).0)
    ensures var after, reply := ReserveDelivery(cfg, d, id, token, now).0, ReserveDelivery(cfg, d, id, token, now).1;
      reply.Home? ==> Consumed(after, reply.home, id) && id !in d.staging && !Consumed(d, reply.home, id)
  {
    hide InputOk, DocsOk;
    var reply := DeliveryHome(cfg, d, id, token, now);
    if reply.Home? {
      var k := Key(reply.home, id);
      StoredUpload(cfg, d, reply.home, id);
      StatusKeeps(cfg, d, k, d.uploads[k].(status := DeliveryReserved, consumedAt := Some(now)));
    }
  }

  lemma MarkKeeps(cfg: Config, d: Docs, home: HomeId, id: Id, now: int)
    requires DocsOk(cfg, d) && id in d.staging
    ensures DocsOk(cfg, MarkDelivered(cfg, d, home, id, now).0)
  {
    hide InputOk, DocsOk, TimesOk;
    var k := Key(home, id);
    if k in d.uploads && id in d.index && d.uploads[k].status == DeliveryReserved && UploadOk(cfg, home, d.uploads[k]) {
      StatusKeeps(cfg, d, k, d.uploads[k].(status := Delivered, deliveredAt := Some(now)));
    }
  }

  lemma StagingKeeps(cfg: Config, d: Docs, home: HomeId, id: Id, data: bytes)
    requires DocsOk(cfg, d) && Consumed(d, home, id)
    ensures DocsOk(cfg, WriteStaging(d, id, data).0)
  {
    hide ArtifactsOk, ReleasesOk, PointersOk;
    assert Indexed(d.index, Key(home, id), d.uploads[Key(home, id)]);
  }

  lemma ArtifactKeeps(cfg: Config, d: Docs, input: Input, data: bytes)
    requires DocsOk(cfg, d) && cfg.sha256(data) == input.sha && |data| == input.size
    ensures var after, reply := WriteArtifact(d, cfg.sha256(data), data).0, WriteArtifact(d, cfg.sha256(data), data).1;
      DocsOk(cfg, after) && (reply == Done ==> ArtifactStored(after.artifacts, input))
  {
    hide ReleaseOk, PointersOk, UploadsIndexed, IndexBacked, StagingOk, UploadsBacked, InputOk;
    var after := WriteArtifact(d, cfg.sha256(data), data).0;
    forall k | k in after.releases ensures Published(cfg, after.publications, after.artifacts, after.releases[k].input) {
      assert Published(cfg, d.publications, d.artifacts, d.releases[k].input);
    }
  }

  /** The first half of a finalization: the publication and, if it is new, the release. */
  lemma ReleaseKeeps(cfg: Config, d: Docs, k: Key, r: Release)
    requires DocsOk(cfg, d) && ReleaseOk(cfg, k, r) && r.input.sha == k.id && ArtifactStored(d.artifacts, r.input)
    requires k !in d.releases || d.releases[k] == r
    ensures DocsOk(cfg, d.(publications := d.publications[k.id := cfg.url(k.id)], releases := d.releases[k := r]))
  {
    hide ReleaseOk, PointerOk, UploadsIndexed, IndexBacked, StagingOk, ArtifactsOk;
    var publications, releases := d.publications[k.id := cfg.url(k.id)], d.releases[k := r];
    forall l | l in releases ensures ReleaseOk(cfg, l, releases[l]) && Published(cfg, publications, d.artifacts, releases[l].input) {
      if l != k {
        assert Published(cfg, d.publications, d.artifacts, d.releases[l].input);
      }
    }
    forall h | h in d.pointers ensures Released(releases, h, d.pointers[h]) {
      assert Released(d.releases, h, d.pointers[h]);
    }
    forall l | l in d.uploads ensures Backed(d.staging, releases, l, d.uploads[l]) {
      assert Backed(d.staging, d.releases, l, d.uploads[l]);
    }
  }

  lemma CommitKeeps(cfg: Config, d: Docs, p: Principal, home: HomeId, id: Id, seen: Upload, now: int)
    requires DocsOk(cfg, d) && id in d.staging && ArtifactStored(d.artifacts, seen.input)
    ensures DocsOk(cfg, CommitFinalization(cfg, d, p, home, id, seen, now).0)
  {
    hide DocsOk, TimesOk, Authorize, ArtifactStored, InputOk;
    var after, k := CommitFinalization(cfg, d, p, home, id, seen, now).0, Key(home, id);
    if after != d {
      var u := d.uploads[k];
      var rk := Key(home, u.input.sha);
      var r := if rk in d.releases then d.releases[rk] else Release(u.input, u.publisher, u.binding, cfg.url(rk.id), now);
      StoredUpload(cfg, d, home, id);
      if rk in d.releases {
        StoredRelease(cfg, d, rk);
        assert d.releases[rk := r] == d.releases;
      }
      ReleaseKeeps(cfg, d, rk, r);
      var published := d.(publications := d.publications[rk.id := cfg.url(rk.id)], releases := d.releases[rk := r]);
      StatusKeeps(cfg, published, k, after.uploads[k]);
      assert after == WithStatus(published, k, after.uploads[k]);
    }
  }

  lemma StoredRelease(cfg: Config, d: Docs, k: Key)
    requires DocsOk(cfg, d) && k in d.releases
    ensures ReleaseOk(cfg, k, d.releases[k]) && Published(cfg, d.publications, d.artifacts, d.releases[k].input)
  {
  }

  lemma ActivateKeeps(cfg: Config, d: Docs, a: Activation)
    requires DocsOk(cfg, d)
    ensures DocsOk(cfg, Activate(cfg, d, a).0)
  {
    hide UploadsIndexed, IndexBacked, StagingOk, UploadsBacked, ArtifactsOk, ReleasesOk, Authorize, InputOk;
  }

  // ---------------------------------------------------------------- processes

  lemma ProcessKept(cfg: Config, a: Docs, b: Docs, p: Process)
    requires ProcessOk(cfg, a, p) && Grows(a, b)
    requires p.Reserved? && p.id in b.staging ==> b.staging[p.id] == p.data
    ensures ProcessOk(cfg, b, p)
  {
    hide Evidence;
  }

  /** The bytes that may be staged in a step are those of the process that makes it. */
  predicate StagesOwn(s: System, d: Docs, pid: Pid) {
    || d.staging == s.d.staging
    || (&& ProcessOf(s, pid).Reserved?
        && d.staging == s.d.staging[ProcessOf(s, pid).id := ProcessOf(s, pid).data])
  }

  ghost predicate HoldsAlone(s: System, pid: Pid, next: Process) {
    next.Reserved? ==> forall q :: q != pid && ProcessOf(s, q).Reserved? ==> ProcessOf(s, q).id != next.id
  }

  lemma Moves(cfg: Config, s: System, d: Docs, pid: Pid, next: Process)
    requires Inv(cfg, s) && Grows(s.d, d) && DocsOk(cfg, d) && ProcessOk(cfg, d, next)
    requires StagesOwn(s, d, pid) && HoldsAlone(s, pid, next)
    ensures Inv(cfg, System(d, s.processes[pid := next]))
  {
    hide DocsOk, Grows, ProcessOk;
    var after := System(d, s.processes[pid := next]);
    forall q ensures ProcessOf(after, q) == if q == pid then next else ProcessOf(s, q) {
    }
    forall q ensures ProcessOk(cfg, d, ProcessOf(after, q)) {
      if q != pid {
        var p := ProcessOf(s, q);
        assert ProcessOk(cfg, s.d, p);
        ReservedAgrees(cfg, s.d, p);
        ProcessKept(cfg, s.d, d, p);
      }
    }
  }

  lemma ReservedAgrees(cfg: Config, d: Docs, p: Process)
    requires ProcessOk(cfg, d, p)
    ensures p.Reserved? && p.id in d.staging ==> d.staging[p.id] == p.data
  {
  }

  lemma DocsMove(cfg: Config, s: System, d: Docs)
    requires Inv(cfg, s) && Grows(s.d, d) && DocsOk(cfg, d) && d.staging == s.d.staging
    ensures Inv(cfg, s.(d := d))
  {
    hide DocsOk, Grows, ProcessOk;
    forall q ensures ProcessOk(cfg, d, ProcessOf(s.(d := d), q)) {
      assert ProcessOk(cfg, s.d, ProcessOf(s, q));
      ReservedAgrees(cfg, s.d, ProcessOf(s, q));
      ProcessKept(cfg, s.d, d, ProcessOf(s, q));
    }
    assert forall q :: ProcessOf(s.(d := d), q) == ProcessOf(s, q);
  }

  lemma OwnProcess(cfg: Config, s: System, pid: Pid)
    requires Inv(cfg, s)
    ensures ProcessOk(cfg, s.d, ProcessOf(s, pid)) && HoldsAlone(s, pid, ProcessOf(s, pid)) && DocsOk(cfg, s.d)
  {
  }

  /** A process that moves on, ends, or tries again after a step on the documents. */
  lemma AfterKeeps(cfg: Config, s: System, d: Docs, pid: Pid, reply: Reply, acknowledged: bool, next: Process)
    requires Inv(cfg, s) && Grows(s.d, d) && DocsOk(cfg, d) && StagesOwn(s, d, pid)
    requires !reply.Failed? && acknowledged ==> ProcessOk(cfg, d, next) && HoldsAlone(s, pid, next)
    requires ProcessOk(cfg, d, ProcessOf(s, pid))
    ensures Inv(cfg, After(s, d, pid, reply, acknowledged, next))
  {
    hide DocsOk, Grows, Inv, StagesOwn;
    OwnProcess(cfg, s, pid);
    if reply.Failed? {
      IdleOk(cfg, d, s, pid);
      Moves(cfg, s, d, pid, Idle);
    } else if acknowledged {
      Moves(cfg, s, d, pid, next);
    } else {
      Moves(cfg, s, d, pid, ProcessOf(s, pid));
    }
  }

  lemma IdleOk(cfg: Config, d: Docs, s: System, pid: Pid)
    ensures ProcessOk(cfg, d, Idle) && HoldsAlone(s, pid, Idle)
  {
  }

  lemma BeginKeeps(cfg: Config, s: System, pid: Pid, next: Process)
    requires Inv(cfg, s) && ProcessOk(cfg, s.d, next) && !next.Reserved?
    ensures Inv(cfg, Begin(s, pid, next))
  {
    hide DocsOk, ProcessOk, Grows, Inv;
    GrowsReflexive(s.d);
    OwnProcess(cfg, s, pid);
    Moves(cfg, s, s.d, pid, next);
  }

  // ---------------------------------------------------------------- each step

  lemma ReserveStep(cfg: Config, s: System, pid: Pid, now: int, acknowledged: bool)
    requires Inv(cfg, s)
    ensures Inv(cfg, Next(cfg, s, Reserve(pid, now, acknowledged)))
  {
    hide Inv, DocsOk, Grows, ReserveDelivery, After;
    var p := ProcessOf(s, pid);
    if p.Delivering? {
      OwnProcess(cfg, s, pid);
      ReserveKeeps(cfg, s.d, p.id, p.token, now);
      ReserveGrows(cfg, s.d, p.id, p.token, now);
      var (d, reply) := ReserveDelivery(cfg, s.d, p.id, p.token, now);
      ReserveLeavesStaging(cfg, s.d, p.id, p.token, now);
      ReservedAgrees(cfg, s.d, p);
      ProcessKept(cfg, s.d, d, p);
      if reply.Home? {
        StoredUpload(cfg, s.d, p.home, p.id);
        ReservedAlone(cfg, s, pid, p.id, reply.home);
      }
      AfterKeeps(cfg, s, d, pid, reply, acknowledged, Reserved(p.id, p.data, p.home));
    }
  }

  lemma ReserveLeavesStaging(cfg: Config, d: Docs, id: Id, token: bytes, now: int)
    ensures ReserveDelivery(cfg, d, id, token, now).0.staging == d.staging
    ensures var reply := ReserveDelivery(cfg, d, id, token, now).1;
      reply.Failed? || (reply.Home? && id in d.index && reply.home == d.index[id].home)
  {
    hide UploadOk, CapabilityOk;
  }

  lemma ReservedAlone(cfg: Config, s: System, pid: Pid, id: Id, home: HomeId)
    requires Inv(cfg, s) && id in s.d.index && s.d.index[id].home == home && !Consumed(s.d, home, id)
    ensures forall q :: ProcessOf(s, q).Reserved? ==> ProcessOf(s, q).id != id
  {
    hide DocsOk;
    forall q | ProcessOf(s, q).Reserved? ensures ProcessOf(s, q).id != id {
      var p := ProcessOf(s, q);
      assert ProcessOk(cfg, s.d, p);
      StoredUpload(cfg, s.d, p.home, p.id);
    }
  }

  /** Writing the staged bytes never fails: no one else can have staged others. */
  lemma StagingNeverConflicts(cfg: Config, s: System, pid: Pid)
    requires Inv(cfg, s) && ProcessOf(s, pid).Reserved?
    ensures var p := ProcessOf(s, pid); WriteStaging(s.d, p.id, p.data).1 == Done
  {
    hide DocsOk;
    OwnProcess(cfg, s, pid);
  }

  lemma StageStep(cfg: Config, s: System, pid: Pid, acknowledged: bool)
    requires Inv(cfg, s)
    ensures Inv(cfg, Next(cfg, s, Stage(pid, acknowledged)))
  {
    hide Inv, DocsOk, Grows, After;
    var p := ProcessOf(s, pid);
    if p.Reserved? {
      OwnProcess(cfg, s, pid);
      StagingNeverConflicts(cfg, s, pid);
      StagingKeeps(cfg, s.d, p.home, p.id, p.data);
      ObjectsGrow(s.d, p.id, p.data);
      var (d, reply) := WriteStaging(s.d, p.id, p.data);
      AfterKeeps(cfg, s, d, pid, reply, acknowledged, Staged(p.id, p.home));
    }
  }

  lemma DeliverStep(cfg: Config, s: System, pid: Pid, now: int, acknowledged: bool)
    requires Inv(cfg, s)
    ensures Inv(cfg, Next(cfg, s, Deliver(pid, now, acknowledged)))
  {
    hide Inv, DocsOk, Grows, After, MarkDelivered;
    var p := ProcessOf(s, pid);
    if p.Staged? {
      OwnProcess(cfg, s, pid);
      MarkKeeps(cfg, s.d, p.home, p.id, now);
      MarkGrows(cfg, s.d, p.home, p.id, now);
      var (d, reply) := MarkDelivered(cfg, s.d, p.home, p.id, now);
      MarkLeavesStaging(cfg, s.d, p.home, p.id, now);
      ProcessKept(cfg, s.d, d, p);
      IdleOk(cfg, d, s, pid);
      AfterKeeps(cfg, s, d, pid, reply, acknowledged, Idle);
    }
  }

  lemma MarkLeavesStaging(cfg: Config, d: Docs, home: HomeId, id: Id, now: int)
    ensures MarkDelivered(cfg, d, home, id, now).0.staging == d.staging
  {
  }

  lemma StoreStep(cfg: Config, s: System, pid: Pid, acknowledged: bool)
    requires Inv(cfg, s)
    ensures Inv(cfg, Next(cfg, s, StoreArtifact(pid, acknowledged)))
  {
    hide Inv, DocsOk, Grows, After;
    var p := ProcessOf(s, pid);
    if p.Verified? {
      OwnProcess(cfg, s, pid);
      ArtifactKeeps(cfg, s.d, p.seen.input, p.data);
      ObjectsGrow(s.d, cfg.sha256(p.data), p.data);
      var (d, reply) := WriteArtifact(s.d, cfg.sha256(p.data), p.data);
      ProcessKept(cfg, s.d, d, p);
      AfterKeeps(cfg, s, d, pid, reply, acknowledged, Stored(p.p, p.id, p.home, p.seen));
    }
  }

  lemma CommitStep(cfg: Config, s: System, pid: Pid, now: int, acknowledged: bool)
    requires Inv(cfg, s)
    ensures Inv(cfg, Next(cfg, s, Commit(pid, now, acknowledged)))
  {
    hide Inv, DocsOk, Grows, After, CommitFinalization;
    var p := ProcessOf(s, pid);
    if p.Stored? {
      OwnProcess(cfg, s, pid);
      CommitKeeps(cfg, s.d, p.p, p.home, p.id, p.seen, now);
      CommitGrows(cfg, s.d, p.p, p.home, p.id, p.seen, now);
      var (d, reply) := CommitFinalization(cfg, s.d, p.p, p.home, p.id, p.seen, now);
      CommitLeavesStaging(cfg, s.d, p.p, p.home, p.id, p.seen, now);
      ProcessKept(cfg, s.d, d, p);
      IdleOk(cfg, d, s, pid);
      AfterKeeps(cfg, s, d, pid, reply, acknowledged, Idle);
    }
  }

  lemma CommitLeavesStaging(cfg: Config, d: Docs, p: Principal, home: HomeId, id: Id, seen: Upload, now: int)
    ensures CommitFinalization(cfg, d, p, home, id, seen, now).0.staging == d.staging
  {
    hide UploadOk, ReleaseOk, Agrees, Authorize;
  }

  /** Steps that only read, and remember what they read. */
  lemma ReadingStep(cfg: Config, s: System, a: Action)
    requires Inv(cfg, s)
    requires a.BeginDelivery? || a.BeginInspection? || a.LookForStaged? || a.BeginFinalization? || a.ReadStaged?
    ensures Inv(cfg, Next(cfg, s, a))
  {
    hide Inv, DocsOk, UploadOk, CapabilityOk, Evidence;
    OwnProcess(cfg, s, a.pid);
    var p := ProcessOf(s, a.pid);
    match a
    case BeginDelivery(pid, id, token, data, now) =>
      var reply := DeliveryHome(cfg, s.d, id, token, now);
      if reply.Home? { BeginKeeps(cfg, s, pid, Delivering(id, token, data, reply.home)); }
    case BeginInspection(pid, _, home, id) =>
      if Consumed(s.d, home, id) { BeginKeeps(cfg, s, pid, Inspecting(id, home)); }
    case LookForStaged(pid) =>
      if p.Inspecting? { BeginKeeps(cfg, s, pid, ProcessOf(Next(cfg, s, a), pid)); }
    case BeginFinalization(pid, q, home, id) =>
      if Consumed(s.d, home, id) { BeginKeeps(cfg, s, pid, Finalizing(q, id, home, s.d.uploads[Key(home, id)])); }
    case ReadStaged(pid) =>
      if p.Finalizing? { BeginKeeps(cfg, s, pid, ProcessOf(Next(cfg, s, a), pid)); }
  }

  lemma DocumentStep(cfg: Config, s: System, a: Action)
    requires Inv(cfg, s) && (a.AddHome? || a.IssueUpload? || a.ActivateRelease? || a.Quarantine?)
    ensures Inv(cfg, Next(cfg, s, a))
  {
    hide Inv, DocsOk, CreateUpload, Activate;
    OwnProcess(cfg, s, 0);
    StepGrows(cfg, s, a);
    match a
    case AddHome(home, uid) => HomesKeep(cfg, s.d, s.d.homes[home := uid], s.d.quarantine); DocsMove(cfg, s, Next(cfg, s, a).d);
    case IssueUpload(i) =>
      CreateKeeps(cfg, s.d, i);
      CreateLeavesStaging(cfg, s.d, i);
      DocsMove(cfg, s, Next(cfg, s, a).d);
    case ActivateRelease(x) =>
      ActivateKeeps(cfg, s.d, x);
      ActivateLeavesStaging(cfg, s.d, x);
      DocsMove(cfg, s, Next(cfg, s, a).d);
    case Quarantine(sha) =>
      HomesKeep(cfg, s.d, s.d.homes, s.d.quarantine + {sha});
      DocsMove(cfg, s, Next(cfg, s, a).d);
  }

  lemma HomesKeep(cfg: Config, d: Docs, homes: map<HomeId, Uid>, quarantine: set<Digest>)
    requires DocsOk(cfg, d)
    ensures DocsOk(cfg, d.(homes := homes)) && DocsOk(cfg, d.(quarantine := quarantine))
  {
  }

  lemma CreateLeavesStaging(cfg: Config, d: Docs, i: Issue)
    ensures CreateUpload(cfg, d, i).0.staging == d.staging
  {
  }

  lemma ActivateLeavesStaging(cfg: Config, d: Docs, a: Activation)
    ensures Activate(cfg, d, a).0.staging == d.staging
  {
  }

  lemma StepKeeps(cfg: Config, s: System, a: Action)
    requires Inv(cfg, s)
    ensures Inv(cfg, Next(cfg, s, a))
  {
    hide Inv, Next;
    match a
    case Reserve(pid, now, acknowledged) => ReserveStep(cfg, s, pid, now, acknowledged);
    case Stage(pid, acknowledged) => StageStep(cfg, s, pid, acknowledged);
    case Deliver(pid, now, acknowledged) => DeliverStep(cfg, s, pid, now, acknowledged);
    case StoreArtifact(pid, acknowledged) => StoreStep(cfg, s, pid, acknowledged);
    case Commit(pid, now, acknowledged) => CommitStep(cfg, s, pid, now, acknowledged);
    case AddHome(_, _) => DocumentStep(cfg, s, a);
    case IssueUpload(_) => DocumentStep(cfg, s, a);
    case ActivateRelease(_) => DocumentStep(cfg, s, a);
    case Quarantine(_) => DocumentStep(cfg, s, a);
    case _ => ReadingStep(cfg, s, a);
  }

  lemma {:induction false} RunInvariant(cfg: Config, actions: seq<Action>)
    ensures Inv(cfg, Run(cfg, actions))
  {
    hide Inv, Next;
    if actions == [] {
      EmptyInvariant(cfg);
    } else {
      RunInvariant(cfg, actions[..|actions| - 1]);
      StepKeeps(cfg, Run(cfg, actions[..|actions| - 1]), actions[|actions| - 1]);
    }
  }

  lemma EmptyInvariant(cfg: Config)
    ensures Inv(cfg, System(EMPTY, map[]))
  {
  }
}
