/**
 * Calls on the component store as processes. Each transaction and each object access is one step, any
 * process may stop between two of its steps, and a committed step whose acknowledgement was lost
 * leaves its process where it was, to try again.
 */
module ComponentCalls {
  import opened Wire
  import opened Options
  import opened Components

  type Pid = nat

  datatype Process =
    | Idle
    | Delivering(id: Id, token: bytes, data: bytes, home: HomeId)
    | Reserved(id: Id, data: bytes, home: HomeId)
    | Staged(id: Id, home: HomeId)
    | Inspecting(id: Id, home: HomeId)
    | Finalizing(p: Principal, id: Id, home: HomeId, seen: Upload)
    | Verified(p: Principal, id: Id, home: HomeId, seen: Upload, data: bytes)
    | Stored(p: Principal, id: Id, home: HomeId, seen: Upload)

  datatype System = System(d: Docs, processes: map<Pid, Process>)

  function ProcessOf(s: System, pid: Pid): Process { if pid in s.processes then s.processes[pid] else Idle }

  datatype Action =
    | AddHome(home: HomeId, uid: Uid)
    | IssueUpload(i: Issue)
    | BeginDelivery(pid: Pid, id: Id, token: bytes, data: bytes, now: int)
    | Reserve(pid: Pid, now: int, acknowledged: bool)
    | Stage(pid: Pid, acknowledged: bool)
    | Deliver(pid: Pid, now: int, acknowledged: bool)
    | BeginInspection(pid: Pid, p: Principal, home: HomeId, id: Id)
    | LookForStaged(pid: Pid)
    | BeginFinalization(pid: Pid, p: Principal, home: HomeId, id: Id)
    | ReadStaged(pid: Pid)
    | StoreArtifact(pid: Pid, acknowledged: bool)
    | Commit(pid: Pid, now: int, acknowledged: bool)
    | ActivateRelease(a: Activation)
    | Quarantine(sha: Digest)

  /** The process goes on when its step succeeded and it learned so, ends when it failed, and otherwise tries again. */
  function After(s: System, d: Docs, pid: Pid, reply: Reply, acknowledged: bool, next: Process): System {
    if reply.Failed? then System(d, s.processes[pid := Idle])
    else if acknowledged then System(d, s.processes[pid := next])
    else System(d, s.processes[pid := ProcessOf(s, pid)])
  }

  function Begin(s: System, pid: Pid, next: Process): System { System(s.d, s.processes[pid := next]) }

  function Next(cfg: Config, s: System, a: Action): System {
    match a
    case AddHome(home, uid) => if home in s.d.homes then s else s.(d := s.d.(homes := s.d.homes[home := uid]))
    case IssueUpload(i) => s.(d := CreateUpload(cfg, s.d, i).0)
    case BeginDelivery(pid, id, token, data, now) =>
      var reply := DeliveryHome(cfg, s.d, id, token, now);
      if ProcessOf(s, pid) == Idle && 1 <= |data| <= MAX_ARTIFACT_BYTES && reply.Home?
      then Begin(s, pid, Delivering(id, token, data, reply.home)) else s
    case Reserve(pid, now, acknowledged) =>
      (match ProcessOf(s, pid)
       case Delivering(id, token, data, home) =>
         var (d, reply) := ReserveDelivery(cfg, s.d, id, token, now);
         After(s, d, pid, reply, acknowledged, Reserved(id, data, home))
       case _ => s)
    case Stage(pid, acknowledged) =>
      (match ProcessOf(s, pid)
       case Reserved(id, data, home) =>
         var (d, reply) := WriteStaging(s.d, id, data);
         After(s, d, pid, reply, acknowledged, Staged(id, home))
       case _ => s)
    case Deliver(pid, now, acknowledged) =>
      (match ProcessOf(s, pid)
       case Staged(id, home) =>
         var (d, reply) := MarkDelivered(cfg, s.d, home, id, now);
         After(s, d, pid, reply, acknowledged, Idle)
       case _ => s)
    case BeginInspection(pid, p, home, id) =>
      var reply := AuthorizedUpload(cfg, s.d, p, home, id);
      if ProcessOf(s, pid) == Idle && reply.Found? && reply.upload.status == DeliveryReserved
      then Begin(s, pid, Inspecting(id, home)) else s
    case LookForStaged(pid) =>
      (match ProcessOf(s, pid)
       case Inspecting(id, home) => Begin(s, pid, if ReadStaging(s.d, id).Some? then Staged(id, home) else Idle)
       case _ => s)
    case BeginFinalization(pid, p, home, id) =>
      var reply := AuthorizedUpload(cfg, s.d, p, home, id);
      if ProcessOf(s, pid) == Idle && reply.Found? && reply.upload.status !in {AwaitingUpload, Finalized}
      then Begin(s, pid, Finalizing(p, id, home, reply.upload)) else s
    case ReadStaged(pid) =>
      (match ProcessOf(s, pid)
       case Finalizing(p, id, home, seen) =>
         var data := ReadStaging(s.d, id);
         Begin(s, pid, if data.Some? && Evidence(cfg, seen, data.value) then Verified(p, id, home, seen, data.value) else Idle)
       case _ => s)
    case StoreArtifact(pid, acknowledged) =>
      (match ProcessOf(s, pid)
       case Verified(p, id, home, seen, data) =>
         var (d, reply) := WriteArtifact(s.d, cfg.sha256(data), data);
         After(s, d, pid, reply, acknowledged, Stored(p, id, home, seen))
       case _ => s)
    case Commit(pid, now, acknowledged) =>
      (match ProcessOf(s, pid)
       case Stored(p, id, home, seen) =>
         var (d, reply) := CommitFinalization(cfg, s.d, p, home, id, seen, now);
         After(s, d, pid, reply, acknowledged, Idle)
       case _ => s)
    case ActivateRelease(a) => s.(d := Activate(cfg, s.d, a).0)
    case Quarantine(sha) => s.(d := s.d.(quarantine := s.d.quarantine + {sha}))
  }

  function Run(cfg: Config, actions: seq<Action>): System {
    if actions == [] then System(EMPTY, map[])
    else Next(cfg, Run(cfg, actions[..|actions| - 1]), actions[|actions| - 1])
  }

  // ---------------------------------------------------------------- what only grows

  /** Everything in the first map is in the second, unchanged. */
  ghost predicate Extends<K(!new), V>(a: map<K, V>, b: map<K, V>) { forall k :: k in a ==> k in b && b[k] == a[k] }

  ghost predicate UploadsForward(a: map<Key, Upload>, b: map<Key, Upload>) {
    forall k :: k in a ==> k in b && Forward(a[k], b[k])
  }

  ghost predicate PointersNewer(a: map<HomeId, Pointer>, b: map<HomeId, Pointer>) {
    forall h :: h in a ==> h in b && Newer(a[h], b[h])
  }

  /** What one step may do to the documents: uploads move forward, and nothing stored is ever changed. */
  ghost predicate Grows(a: Docs, b: Docs) {
    && UploadsForward(a.uploads, b.uploads) && PointersNewer(a.pointers, b.pointers)
    && Extends(a.staging, b.staging) && Extends(a.artifacts, b.artifacts)
    && Extends(a.releases, b.releases) && Extends(a.publications, b.publications)
    && a.quarantine <= b.quarantine
  }

  predicate Newer(a: Pointer, b: Pointer) { b == a || a.generation < b.generation }

  /** An upload's status never goes back, and what it was issued for never changes. */
  predicate Forward(u: Upload, v: Upload) {
    && Rank(u.status) <= Rank(v.status)
    && v == u.(status := v.status, consumedAt := v.consumedAt, deliveredAt := v.deliveredAt, finalizedAt := v.finalizedAt)
    && (u.consumedAt.Some? ==> v.consumedAt == u.consumedAt)
  }

  lemma GrowsReflexive(a: Docs)
    ensures Grows(a, a)
  {
  }

  lemma Put<K(!new), V>(m: map<K, V>, k: K, v: V)
    requires k !in m || m[k] == v
    ensures Extends(m, m[k := v])
  {
  }

  lemma Moved(m: map<Key, Upload>, k: Key, u: Upload)
    requires k !in m || Forward(m[k], u)
    ensures UploadsForward(m, m[k := u])
  {
  }

  lemma Repointed(m: map<HomeId, Pointer>, h: HomeId, p: Pointer)
    requires h !in m || Newer(m[h], p)
    ensures PointersNewer(m, m[h := p])
  {
  }

  lemma CreateGrows(cfg: Config, d: Docs, i: Issue)
    ensures Grows(d, CreateUpload(cfg, d, i).0)
  {
    hide InputOk, Authorize, UploadOk, Extends, UploadsForward, PointersNewer;
    GrowsReflexive(d);
    if Key(i.home, i.id) !in d.uploads {
      Moved(d.uploads, Key(i.home, i.id), NewUpload(cfg, i));
    }
  }

  lemma StatusGrows(d: Docs, k: Key, u: Upload)
    requires k.id in d.index && k in d.uploads && Forward(d.uploads[k], u)
    ensures Grows(d, WithStatus(d, k, u))
  {
    hide Extends, UploadsForward, PointersNewer;
    GrowsReflexive(d);
    Moved(d.uploads, k, u);
  }

  lemma ReserveGrows(cfg: Config, d: Docs, id: Id, token: bytes, now: int)
    ensures Grows(d, ReserveDelivery(cfg, d, id, token, now).0)
  {
    hide InputOk, WithStatus, Grows;
    GrowsReflexive(d);
    var reply := DeliveryHome(cfg, d, id, token, now);
    if reply.Home? {
      var k := Key(reply.home, id);
      StatusGrows(d, k, d.uploads[k].(status := DeliveryReserved, consumedAt := Some(now)));
    }
  }

  lemma MarkGrows(cfg: Config, d: Docs, home: HomeId, id: Id, now: int)
    ensures Grows(d, MarkDelivered(cfg, d, home, id, now).0)
  {
    hide InputOk, WithStatus, Grows;
    GrowsReflexive(d);
    var k := Key(home, id);
    if k in d.uploads && id in d.index && d.uploads[k].status == DeliveryReserved {
      StatusGrows(d, k, d.uploads[k].(status := Delivered, deliveredAt := Some(now)));
    }
  }

  lemma ObjectsGrow(d: Docs, id: Id, data: bytes)
    ensures Grows(d, WriteStaging(d, id, data).0) && Grows(d, WriteArtifact(d, id, data).0)
  {
    hide Extends, UploadsForward, PointersNewer;
    GrowsReflexive(d);
    if id !in d.staging { Put(d.staging, id, data); }
    if id !in d.artifacts { Put(d.artifacts, id, data); }
  }

  lemma CommitGrows(cfg: Config, d: Docs, p: Principal, home: HomeId, id: Id, seen: Upload, now: int)
    ensures Grows(d, CommitFinalization(cfg, d, p, home, id, seen, now).0)
  {
    hide InputOk, TimesOk, ReleaseOk, Authorize, Extends, UploadsForward, PointersNewer;
    GrowsReflexive(d);
    var after, k := CommitFinalization(cfg, d, p, home, id, seen, now).0, Key(home, id);
    if after != d {
      var sha := d.uploads[k].input.sha;
      Moved(d.uploads, k, after.uploads[k]);
      Put(d.publications, sha, cfg.url(sha));
      if Key(home, sha) !in d.releases {
        Put(d.releases, Key(home, sha), after.releases[Key(home, sha)]);
      }
    }
  }

  lemma ActivateGrows(cfg: Config, d: Docs, a: Activation)
    ensures Grows(d, Activate(cfg, d, a).0)
  {
    hide InputOk, ReleaseOk, Authorize, Extends, UploadsForward, PointersNewer;
    GrowsReflexive(d);
    var after := Activate(cfg, d, a).0;
    if after != d {
      Repointed(d.pointers, a.home, after.pointers[a.home]);
    }
  }

  lemma StepGrows(cfg: Config, s: System, a: Action)
    ensures Grows(s.d, Next(cfg, s, a).d)
  {
    hide CreateUpload, ReserveDelivery, MarkDelivered, WriteStaging, WriteArtifact, CommitFinalization, Activate, Evidence,
      DeliveryHome, AuthorizedUpload, Grows;
    GrowsReflexive(s.d);
    match a
    case AddHome(home, uid) => OthersGrow(s.d, home, uid, []);
    case IssueUpload(i) => CreateGrows(cfg, s.d, i);
    case Reserve(pid, now, _) =>
      var p := ProcessOf(s, pid);
      if p.Delivering? { ReserveGrows(cfg, s.d, p.id, p.token, now); }
    case Stage(pid, _) =>
      var p := ProcessOf(s, pid);
      if p.Reserved? { ObjectsGrow(s.d, p.id, p.data); }
    case Deliver(pid, now, _) =>
      var p := ProcessOf(s, pid);
      if p.Staged? { MarkGrows(cfg, s.d, p.home, p.id, now); }
    case StoreArtifact(pid, _) =>
      var p := ProcessOf(s, pid);
      if p.Verified? { ObjectsGrow(s.d, cfg.sha256(p.data), p.data); }
    case Commit(pid, now, _) =>
      var p := ProcessOf(s, pid);
      if p.Stored? { CommitGrows(cfg, s.d, p.p, p.home, p.id, p.seen, now); }
    case ActivateRelease(x) => ActivateGrows(cfg, s.d, x);
    case Quarantine(sha) => OthersGrow(s.d, "", "", sha);
    case _ =>
  }

  lemma OthersGrow(d: Docs, home: HomeId, uid: Uid, sha: Digest)
    ensures Grows(d, d.(homes := d.homes[home := uid])) && Grows(d, d.(quarantine := d.quarantine + {sha}))
  {
  }

  lemma GrowsTransitive(a: Docs, b: Docs, c: Docs)
    requires Grows(a, b) && Grows(b, c)
    ensures Grows(a, c)
  {
  }

  lemma {:induction false} RunGrows(cfg: Config, actions: seq<Action>, more: seq<Action>)
    ensures Grows(Run(cfg, actions).d, Run(cfg, actions + more).d)
    decreases |more|
  {
    hide Next, Grows, Run;
    if more == [] {
      assert actions + more == actions;
      GrowsReflexive(Run(cfg, actions).d);
    } else {
      var m := |more| - 1;
      RunGrows(cfg, actions, more[..m]);
      assert (actions + more)[..|actions + more| - 1] == actions + more[..m];
      LastStep(cfg, actions + more);
      StepGrows(cfg, Run(cfg, actions + more[..m]), more[m]);
      GrowsTransitive(Run(cfg, actions).d, Run(cfg, actions + more[..m]).d, Run(cfg, actions + more).d);
    }
  }

  lemma LastStep(cfg: Config, actions: seq<Action>)
    requires actions != []
    ensures Run(cfg, actions) == Next(cfg, Run(cfg, actions[..|actions| - 1]), actions[|actions| - 1])
  {
    hide Next;
  }
}
