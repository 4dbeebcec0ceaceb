/** What each component transaction writes and answers, and what quarantine means for the rest of a run. */
module ComponentEffects {
  import opened Wire
  import opened Options
  import opened Components
  import opened ComponentCalls
  import opened ComponentIntegrity
  import opened ComponentStores

  // ---------------------------------------------------------------- activation

  /** The home exists, the caller was admitted for it, and an owner owns it. */
  predicate MayPublish(d: Docs, p: Principal, home: HomeId) {
    home in d.homes && p.home == home && (p.publisher.owner ==> d.homes[home] == p.publisher.id)
  }

  /**
   * In every reachable state an activation commits exactly when its generations are in range, its
   * caller may publish for the home, the home has that release, the digest is not quarantined and the
   * live generation is the expected one; and then it points at that release.
   */
  lemma ActivateExactly(cfg: Config, actions: seq<Action>, a: Activation)
    ensures var d := Run(cfg, actions).d;
      var step := Activate(cfg, d, a);
      var live := if a.home in d.pointers then d.pointers[a.home].generation else 0;
      && (step.1 == Done <==>
            && 0 <= a.expected < a.generation <= 9_007_199_254_740_991
            && MayPublish(d, a.p, a.home) && Key(a.home, a.sha) in d.releases
            && a.sha !in d.quarantine && live == a.expected)
      && (step.1 == Done ==>
            step.0 == d.(pointers := d.pointers[a.home :=
              Pointer(a.generation, d.releases[Key(a.home, a.sha)].input, cfg.url(a.sha))])
            && d.releases[Key(a.home, a.sha)].input.sha == a.sha)
      && (step.1 != Done ==> step.0 == d)
  {
    hide Run;
    RunInvariant(cfg, actions);
    var d := Run(cfg, actions).d;
    hide Inv, ProcessesOk, Exclusive;
    DocsOfInv(cfg, Run(cfg, actions));
    Activated(cfg, d, a);
  }

  lemma DocsOfInv(cfg: Config, s: System)
    requires Inv(cfg, s)
    ensures DocsOk(cfg, s.d)
  {
  }

  lemma PointerChecks(cfg: Config, d: Docs, home: HomeId)
    requires DocsOk(cfg, d) && home in d.pointers
    ensures PointerOk(d.pointers[home])
  {
    hide UploadsIndexed, IndexBacked, StagingOk, UploadsBacked, ArtifactsOk;
    var p := d.pointers[home];
    assert Released(d.releases, home, p);
    StoredRelease(cfg, d, Key(home, p.input.sha));
  }

  lemma Activated(cfg: Config, d: Docs, a: Activation)
    requires DocsOk(cfg, d)
    ensures var step := Activate(cfg, d, a);
      var live := if a.home in d.pointers then d.pointers[a.home].generation else 0;
      && (step.1 == Done <==>
            && 0 <= a.expected < a.generation <= 9_007_199_254_740_991
            && MayPublish(d, a.p, a.home) && Key(a.home, a.sha) in d.releases
            && a.sha !in d.quarantine && live == a.expected)
      && (step.1 == Done ==>
            step.0 == d.(pointers := d.pointers[a.home :=
              Pointer(a.generation, d.releases[Key(a.home, a.sha)].input, cfg.url(a.sha))])
            && d.releases[Key(a.home, a.sha)].input.sha == a.sha)
      && (step.1 != Done ==> step.0 == d)
  {
    if a.home in d.pointers {
      PointerChecks(cfg, d, a.home);
    }
    if Key(a.home, a.sha) in d.releases {
      StoredRelease(cfg, d, Key(a.home, a.sha));
    }
    hide DocsOk, PointerOk, InputOk;
  }

  /** Why an activation is refused, in every reachable state, by the first thing that is wrong. */
  lemma ActivateRefused(cfg: Config, actions: seq<Action>, a: Activation)
    ensures var d := Run(cfg, actions).d;
      var reply := Activate(cfg, d, a).1;
      var live := if a.home in d.pointers then d.pointers[a.home].generation else 0;
      if !(0 <= a.expected < a.generation <= 9_007_199_254_740_991) then reply == Failed(InvalidRequest)
      else if a.home !in d.homes then reply == Failed(HomeNotFound)
      else if !MayPublish(d, a.p, a.home) then reply == Failed(NotHomeOwner) || reply == Failed(InvalidAccessToken)
      else if Key(a.home, a.sha) !in d.releases then reply == Failed(InvalidArtifact)
      else if a.sha in d.quarantine then reply == Failed(DigestQuarantined)
      else if live != a.expected then reply == Failed(GenerationConflict)
      else reply == Done
  {
    hide Run;
    RunInvariant(cfg, actions);
    DocsOfInv(cfg, Run(cfg, actions));
    hide Inv, ProcessesOk, Exclusive;
    Refused(cfg, Run(cfg, actions).d, a);
  }

  lemma Refused(cfg: Config, d: Docs, a: Activation)
    requires DocsOk(cfg, d)
    ensures var reply := Activate(cfg, d, a).1;
      var live := if a.home in d.pointers then d.pointers[a.home].generation else 0;
      if !(0 <= a.expected < a.generation <= 9_007_199_254_740_991) then reply == Failed(InvalidRequest)
      else if a.home !in d.homes then reply == Failed(HomeNotFound)
      else if !MayPublish(d, a.p, a.home) then reply == Failed(NotHomeOwner) || reply == Failed(InvalidAccessToken)
      else if Key(a.home, a.sha) !in d.releases then reply == Failed(InvalidArtifact)
      else if a.sha in d.quarantine then reply == Failed(DigestQuarantined)
      else if live != a.expected then reply == Failed(GenerationConflict)
      else reply == Done
  {
    if a.home in d.pointers {
      PointerChecks(cfg, d, a.home);
    }
    if Key(a.home, a.sha) in d.releases {
      StoredRelease(cfg, d, Key(a.home, a.sha));
    }
    hide DocsOk, PointerOk, InputOk;
  }

  // ---------------------------------------------------------------- quarantine

  /** A step may point a home only at a digest that is not quarantined. */
  lemma StepRespectsQuarantine(cfg: Config, s: System, a: Action, home: HomeId, sha: Digest)
    requires sha in s.d.quarantine && home in Next(cfg, s, a).d.pointers && Next(cfg, s, a).d.pointers[home].input.sha == sha
    requires Inv(cfg, s)
    ensures home in s.d.pointers && s.d.pointers[home] == Next(cfg, s, a).d.pointers[home]
  {
    DocsOfInv(cfg, s);
    hide Inv, DocsOk, ProcessesOk, Exclusive;
    if a.ActivateRelease? {
      ActivationStep(cfg, s, a.a);
      hide Next, Activate, MayPublish;
      Activated(cfg, s.d, a.a);
    } else {
      hide Next;
      OthersLeavePointers(cfg, s, a);
    }
  }

  lemma ActivationStep(cfg: Config, s: System, a: Activation)
    ensures Next(cfg, s, ActivateRelease(a)).d == Activate(cfg, s.d, a).0
  {
    hide Activate;
  }

  lemma OthersLeavePointers(cfg: Config, s: System, a: Action)
    requires !a.ActivateRelease?
    ensures Next(cfg, s, a).d.pointers == s.d.pointers
  {
    hide CreateUpload, ReserveDelivery, MarkDelivered, CommitFinalization, DeliveryHome, AuthorizedUpload, Evidence, Activate;
    if a.IssueUpload? {
      UploadsLeavePointers(cfg, s.d, a.i);
    } else if a.Reserve? || a.Deliver? || a.Commit? {
      var p := ProcessOf(s, a.pid);
      if p.Delivering? {
        DeliveriesLeavePointers(cfg, s.d, p.home, p.id, p.token, a.now);
      } else if p.Staged? {
        DeliveriesLeavePointers(cfg, s.d, p.home, p.id, [], a.now);
      } else if p.Stored? {
        CommitLeavesPointers(cfg, s.d, p.p, p.home, p.id, p.seen, a.now);
      }
    }
  }

  lemma UploadsLeavePointers(cfg: Config, d: Docs, i: Issue)
    ensures var after := CreateUpload(cfg, d, i).0; after.pointers == d.pointers && after.publications == d.publications
  {
    hide InputOk, Authorize, UploadOk, Indexed;
  }

  lemma DeliveriesLeavePointers(cfg: Config, d: Docs, home: HomeId, id: Id, token: bytes, now: int)
    ensures var after := ReserveDelivery(cfg, d, id, token, now).0;
      after.pointers == d.pointers && after.publications == d.publications
    ensures var after := MarkDelivered(cfg, d, home, id, now).0;
      after.pointers == d.pointers && after.publications == d.publications
  {
    hide UploadOk, CapabilityOk;
  }

  lemma CommitLeavesPointers(cfg: Config, d: Docs, p: Principal, home: HomeId, id: Id, seen: Upload, now: int)
    ensures CommitFinalization(cfg, d, p, home, id, seen, now).0.pointers == d.pointers
    ensures Addressed(cfg, d) ==> Addressed(cfg, CommitFinalization(cfg, d, p, home, id, seen, now).0)
  {
    hide UploadOk, ReleaseOk, Authorize, Agrees;
  }

  /** Whatever is published is published at its own address. */
  ghost predicate Addressed(cfg: Config, d: Docs) {
    forall sha :: sha in d.publications ==> d.publications[sha] == cfg.url(sha)
  }

  lemma StepAddressed(cfg: Config, s: System, a: Action)
    requires Addressed(cfg, s.d)
    ensures Addressed(cfg, Next(cfg, s, a).d)
  {
    hide CreateUpload, ReserveDelivery, MarkDelivered, CommitFinalization, DeliveryHome, AuthorizedUpload, Evidence, ReleaseOk,
      PointerOk, Authorize, Addressed;
    var after := Next(cfg, s, a).d;
    if a.IssueUpload? {
      UploadsLeavePointers(cfg, s.d, a.i);
    } else if a.Reserve? || a.Deliver? || a.Commit? {
      var p := ProcessOf(s, a.pid);
      if p.Delivering? {
        DeliveriesLeavePointers(cfg, s.d, p.home, p.id, p.token, a.now);
      } else if p.Staged? {
        DeliveriesLeavePointers(cfg, s.d, p.home, p.id, [], a.now);
      } else if p.Stored? {
        CommitLeavesPointers(cfg, s.d, p.p, p.home, p.id, p.seen, a.now);
      }
    }
    if after.publications == s.d.publications {
      SameAddresses(cfg, s.d, after);
    }
  }

  lemma SameAddresses(cfg: Config, a: Docs, b: Docs)
    requires a.publications == b.publications
    ensures Addressed(cfg, a) ==> Addressed(cfg, b)
  {
  }

  lemma {:induction false} RunAddressed(cfg: Config, actions: seq<Action>)
    ensures Addressed(cfg, Run(cfg, actions).d)
  {
    hide Next;
    if actions != [] {
      RunAddressed(cfg, actions[..|actions| - 1]);
      StepAddressed(cfg, Run(cfg, actions[..|actions| - 1]), actions[|actions| - 1]);
    }
  }

  /** Once a digest is quarantined, no step of the rest of the run points any home at it. */
  lemma {:induction false} QuarantineHolds(cfg: Config, actions: seq<Action>, more: seq<Action>, home: HomeId, sha: Digest)
    requires sha in Run(cfg, actions).d.quarantine
    ensures sha in Run(cfg, actions + more).d.quarantine
    ensures var d := Run(cfg, actions + more).d;
      home in d.pointers && d.pointers[home].input.sha == sha ==>
        home in Run(cfg, actions).d.pointers && Run(cfg, actions).d.pointers[home] == d.pointers[home]
    decreases |more|
  {
    hide Next, Inv;
    if more == [] {
      assert actions + more == actions;
    } else {
      var before := actions + more[..|more| - 1];
      QuarantineHolds(cfg, actions, more[..|more| - 1], home, sha);
      assert (actions + more)[..|actions + more| - 1] == before;
      RunInvariant(cfg, before);
      StepGrows(cfg, Run(cfg, before), more[|more| - 1]);
      var d := Run(cfg, actions + more).d;
      if home in d.pointers && d.pointers[home].input.sha == sha {
        StepRespectsQuarantine(cfg, Run(cfg, before), more[|more| - 1], home, sha);
      }
    }
  }

  /** The quarantine step itself always takes effect, and changes nothing else. */
  lemma QuarantineTakesEffect(cfg: Config, s: System, sha: Digest)
    ensures Next(cfg, s, Quarantine(sha)) == s.(d := s.d.(quarantine := s.d.quarantine + {sha}))
    ensures sha in Next(cfg, s, Quarantine(sha)).d.quarantine
  {
  }

  // ---------------------------------------------------------------- uploads

  /** Only one upload and its index entry differ. */
  predicate OnlyUpload(a: Docs, b: Docs, k: Key) {
    && k in b.uploads && k.id in b.index && b.uploads == a.uploads[k := b.uploads[k]]
    && b == a.(uploads := b.uploads, index := a.index[k.id := b.index[k.id]])
  }

  predicate SaysUpload(cfg: Config, u: Upload, i: Issue) {
    && u.input == i.input && u.publisher == i.p.publisher && u.binding == cfg.binding(i.home, i.input, i.p.publisher)
    && u.verifier == cfg.verifier(i.version, i.id, i.token) && u.version == i.version && u.status == AwaitingUpload
    && u.createdAt == i.createdAt && u.expiresAt == i.createdAt + 900_000
    && u.consumedAt == None && u.deliveredAt == None && u.finalizedAt == None
  }

  /** A new upload is stored exactly for a well-formed input, a known key version and a caller who may publish. */
  lemma CreateUploadExactly(cfg: Config, d: Docs, i: Issue)
    requires Key(i.home, i.id) !in d.uploads && i.id !in d.index
    ensures var step := CreateUpload(cfg, d, i);
      var after, k := step.0, Key(i.home, i.id);
      if !(1 <= |i.input.release| <= 64 && |i.input.sha| == 32 && 1 <= i.input.size <= 2_097_152)
      then step == (d, Failed(InvalidArtifact))
      else if !cfg.known(i.version) then step == (d, Failed(Unavailable))
      else if i.home !in d.homes then step == (d, Failed(HomeNotFound))
      else if !MayPublish(d, i.p, i.home) then step == (d, Failed(NotHomeOwner)) || step == (d, Failed(InvalidAccessToken))
      else
        && step.1 == Done && OnlyUpload(d, after, k) && SaysUpload(cfg, after.uploads[k], i)
        && after.index[i.id] == Entry(i.home, AwaitingUpload, i.createdAt)
  {
  }

  /** An upload issued again under the same identifier is answered only if it is the very same, and nothing is written. */
  lemma CreateUploadAgain(cfg: Config, d: Docs, i: Issue)
    requires DocsOk(cfg, d) && i.id in d.index
    ensures CreateUpload(cfg, d, i).0 == d
    ensures CreateUpload(cfg, d, i).1 == Done ==>
      Key(i.home, i.id) in d.uploads && SaysUpload(cfg, d.uploads[Key(i.home, i.id)], i)
  {
    hide InputOk, TimesOk, Authorize, DocsOk;
  }

  /**
   * A delivery is reserved exactly when the upload exists, its record passes its checks, it awaits
   * delivery, the clock is within its life, and the token is the one it was issued with under a key
   * version still known; and then its status and the time are all that changes.
   */
  lemma ReserveExactly(cfg: Config, d: Docs, id: Id, token: bytes, now: int)
    requires DocsOk(cfg, d)
    ensures var step := ReserveDelivery(cfg, d, id, token, now);
      var after, reply := step.0, step.1;
      if id !in d.index then step == (d, Failed(InvalidUploadCapability))
      else
        var k := Key(d.index[id].home, id);
        && k in d.uploads
        && var u := d.uploads[k];
        if !UploadOk(cfg, k.home, u) then step == (d, Failed(Unavailable))
        else if u.status == AwaitingUpload && u.createdAt <= now < u.expiresAt && cfg.known(u.version)
          && cfg.verifier(u.version, id, token) == u.verifier
        then
          && reply == Home(k.home) && OnlyUpload(d, after, k)
          && after.uploads[k] == u.(status := DeliveryReserved, consumedAt := Some(now))
          && after.index[id] == Entry(k.home, DeliveryReserved, u.createdAt)
        else step == (d, Failed(InvalidUploadCapability))
  {
    hide UploadOk, ArtifactsOk, ReleasesOk, PointersOk, UploadsBacked, StagingOk;
    if id in d.index {
      assert Key(d.index[id].home, id) in d.uploads;
      assert Indexed(d.index, Key(d.index[id].home, id), d.uploads[Key(d.index[id].home, id)]);
    }
    hide DocsOk;
  }

  /** Marking delivery moves a reserved upload on, answers a delivered or finalized one, and refuses any other. */
  lemma MarkExactly(cfg: Config, d: Docs, home: HomeId, id: Id, now: int)
    requires DocsOk(cfg, d)
    ensures var step := MarkDelivered(cfg, d, home, id, now);
      var after, k := step.0, Key(home, id);
      if k !in d.uploads || !UploadOk(cfg, home, d.uploads[k]) || d.uploads[k].status == AwaitingUpload
      then step == (d, Failed(Unavailable))
      else if d.uploads[k].status == DeliveryReserved then
        && step.1 == Done && OnlyUpload(d, after, k)
        && after.uploads[k] == d.uploads[k].(status := Delivered, deliveredAt := Some(now))
        && after.index[id] == Entry(home, Delivered, d.uploads[k].createdAt)
      else step == (d, Done)
  {
    hide UploadOk, ArtifactsOk, ReleasesOk, PointersOk, UploadsBacked, StagingOk;
    if Key(home, id) in d.uploads {
      assert Indexed(d.index, Key(home, id), d.uploads[Key(home, id)]);
    }
    hide DocsOk;
  }

  // ---------------------------------------------------------------- finalization

  /** The upload is final, with the times it had or else this one. */
  predicate SaysFinal(u: Upload, f: Upload, now: int) {
    && f.status == Finalized && f.finalizedAt == Some(now)
    && f.deliveredAt == (if u.deliveredAt.Some? then u.deliveredAt else Some(now))
    && f.(status := u.status, deliveredAt := u.deliveredAt, finalizedAt := u.finalizedAt) == u
  }

  /** What stands in the way of a finalization that saw the upload `seen`. */
  predicate Finalizable(cfg: Config, d: Docs, p: Principal, home: HomeId, id: Id, seen: Upload) {
    var k := Key(home, id);
    && MayPublish(d, p, home) && k in d.uploads && UploadOk(cfg, home, d.uploads[k])
    && d.uploads[k].publisher == p.publisher && d.uploads[k].status != AwaitingUpload
    && d.uploads[k].input == seen.input && d.uploads[k].binding == seen.binding
    && var rk := Key(home, d.uploads[k].input.sha);
    rk in d.releases ==> d.releases[rk].binding == d.uploads[k].binding
  }

  /**
   * In every reachable store a finalization commits exactly when nothing stands in its way. It
   * leaves the upload final, its address published and the home's release of that digest stored:
   * the one there was, or one that says who published what, and where it is found.
   */
  lemma CommitExactly(cfg: Config, d: Docs, p: Principal, home: HomeId, id: Id, seen: Upload, now: int)
    requires DocsOk(cfg, d) && Addressed(cfg, d)
    ensures CommitFinalization(cfg, d, p, home, id, seen, now).1 == Done <==> Finalizable(cfg, d, p, home, id, seen)
    ensures CommitFinalization(cfg, d, p, home, id, seen, now).1 != Done ==>
      CommitFinalization(cfg, d, p, home, id, seen, now).0 == d
    ensures Finalizable(cfg, d, p, home, id, seen) ==>
      Committed(cfg, d, CommitFinalization(cfg, d, p, home, id, seen, now).0, Key(home, id), now)
  {
    var k := Key(home, id);
    hide UploadOk, Committed, PointersOk, StagingOk, ArtifactsOk;
    if k in d.uploads {
      StoredUpload(cfg, d, home, id);
      var rk := Key(home, d.uploads[k].input.sha);
      if rk in d.releases {
        StoredRelease(cfg, d, rk);
      }
      hide DocsOk, ReleaseOk, UploadsIndexed, IndexBacked, UploadsBacked, ReleasesOk;
      if Finalizable(cfg, d, p, home, id, seen) {
        CommitWrites(cfg, d, p, home, id, seen, now);
      }
    }
  }

  predicate Committed(cfg: Config, d: Docs, after: Docs, k: Key, now: int)
    requires k in d.uploads
  {
    var u := d.uploads[k];
    var rk := Key(k.home, u.input.sha);
    && k in after.uploads && rk in after.releases && k.id in d.index && k.id in after.index
    && (if u.status == Finalized then after.uploads[k] == u else SaysFinal(u, after.uploads[k], now))
    && after.index == d.index[k.id := d.index[k.id].(status := Finalized)]
    && after.uploads == d.uploads[k := after.uploads[k]]
    && after.publications == d.publications[u.input.sha := cfg.url(u.input.sha)]
    && after.releases == d.releases[rk := after.releases[rk]]
    && (rk in d.releases ==> after.releases[rk] == d.releases[rk])
    && (rk !in d.releases ==>
          after.releases[rk] == Release(u.input, u.publisher, u.binding, cfg.url(u.input.sha), now))
    && after == d.(uploads := after.uploads, index := after.index, publications := after.publications, releases := after.releases)
  }

  lemma CommitWrites(cfg: Config, d: Docs, p: Principal, home: HomeId, id: Id, seen: Upload, now: int)
    requires Finalizable(cfg, d, p, home, id, seen)
    requires var u := d.uploads[Key(home, id)];
      && Indexed(d.index, Key(home, id), u)
      && (u.status == Finalized ==> Key(home, u.input.sha) in d.releases)
      && (u.input.sha in d.publications ==> d.publications[u.input.sha] == cfg.url(u.input.sha))
      && (Key(home, u.input.sha) in d.releases ==> ReleaseOk(cfg, Key(home, u.input.sha), d.releases[Key(home, u.input.sha)]))
    ensures Committed(cfg, d, CommitFinalization(cfg, d, p, home, id, seen, now).0, Key(home, id), now)
  {
    hide UploadOk, ReleaseOk;
  }

  // ---------------------------------------------------------------- whole calls

  /** An uninterrupted delivery that is answered as done staged exactly these bytes, under the reservation it made itself. */
  lemma DeliveryStores(
    cfg: Config, d: Docs, id: Id, token: bytes, data: bytes, seenAt: int, reservedAt: int, markedAt: int)
    requires DocsOk(cfg, d)
    ensures var step := Delivery(cfg, d, id, token, data, seenAt, reservedAt, markedAt);
      var after, reply := step.0, step.1;
      reply == Done ==>
        && 1 <= |data| <= 2_097_152 && id in after.staging && after.staging[id] == data
        && (id in d.staging ==> d.staging[id] == data)
        && id in d.index && Key(d.index[id].home, id) in d.uploads && Key(d.index[id].home, id) in after.uploads
        && var u, v := d.uploads[Key(d.index[id].home, id)], after.uploads[Key(d.index[id].home, id)];
        && u.status == AwaitingUpload && cfg.verifier(u.version, id, token) == u.verifier
        && v == u.(status := Delivered, consumedAt := Some(reservedAt), deliveredAt := Some(markedAt))
  {
    hide UploadOk, DocsOk;
  }

  /**
   * An uninterrupted finalization that commits found staged bytes with valid syntax and the digest and
   * length the upload declares, stored them under that digest, and left the upload final.
   */
  lemma FinalizationStores(cfg: Config, d: Docs, p: Principal, home: HomeId, id: Id, now: int)
    ensures var step := Finalization(cfg, d, p, home, id, now);
      var after, reply := step.0, step.1;
      reply == Done ==>
        && Key(home, id) in d.uploads && id in d.staging
        && var u := d.uploads[Key(home, id)];
        && MayPublish(d, p, home) && u.publisher == p.publisher
        && cfg.syntaxValid(d.staging[id]) && cfg.sha256(d.staging[id]) == u.input.sha && |d.staging[id]| == u.input.size
        && u.input.sha in after.artifacts && after.artifacts[u.input.sha] == d.staging[id]
        && Key(home, id) in after.uploads && after.uploads[Key(home, id)].status == Finalized
        && Key(home, u.input.sha) in after.releases && u.input.sha in after.publications
  {
    hide UploadOk, ReleaseOk, CommitFinalization, Authorize;
    Authorized(d, p, home);
    var found := AuthorizedUpload(cfg, d, p, home, id);
    if found.Found? && id in d.staging {
      var stored := WriteArtifact(d, cfg.sha256(d.staging[id]), d.staging[id]).0;
      CommitDone(cfg, stored, p, home, id, found.upload, now);
    }
  }

  lemma Authorized(d: Docs, p: Principal, home: HomeId)
    ensures Authorize(d, p, home) == Done <==> MayPublish(d, p, home)
    ensures Authorize(d, p, home) == Done || Authorize(d, p, home).Failed?
  {
  }

  lemma CommitDone(cfg: Config, d: Docs, p: Principal, home: HomeId, id: Id, seen: Upload, now: int)
    ensures var step := CommitFinalization(cfg, d, p, home, id, seen, now);
      step.1 == Done ==>
        && MayPublish(d, p, home) && Key(home, id) in d.uploads && Key(home, id) in step.0.uploads
        && step.0.uploads[Key(home, id)].status == Finalized && step.0.artifacts == d.artifacts
        && Key(home, d.uploads[Key(home, id)].input.sha) in step.0.releases
        && d.uploads[Key(home, id)].input.sha in step.0.publications
    ensures CommitFinalization(cfg, d, p, home, id, seen, now).1 in {Done} ||
      CommitFinalization(cfg, d, p, home, id, seen, now).1.Failed?
  {
    hide UploadOk, ReleaseOk, Agrees;
  }
}
