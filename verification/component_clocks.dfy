/** Clocks that disagree: when an upload record still passes its own checks after it was rewritten. */
module ComponentClocks {
  import opened Wire
  import opened Options
  import opened Components
  import opened ComponentCalls
  import opened ComponentIntegrity

  /** The last time written in the life of a reserved upload. */
  function LastStamp(u: Upload): int {
    if u.deliveredAt.Some? then u.deliveredAt.value else if u.consumedAt.Some? then u.consumedAt.value else u.createdAt
  }

  /** Marking delivery leaves a record that still passes its own checks exactly when the clock is not behind the reservation's. */
  lemma DeliveryKeepsRecordValid(cfg: Config, d: Docs, home: HomeId, id: Id, now: int)
    requires Key(home, id) in d.uploads && UploadOk(cfg, home, d.uploads[Key(home, id)])
    requires Indexed(d.index, Key(home, id), d.uploads[Key(home, id)])
    requires d.uploads[Key(home, id)].status == DeliveryReserved
    ensures var after, reply := MarkDelivered(cfg, d, home, id, now).0, MarkDelivered(cfg, d, home, id, now).1;
      && reply == Done && after.uploads[Key(home, id)].status == Delivered
      && (UploadOk(cfg, home, after.uploads[Key(home, id)]) <==> d.uploads[Key(home, id)].consumedAt.value <= now)
  {
    hide InputOk;
  }

  /**
   * A finalization leaves a record that still passes its own checks exactly when its clock is not
   * behind the delivery's, or the reservation's when delivery was never marked.
   */
  lemma FinalizationKeepsRecordValid(
    cfg: Config, d: Docs, p: Principal, home: HomeId, id: Id, seen: Upload, now: int)
    requires CommitFinalization(cfg, d, p, home, id, seen, now).1 == Done
    requires d.uploads[Key(home, id)].status != Finalized
    ensures var u, after := d.uploads[Key(home, id)], CommitFinalization(cfg, d, p, home, id, seen, now).0;
      && UploadOk(cfg, home, u) && Key(home, id) in after.uploads && after.uploads[Key(home, id)].status == Finalized
      && (UploadOk(cfg, home, after.uploads[Key(home, id)]) <==> LastStamp(u) <= now)
  {
    hide InputOk, ReleaseOk, Authorize, Indexed, AsFinal, TimesOk;
    FinalTimes(d.uploads[Key(home, id)], now);
  }

  lemma FinalTimes(u: Upload, now: int)
    requires TimesOk(u) && u.status in {DeliveryReserved, Delivered}
    ensures TimesOk(AsFinal(u, now)) <==> LastStamp(u) <= now
    ensures AsFinal(u, now).status == Finalized
    ensures AsFinal(u, now).input == u.input && AsFinal(u, now).binding == u.binding && AsFinal(u, now).publisher == u.publisher
  {
  }

  // ---------------------------------------------------------------- runs

  ghost predicate UploadsValid(cfg: Config, uploads: map<Key, Upload>) {
    forall k :: k in uploads ==> UploadOk(cfg, k.home, uploads[k])
  }

  predicate DeliveryInTime(cfg: Config, d: Docs, home: HomeId, id: Id, now: int) {
    var k := Key(home, id);
    k in d.uploads && d.uploads[k].status == DeliveryReserved && MarkDelivered(cfg, d, home, id, now).1 == Done ==>
      LastStamp(d.uploads[k]) <= now
  }

  predicate FinalizationInTime(cfg: Config, d: Docs, p: Principal, home: HomeId, id: Id, seen: Upload, now: int) {
    var k := Key(home, id);
    k in d.uploads && d.uploads[k].status != Finalized && CommitFinalization(cfg, d, p, home, id, seen, now).1 == Done ==>
      LastStamp(d.uploads[k]) <= now
  }

  /** A step that marks a delivery or finalizes does so with a clock not behind the stamp it follows. */
  predicate InTime(cfg: Config, s: System, a: Action) {
    match a
    case Deliver(pid, now, _) =>
      ProcessOf(s, pid).Staged? ==> DeliveryInTime(cfg, s.d, ProcessOf(s, pid).home, ProcessOf(s, pid).id, now)
    case Commit(pid, now, _) =>
      var p := ProcessOf(s, pid);
      p.Stored? ==> FinalizationInTime(cfg, s.d, p.p, p.home, p.id, p.seen, now)
    case _ => true
  }

  /** The documents after rewriting one upload that passed its checks. */
  lemma OneRewritten(cfg: Config, a: map<Key, Upload>, b: map<Key, Upload>, k: Key)
    requires k in a ==> UploadOk(cfg, k.home, a[k])
    requires k in b && b == a[k := b[k]]
    ensures UploadsValid(cfg, b) <==> UploadsValid(cfg, a) && UploadOk(cfg, k.home, b[k])
  {
    hide UploadOk;
    if UploadsValid(cfg, b) {
      forall l | l in a ensures UploadOk(cfg, l.home, a[l]) {
        assert l in b;
      }
    }
  }

  lemma CreateValid(cfg: Config, d: Docs, i: Issue)
    ensures UploadsValid(cfg, CreateUpload(cfg, d, i).0.uploads) <==> UploadsValid(cfg, d.uploads)
  {
    hide InputOk, Authorize, Indexed, UploadsValid;
    var after := CreateUpload(cfg, d, i).0;
    if after != d {
      hide UploadOk;
      NewUploadOk(cfg, i);
      OneRewritten(cfg, d.uploads, after.uploads, Key(i.home, i.id));
    }
  }

  lemma NewUploadOk(cfg: Config, i: Issue)
    requires InputOk(i.input)
    ensures UploadOk(cfg, i.home, NewUpload(cfg, i))
  {
  }

  lemma ReserveValid(cfg: Config, d: Docs, id: Id, token: bytes, now: int)
    ensures UploadsValid(cfg, ReserveDelivery(cfg, d, id, token, now).0.uploads) <==> UploadsValid(cfg, d.uploads)
  {
    hide InputOk, UploadsValid;
    var after, reply := ReserveDelivery(cfg, d, id, token, now).0, ReserveDelivery(cfg, d, id, token, now).1;
    if reply.Home? {
      OneRewritten(cfg, d.uploads, after.uploads, Key(reply.home, id));
    }
  }

  lemma MarkValid(cfg: Config, d: Docs, home: HomeId, id: Id, now: int)
    ensures UploadsValid(cfg, MarkDelivered(cfg, d, home, id, now).0.uploads)
       <==> UploadsValid(cfg, d.uploads) && DeliveryInTime(cfg, d, home, id, now)
  {
    hide InputOk, UploadsValid;
    var k, after := Key(home, id), MarkDelivered(cfg, d, home, id, now).0;
    if k in d.uploads && d.uploads[k].status == DeliveryReserved && MarkDelivered(cfg, d, home, id, now).1 == Done {
      DeliveryKeepsRecordValid(cfg, d, home, id, now);
      OneRewritten(cfg, d.uploads, after.uploads, k);
    } else {
      assert after == d;
    }
  }

  lemma CommitValid(cfg: Config, d: Docs, p: Principal, home: HomeId, id: Id, seen: Upload, now: int)
    requires DocsOk(cfg, d)
    ensures UploadsValid(cfg, CommitFinalization(cfg, d, p, home, id, seen, now).0.uploads)
       <==> UploadsValid(cfg, d.uploads) && FinalizationInTime(cfg, d, p, home, id, seen, now)
  {
    hide InputOk, ReleaseOk, UploadsValid, DocsOk, Authorize, UploadOk, Agrees;
    var k, after := Key(home, id), CommitFinalization(cfg, d, p, home, id, seen, now).0;
    if CommitFinalization(cfg, d, p, home, id, seen, now).1 != Done {
      assert after == d;
    } else if d.uploads[k].status == Finalized {
      FinalizedReleased(cfg, d, k);
      assert after.uploads == d.uploads;
    } else {
      FinalizationKeepsRecordValid(cfg, d, p, home, id, seen, now);
      OneRewritten(cfg, d.uploads, after.uploads, k);
    }
  }

  lemma FinalizedReleased(cfg: Config, d: Docs, k: Key)
    requires DocsOk(cfg, d) && k in d.uploads && d.uploads[k].status == Finalized
    ensures Key(k.home, d.uploads[k].input.sha) in d.releases
  {
    assert Backed(d.staging, d.releases, k, d.uploads[k]);
  }

  lemma StepValid(cfg: Config, s: System, a: Action)
    requires Inv(cfg, s)
    ensures UploadsValid(cfg, Next(cfg, s, a).d.uploads) <==> UploadsValid(cfg, s.d.uploads) && InTime(cfg, s, a)
  {
    hide UploadsValid, CreateUpload, ReserveDelivery, MarkDelivered, CommitFinalization, DeliveryHome, AuthorizedUpload,
      DeliveryInTime, FinalizationInTime, DocsOk, ProcessesOk, Exclusive, Activate, Evidence;
    if a.IssueUpload? {
      CreateValid(cfg, s.d, a.i);
    } else if a.Reserve? {
      var p := ProcessOf(s, a.pid);
      if p.Delivering? { ReserveValid(cfg, s.d, p.id, p.token, a.now); }
    } else if a.Deliver? {
      var p := ProcessOf(s, a.pid);
      if p.Staged? { MarkValid(cfg, s.d, p.home, p.id, a.now); }
    } else if a.Commit? {
      var p := ProcessOf(s, a.pid);
      if p.Stored? { CommitValid(cfg, s.d, p.p, p.home, p.id, p.seen, a.now); }
    } else {
      OthersLeaveUploads(cfg, s, a);
    }
  }

  lemma OthersLeaveUploads(cfg: Config, s: System, a: Action)
    requires !a.IssueUpload? && !a.Reserve? && !a.Deliver? && !a.Commit?
    ensures Next(cfg, s, a).d.uploads == s.d.uploads
  {
    hide DeliveryHome, AuthorizedUpload, Evidence, ReleaseOk, PointerOk, Authorize;
  }

  /** The `k`-th step of a run was in time. */
  predicate InTimeAt(cfg: Config, actions: seq<Action>, k: nat)
    requires k < |actions|
  {
    InTime(cfg, Run(cfg, actions[..k]), actions[k])
  }

  lemma InTimePrefix(cfg: Config, actions: seq<Action>, k: nat)
    requires k < |actions| - 1
    ensures InTimeAt(cfg, actions[..|actions| - 1], k) == InTimeAt(cfg, actions, k)
  {
    hide InTime, Run;
    assert actions[..|actions| - 1][..k] == actions[..k];
  }

  /**
   * Every upload record of a run passes its own checks if and only if every delivery marked and every
   * finalization sampled a clock not behind the stamp it follows.
   */
  lemma {:induction false} UploadsStayValid(cfg: Config, actions: seq<Action>)
    ensures UploadsValid(cfg, Run(cfg, actions).d.uploads) <==> forall k: nat :: k < |actions| ==> InTimeAt(cfg, actions, k)
  {
    hide Next, InTime, UploadsValid, Inv;
    if actions == [] {
      NothingUploaded(cfg);
    } else {
      var n := |actions| - 1;
      UploadsStayValid(cfg, actions[..n]);
      RunInvariant(cfg, actions[..n]);
      StepValid(cfg, Run(cfg, actions[..n]), actions[n]);
      assert Run(cfg, actions) == Next(cfg, Run(cfg, actions[..n]), actions[n]);
      assert InTimeAt(cfg, actions, n) == InTime(cfg, Run(cfg, actions[..n]), actions[n]);
      hide Run, InTimeAt;
      forall k: nat | k < n ensures InTimeAt(cfg, actions[..n], k) == InTimeAt(cfg, actions, k) {
        InTimePrefix(cfg, actions, k);
      }
    }
  }

  lemma NothingUploaded(cfg: Config)
    ensures UploadsValid(cfg, EMPTY.uploads)
  {
  }
}
