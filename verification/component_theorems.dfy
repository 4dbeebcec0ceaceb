/** What the invariant means for publishers and readers, over every interleaving of calls. */
module ComponentTheorems {
  import opened Wire
  import opened Options
  import opened Components
  import opened ComponentCalls
  import opened ComponentIntegrity

  /**
   * Publication integrity: in every reachable state the live pointer of a home has a release record
   * of that home with the same input, a publication, and stored bytes whose digest and length are
   * the pointer's.
   */
  lemma PublicationIntegrity(cfg: Config, actions: seq<Action>, h: HomeId)
    ensures var d := Run(cfg, actions).d;
      h in d.pointers ==>
        var p := d.pointers[h];
        && Key(h, p.input.sha) in d.releases && d.releases[Key(h, p.input.sha)].input == p.input
        && p.input.sha in d.publications && d.publications[p.input.sha] == p.url == cfg.url(p.input.sha)
        && p.input.sha in d.artifacts && cfg.sha256(d.artifacts[p.input.sha]) == p.input.sha
        && |d.artifacts[p.input.sha]| == p.input.size
        && p.generation >= 1
  {
    hide Run;
    RunInvariant(cfg, actions);
    var d := Run(cfg, actions).d;
    if h in d.pointers {
      PointerBacked(cfg, d, h);
    }
  }

  lemma PointerBacked(cfg: Config, d: Docs, h: HomeId)
    requires DocsOk(cfg, d) && h in d.pointers
    ensures var p := d.pointers[h];
      && Released(d.releases, h, p)
      && Published(cfg, d.publications, d.artifacts, p.input)
      && ReleaseOk(cfg, Key(h, p.input.sha), d.releases[Key(h, p.input.sha)])
      && cfg.sha256(d.artifacts[p.input.sha]) == p.input.sha
  {
    hide UploadsIndexed, IndexBacked, StagingOk, UploadsBacked;
    assert Released(d.releases, h, d.pointers[h]);
    StoredRelease(cfg, d, Key(h, d.pointers[h].input.sha));
  }

  /** A finalized upload has its release, its publication and its artifact, and the bytes stored match the digest. */
  lemma FinalizedUploadIsPublished(cfg: Config, actions: seq<Action>, k: Key)
    ensures var d := Run(cfg, actions).d;
      k in d.uploads && d.uploads[k].status == Finalized ==>
        var sha := d.uploads[k].input.sha;
        && Key(k.home, sha) in d.releases && d.releases[Key(k.home, sha)].binding == d.uploads[k].binding
        && sha in d.publications && sha in d.artifacts && cfg.sha256(d.artifacts[sha]) == sha
  {
    hide Run;
    RunInvariant(cfg, actions);
    var d := Run(cfg, actions).d;
    if k in d.uploads && d.uploads[k].status == Finalized {
      StoredUpload(cfg, d, k.home, k.id);
      StoredRelease(cfg, d, Key(k.home, d.uploads[k].input.sha));
      ArtifactDigest(cfg, d, d.uploads[k].input.sha);
    }
  }

  lemma ArtifactDigest(cfg: Config, d: Docs, sha: Digest)
    requires DocsOk(cfg, d) && sha in d.artifacts
    ensures cfg.sha256(d.artifacts[sha]) == sha
  {
  }

  /** The index carries the status of the upload record, and both exist together, in every reachable state. */
  lemma IndexCarriesStatus(cfg: Config, actions: seq<Action>, home: HomeId, id: Id)
    ensures var d := Run(cfg, actions).d;
      Key(home, id) in d.uploads <==> id in d.index && d.index[id].home == home
    ensures var d := Run(cfg, actions).d;
      Key(home, id) in d.uploads ==> d.index[id].status == d.uploads[Key(home, id)].status
  {
    hide Run;
    RunInvariant(cfg, actions);
    var d := Run(cfg, actions).d;
    if Key(home, id) in d.uploads {
      StoredUpload(cfg, d, home, id);
    }
    IndexHasUpload(cfg, d, id);
  }

  lemma IndexHasUpload(cfg: Config, d: Docs, id: Id)
    requires DocsOk(cfg, d)
    ensures id in d.index ==> Key(d.index[id].home, id) in d.uploads
  {
  }

  // ---------------------------------------------------------------- what never changes

  /** Staged bytes, artifacts, releases and publications never change once stored; an upload's status only moves forward. */
  lemma StoredForGood(cfg: Config, actions: seq<Action>, more: seq<Action>, k: Key, id: Id, sha: Digest)
    ensures var a, b := Run(cfg, actions).d, Run(cfg, actions + more).d;
      && (k in a.uploads ==> k in b.uploads && Forward(a.uploads[k], b.uploads[k]))
      && (id in a.staging ==> id in b.staging && b.staging[id] == a.staging[id])
      && (sha in a.artifacts ==> sha in b.artifacts && b.artifacts[sha] == a.artifacts[sha])
      && (k in a.releases ==> k in b.releases && b.releases[k] == a.releases[k])
  {
    hide Run;
    RunGrows(cfg, actions, more);
  }

  // ---------------------------------------------------------------- a capability is consumed once

  predicate Consumes(cfg: Config, s: System, a: Action, k: Key) {
    && k in s.d.uploads && s.d.uploads[k].status == AwaitingUpload
    && k in Next(cfg, s, a).d.uploads && Next(cfg, s, a).d.uploads[k].status != AwaitingUpload
  }

  function Consumptions(cfg: Config, actions: seq<Action>, k: Key): nat {
    if actions == [] then 0
    else
      var before, last := actions[..|actions| - 1], actions[|actions| - 1];
      Consumptions(cfg, before, k) + if Consumes(cfg, Run(cfg, before), last, k) then 1 else 0
  }

  /** However deliveries race, repeat or stop, the capability of one upload is consumed at most once in a whole run. */
  lemma {:induction false} CapabilityConsumedOnce(cfg: Config, actions: seq<Action>, k: Key)
    ensures Consumptions(cfg, actions, k) <= 1
    ensures Consumptions(cfg, actions, k) == 1 ==> Consumed(Run(cfg, actions).d, k.home, k.id)
  {
    hide Next, Run;
    if actions != [] {
      var before, last := actions[..|actions| - 1], actions[|actions| - 1];
      CapabilityConsumedOnce(cfg, before, k);
      LastStep(cfg, actions);
      StepGrows(cfg, Run(cfg, before), last);
    }
  }

  /** A reservation succeeds only for an upload still awaiting one, in time, with the token it was issued with. */
  lemma ReservationChecked(cfg: Config, d: Docs, id: Id, token: bytes, now: int)
    requires ReserveDelivery(cfg, d, id, token, now).0 != d
    ensures id in d.index && Key(d.index[id].home, id) in d.uploads
    ensures var u := d.uploads[Key(d.index[id].home, id)];
      && u.status == AwaitingUpload && u.createdAt <= now < u.expiresAt
      && cfg.verifier(u.version, id, token) == u.verifier
      && ReserveDelivery(cfg, d, id, token, now).0.uploads[Key(d.index[id].home, id)].consumedAt == Some(now)
  {
    hide UploadOk;
  }

  // ---------------------------------------------------------------- generations

  predicate Activates(cfg: Config, s: System, a: Action, home: HomeId, expected: int) {
    a.ActivateRelease? && a.a.home == home && a.a.expected == expected && Activate(cfg, s.d, a.a).1 == Done
  }

  function Activations(cfg: Config, actions: seq<Action>, home: HomeId, expected: int): nat {
    if actions == [] then 0
    else
      var before, last := actions[..|actions| - 1], actions[|actions| - 1];
      Activations(cfg, before, home, expected) + if Activates(cfg, Run(cfg, before), last, home, expected) then 1 else 0
  }

  lemma ActivationMoves(cfg: Config, s: System, a: Action, home: HomeId, expected: int)
    requires Activates(cfg, s, a, home, expected)
    ensures Generation(s.d, home) == expected && expected >= 0
    ensures Generation(Next(cfg, s, a).d, home) > expected
  {
    hide ReleaseOk, Authorize;
  }

  /** Of all the activations of one home that name the same expected generation, at most one commits. */
  lemma {:induction false} OneActivationPerGeneration(cfg: Config, actions: seq<Action>, home: HomeId, expected: int)
    ensures Activations(cfg, actions, home, expected) <= 1
    ensures Activations(cfg, actions, home, expected) == 1 ==> Generation(Run(cfg, actions).d, home) > expected
  {
    hide Next, Run, Activates, Generation, Inv;
    if actions != [] {
      var before, last := actions[..|actions| - 1], actions[|actions| - 1];
      OneActivationPerGeneration(cfg, before, home, expected);
      LastStep(cfg, actions);
      RunInvariant(cfg, before);
      GenerationGrows(cfg, Run(cfg, before), last, home);
      if Activates(cfg, Run(cfg, before), last, home, expected) {
        ActivationMoves(cfg, Run(cfg, before), last, home, expected);
      }
    }
  }

  lemma GenerationGrows(cfg: Config, s: System, a: Action, home: HomeId)
    requires Inv(cfg, s)
    ensures Generation(Next(cfg, s, a).d, home) >= Generation(s.d, home)
  {
    hide Next, Inv;
    StepGrows(cfg, s, a);
    StepKeeps(cfg, s, a);
    GenerationPositive(cfg, Next(cfg, s, a), home);
  }

  lemma GenerationPositive(cfg: Config, s: System, home: HomeId)
    requires Inv(cfg, s)
    ensures Generation(s.d, home) >= 0
  {
  }

  /** Every change of a live pointer raises its generation. */
  lemma GenerationStrictlyIncreases(cfg: Config, s: System, a: Action, home: HomeId)
    ensures home in s.d.pointers ==>
      home in Next(cfg, s, a).d.pointers
      && (Next(cfg, s, a).d.pointers[home] != s.d.pointers[home] ==>
            Next(cfg, s, a).d.pointers[home].generation > s.d.pointers[home].generation)
  {
    hide Next;
    StepGrows(cfg, s, a);
  }
}
