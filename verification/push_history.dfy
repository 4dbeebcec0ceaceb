/** What becomes of a revoked grant and of a consumed challenge in the rest of a run. */
module PushHistory {
  import opened Wire
  import opened Options
  import opened Retention
  import opened Push
  import opened PushRegistry

  // ---------------------------------------------------------------- authorization

  /** In a consistent store a grant authorizes its home exactly while it is active, unexpired and its destination exists. */
  lemma AuthorizeExactly(st: State, o: Owner, id: Id, now: int)
    requires Consistent(st) && id in RegistryOf(st, o).records
    ensures var g, user := RegistryOf(st, o).records[id], UserOf(st, o.uid);
      var reply := AuthorizeStep(st, o.home, id, now);
      && reply != Failed(Unavailable)
      && (reply.Authorized? <==>
            g.status == Active && now < g.expiresAt && g.destination in user.destinations && 1 <= |o.uid| <= 128)
      && (reply.Authorized? ==> reply == Authorized(g.destination, user.destinations[g.destination].fid))
  {
    hide UserOf, OneActive;
    StoredRegistry(st, o);
    StoredUser(st, o.uid);
    OwnEntries(st, o, id);
  }

  /** Making room drops the oldest grant among those that authorize nothing any more. */
  lemma CompactionLosesNothing(st: State, o: Owner, destination: Id, id: Id, g: Id, now: int)
    requires Consistent(st) && g in RegistryOf(st, o).records
    requires var after := CreateGrantStep(st, o, destination, id, now).0; g !in RegistryOf(after, o).records
    ensures !AuthorizeStep(st, o.home, g, now).Authorized?
    ensures var records := RegistryOf(st, o).records;
      && |records| == MAX_RETAINED_GRANTS
      && forall other :: other in records && other != g && Compactable(records[other], UserOf(st, o.uid).destinations.Keys, now)
           ==> Before(StampOf(records, g), StampOf(records, other))
  {
    hide Consistent, UserOf, DestinationsReconciled, Before, AuthorizeStep, Previous, OneActive, IndexedIfAny, Indexed;
    var r, user := RegistryOf(st, o), UserOf(st, o.uid);
    StoredRegistry(st, o);
    StoredUser(st, o.uid);
    CompactedDrops(r, user, now);
    AuthorizeExactly(st, o, g, now);
    assert Compacted(r, user.destinations.Keys, now) == Some(g);
    forall other | other in r.records && other != g && Compactable(r.records[other], user.destinations.Keys, now)
      ensures Before(StampOf(r.records, g), StampOf(r.records, other))
    {
      assert StampOf(r.records, other) in Candidates(r.records, user.destinations.Keys, now);
    }
  }

  // ---------------------------------------------------------------- revocation is final

  predicate Dead(st: State, o: Owner, id: Id) {
    id in RegistryOf(st, o).records ==> RegistryOf(st, o).records[id].status == Revoked
  }

  /** Revoking a grant, or a home and user that have no such grant, leaves it dead. */
  lemma RevokeKills(st: State, o: Owner, id: Id, now: int)
    requires RevokeGrantStep(st, o, id, now).1 == Done
    ensures Dead(RevokeGrantStep(st, o, id, now).0, o, id)
  {
  }

  /** A new grant for a destination kills the one it replaces. */
  lemma CreateKillsPrevious(st: State, o: Owner, destination: Id, id: Id, now: int, other: Id)
    requires Consistent(st)
    requires CreateGrantStep(st, o, destination, id, now).1.Granted?
    requires ActiveFor(RegistryOf(st, o).records, destination, other) && other != id
    ensures Dead(CreateGrantStep(st, o, destination, id, now).0, o, other)
  {
    hide RegistryOf, UserOf, UserSound, Indexed, CreateGrantStep, Previous;
    CreateGrantKeeps(st, o, destination, id, now);
    var after := CreateGrantStep(st, o, destination, id, now).0;
    StoredRegistry(st, o);
    StoredRegistry(after, o);
    GrantedIsActive(st, o, destination, id, now);
    KeepsDestination(st, o, destination, id, now, other);
    assert !ActiveAt(RegistryOf(after, o).records, other);
  }

  lemma GrantedIsActive(st: State, o: Owner, destination: Id, id: Id, now: int)
    requires CreateGrantStep(st, o, destination, id, now).1.Granted?
    ensures ActiveFor(RegistryOf(CreateGrantStep(st, o, destination, id, now).0, o).records, destination, id)
  {
    hide UserOf, DestinationsReconciled, GrantsReconciled, Previous, Compacted;
  }

  lemma KeepsDestination(st: State, o: Owner, destination: Id, id: Id, now: int, other: Id)
    requires other in RegistryOf(st, o).records && other != id
    ensures var after := RegistryOf(CreateGrantStep(st, o, destination, id, now).0, o).records;
      other in after ==> after[other].destination == RegistryOf(st, o).records[other].destination
  {
    hide UserOf, DestinationsReconciled, GrantsReconciled, Previous, Compacted;
  }

  predicate Creates(e: Event, o: Owner, id: Id) { e.call.CreateGrant? && e.call.o == o && e.call.grant == id }

  lemma StepStaysDead(keys: Keys, st: State, e: Event, o: Owner, id: Id)
    requires Dead(st, o, id) && !Creates(e, o, id)
    ensures Dead(Step(keys, st, e).0, o, id)
  {
    hide UserOf, DestinationsReconciled, GrantsReconciled, Previous, Compacted, ChallengesOk, Proved, Indexed;
  }

  lemma {:induction false} DeadStays(keys: Keys, st: State, events: seq<Event>, o: Owner, id: Id)
    requires Dead(st, o, id) && forall i :: 0 <= i < |events| ==> !Creates(events[i], o, id)
    ensures Dead(Run(keys, st, events), o, id)
    decreases |events|
  {
    hide Step, Dead;
    if events != [] {
      DeadStays(keys, st, events[..|events| - 1], o, id);
      StepStaysDead(keys, Run(keys, st, events[..|events| - 1]), events[|events| - 1], o, id);
    }
  }

  lemma {:induction false} RunConsistent(keys: Keys, st: State, events: seq<Event>)
    requires Consistent(st)
    ensures Consistent(Run(keys, st, events))
    decreases |events|
  {
    hide Consistent, Step;
    if events != [] {
      RunConsistent(keys, st, events[..|events| - 1]);
      StepKeeps(keys, Run(keys, st, events[..|events| - 1]), events[|events| - 1]);
    }
  }

  /** Once revoked, a grant authorizes nothing for the rest of the run, unless its identifier is issued again. */
  lemma RevokedNeverAuthorizes(keys: Keys, st: State, o: Owner, id: Id, revokedAt: int, events: seq<Event>, now: int)
    requires Consistent(st) && RevokeGrantStep(st, o, id, revokedAt).1 == Done
    requires forall i :: 0 <= i < |events| ==> !Creates(events[i], o, id)
    ensures var later := Run(keys, RevokeGrantStep(st, o, id, revokedAt).0, events);
      AuthorizeStep(later, o.home, id, now).Authorized? ==> later.index[id].owner != o.uid
  {
    hide RevokeGrantStep, Consistent, Run, Indexed, UserOf;
    RevokeKills(st, o, id, revokedAt);
    DeadStays(keys, RevokeGrantStep(st, o, id, revokedAt).0, events, o, id);
  }

  // ---------------------------------------------------------------- a challenge registers one destination

  predicate Spent(st: State, uid: Uid, id: Id) {
    id in UserOf(st, uid).challenges ==> UserOf(st, uid).challenges[id].status == Consumed
  }

  predicate Issues(e: Event, uid: Uid, id: Id) {
    e.call.IssueChallenge? && e.call.input.uid == uid && e.call.input.id == id
  }

  ghost predicate Completes(keys: Keys, st: State, e: Event, uid: Uid, id: Id) {
    e.call.CompleteChallenge? && e.call.uid == uid && e.call.challenge == id && Step(keys, st, e).0 != st
  }

  /** How many destinations a challenge registered in the course of a run. */
  ghost function Completions(keys: Keys, st: State, events: seq<Event>, uid: Uid, id: Id): nat
    decreases |events|
  {
    if events == [] then 0
    else
      var before := events[..|events| - 1];
      Completions(keys, st, before, uid, id)
      + if Completes(keys, Run(keys, st, before), events[|events| - 1], uid, id) then 1 else 0
  }

  lemma StepSpends(keys: Keys, st: State, e: Event, uid: Uid, id: Id)
    requires !Issues(e, uid, id)
    ensures Spent(st, uid, id) ==> Spent(Step(keys, st, e).0, uid, id) && !Completes(keys, st, e, uid, id)
    ensures Completes(keys, st, e, uid, id) ==> Spent(Step(keys, st, e).0, uid, id)
  {
    hide DestinationsReconciled, GrantsReconciled, Previous, Compacted, ChallengesOk, Proved, Indexed, RegistryOf,
      CreateGrantStep, RevokeGrantStep, AuthorizeStep;
    match e.call
    case IssueChallenge(input) =>
    case CompleteChallenge(_, _, _, _, _) =>
    case DeleteDestination(_, _) =>
    case CreateGrant(o, destination, grant) => GrantsLeaveUsers(st, o, destination, grant, e.now);
    case RevokeGrant(o, grant) => GrantsLeaveUsers(st, o, grant, grant, e.now);
    case AuthorizePush(_, _) =>
  }

  lemma GrantsLeaveUsers(st: State, o: Owner, destination: Id, grant: Id, now: int)
    ensures CreateGrantStep(st, o, destination, grant, now).0.users == st.users
    ensures RevokeGrantStep(st, o, grant, now).0.users == st.users
  {
    hide UserOf, DestinationsReconciled, GrantsReconciled, Previous, Compacted, Indexed;
  }

  /** A challenge registers at most one destination, however often its completion is repeated. */
  lemma {:induction false} ChallengeOnce(keys: Keys, st: State, events: seq<Event>, uid: Uid, id: Id)
    requires forall i :: 0 <= i < |events| ==> !Issues(events[i], uid, id)
    ensures Completions(keys, st, events, uid, id) <= if Spent(st, uid, id) then 0 else 1
    ensures Spent(st, uid, id) || Completions(keys, st, events, uid, id) == 1 ==> Spent(Run(keys, st, events), uid, id)
    decreases |events|
  {
    hide Step, Spent, Completes;
    if events != [] {
      var before := events[..|events| - 1];
      ChallengeOnce(keys, st, before, uid, id);
      StepSpends(keys, Run(keys, st, before), events[|events| - 1], uid, id);
    }
  }

  /** A destination is registered only by a proof that the stored challenge verifies, and carries what it proved. */
  lemma CompletionProved(keys: Keys, st: State, uid: Uid, app: string, id: Id, secret: bytes, destination: Id, now: int)
    requires CompleteStep(keys, st, uid, app, id, secret, destination, now).0 != st
    ensures var step := CompleteStep(keys, st, uid, app, id, secret, destination, now);
      var after, reply := step.0, step.1;
      && id in UserOf(st, uid).challenges
      && var c := UserOf(st, uid).challenges[id];
      && c.status == Pending && Proved(keys, c, uid, app, id, secret, now)
      && destination !in UserOf(st, uid).destinations
      && reply == Registered(destination, UserOf(after, uid).destinations[destination])
      && UserOf(after, uid).destinations[destination].fid == c.fid
      && UserOf(after, uid).challenges[id].destination == Some(destination)
  {
    hide DestinationsReconciled, Proved;
  }
}
