/** What each push transaction writes and answers, field by field, and what a deletion means for the rest of a run. */
module PushEffects {
  import opened Wire
  import opened Options
  import opened Retention
  import opened Push
  import opened PushRegistry
  import opened PushHistory

  /** Only this user's documents may differ. */
  predicate OnlyUser(a: State, b: State, uid: Uid) {
    && b.homes == a.homes && b.registries == a.registries && b.index == a.index
    && b.users.Keys == a.users.Keys + {uid}
    && forall u :: u in a.users && u != uid ==> b.users[u] == a.users[u]
  }

  // ---------------------------------------------------------------- destinations

  /** One destination gone, and one from the counter if it was there; whatever else the user has is as it was. */
  predicate Gone(user: User, next: User, id: Id) {
    && next.destinations == user.destinations - {id} && next.challenges == user.challenges
    && next.count == user.count - (if id in user.destinations then 1 else 0)
  }

  /** In a consistent store a deletion always succeeds, and takes away exactly the destination it names. */
  lemma DeleteExactly(st: State, uid: Uid, id: Id)
    requires Consistent(st)
    ensures DeleteStep(st, uid, id).1 == Done
    ensures Gone(UserOf(st, uid), UserOf(DeleteStep(st, uid, id).0, uid), id)
    ensures OnlyUser(st, DeleteStep(st, uid, id).0, uid) || DeleteStep(st, uid, id).0 == st
  {
    StoredUser(st, uid);
    var user := UserOf(st, uid);
    hide Consistent, DestinationOk, ChallengesOk, UserOf, OnlyUser, Gone;
    if id in user.destinations {
      DestinationDropped(user, id);
      var next := user.(count := user.count - 1, destinations := user.destinations - {id});
      hide UserSound, DestinationsReconciled;
      GoneIs(user, next, id);
      UserStored(st, uid, next);
    } else {
      NothingGone(user, id);
    }
  }

  lemma GoneIs(user: User, next: User, id: Id)
    requires id in user.destinations && user.count > 0
    requires next == user.(count := user.count - 1, destinations := user.destinations - {id})
    ensures Gone(user, next, id)
  {
  }

  lemma NothingGone(user: User, id: Id)
    requires id !in user.destinations
    ensures Gone(user, user, id)
  {
    assert user.destinations - {id} == user.destinations;
  }

  predicate Absent(st: State, uid: Uid, id: Id) { id !in UserOf(st, uid).destinations }

  /** The call registers this destination for this user. */
  predicate Registers(e: Event, uid: Uid, id: Id) {
    e.call.CompleteChallenge? && e.call.uid == uid && e.call.destination == id
  }

  lemma StepStaysAbsent(keys: Keys, st: State, e: Event, uid: Uid, id: Id)
    requires Absent(st, uid, id) && !Registers(e, uid, id)
    ensures Absent(Step(keys, st, e).0, uid, id)
  {
    hide DestinationsReconciled, GrantsReconciled, ChallengesOk, Proved, Indexed, CreateGrantStep, RevokeGrantStep, AuthorizeStep;
    match e.call
    case IssueChallenge(input) =>
    case CompleteChallenge(_, _, _, _, _) =>
    case DeleteDestination(_, _) =>
    case CreateGrant(o, destination, grant) => GrantsLeaveUsers(st, o, destination, grant, e.now);
    case RevokeGrant(o, grant) => GrantsLeaveUsers(st, o, grant, grant, e.now);
    case AuthorizePush(_, _) =>
  }

  lemma {:induction false} StaysAbsent(keys: Keys, st: State, events: seq<Event>, uid: Uid, id: Id)
    requires Absent(st, uid, id) && forall i :: 0 <= i < |events| ==> !Registers(events[i], uid, id)
    ensures Absent(Run(keys, st, events), uid, id)
    decreases |events|
  {
    hide Step, Absent;
    if events != [] {
      StaysAbsent(keys, st, events[..|events| - 1], uid, id);
      StepStaysAbsent(keys, Run(keys, st, events[..|events| - 1]), events[|events| - 1], uid, id);
    }
  }

  /**
   * After a destination is deleted, no grant of its user authorizes a push to it in the rest of the
   * run, until a completed challenge registers the same identifier again.
   */
  lemma DeletedNeverAuthorized(
    keys: Keys, st: State, uid: Uid, id: Id, events: seq<Event>, home: HomeId, grant: Id, now: int)
    requires Consistent(st)
    requires forall i :: 0 <= i < |events| ==> !Registers(events[i], uid, id)
    ensures var later := Run(keys, DeleteStep(st, uid, id).0, events);
      var reply := AuthorizeStep(later, home, grant, now);
      reply.Authorized? && reply.id == id ==> later.index[grant].owner != uid
  {
    hide DeleteStep, Consistent, Run, Indexed, RegistryOf, GrantOk, DestinationOk, OnlyUser;
    DeleteExactly(st, uid, id);
    StaysAbsent(keys, DeleteStep(st, uid, id).0, events, uid, id);
  }

  // ---------------------------------------------------------------- challenges

  /** A challenge as it is issued. */
  predicate SaysIssued(keys: Keys, c: Challenge, input: IssueInput, now: int) {
    && c.app == input.app && c.fid == input.fid && c.fingerprint == keys.fingerprint(input.version, input.fid)
    && c.verifier == keys.verifier(input.version, input.uid, input.app, input.id, input.secret)
    && c.version == input.version && c.status == Pending && c.destination == None && c.consumedAt == None
    && c.createdAt == now && c.expiresAt == now + 300_000
  }

  /** The challenges that are kept when another is issued. */
  function Pendings(user: User, now: int): set<Id> {
    set c | c in user.challenges && user.challenges[c].status == Pending && now < user.challenges[c].expiresAt
  }

  /** The user's challenges after a sweep and one more; all else the same. */
  predicate SweptAndIssued(keys: Keys, user: User, next: User, input: IssueInput, now: int) {
    && next.count == user.count && next.destinations == user.destinations
    && next.challenges.Keys == Pendings(user, now) + {input.id} && SaysIssued(keys, next.challenges[input.id], input, now)
    && forall c :: c in Pendings(user, now) ==> next.challenges[c] == user.challenges[c]
  }

  /**
   * A new challenge is stored exactly when its key version is known and fewer than four others are
   * pending and unexpired; those are kept as they are, and every other one is swept.
   */
  lemma IssueExactly(keys: Keys, st: State, input: IssueInput, now: int)
    requires Consistent(st) && input.id !in UserOf(st, input.uid).challenges
    ensures var user, after, reply :=
        UserOf(st, input.uid), IssueStep(keys, st, input, now).0, IssueStep(keys, st, input, now).1;
      if !keys.known(input.version) then reply == Failed(Unavailable) && after == st
      else if |Pendings(user, now)| >= 4 then reply == Failed(LimitExceeded) && after == st
      else
        && reply == Issued(now + 300_000) && OnlyUser(st, after, input.uid)
        && SweptAndIssued(keys, user, UserOf(after, input.uid), input, now)
  {
    StoredUser(st, input.uid);
    var user := UserOf(st, input.uid);
    hide Consistent, DestinationsReconciled, UserOf, OnlyUser, SweptAndIssued, LiveChallenges, Pendings, ChallengeOk;
    LiveArePending(user, now);
    if keys.known(input.version) && |Pendings(user, now)| < 4 {
      SweepKeeps(keys, user, input, now);
      UserStored(st, input.uid, user.(challenges := LiveChallenges(user, now)[input.id := NewChallenge(keys, input, now)]));
    }
  }

  lemma LiveArePending(user: User, now: int)
    ensures LiveChallenges(user, now).Keys == Pendings(user, now) && |LiveChallenges(user, now)| == |Pendings(user, now)|
  {
    assert LiveChallenges(user, now).Keys == Pendings(user, now);
  }

  lemma SweepKeeps(keys: Keys, user: User, input: IssueInput, now: int)
    requires input.id !in user.challenges
    ensures SweptAndIssued(
      keys, user, user.(challenges := LiveChallenges(user, now)[input.id := NewChallenge(keys, input, now)]), input, now)
  {
  }

  lemma UserStored(st: State, uid: Uid, next: User)
    ensures UserOf(st.(users := st.users[uid := next]), uid) == next
    ensures OnlyUser(st, st.(users := st.users[uid := next]), uid)
  {
  }

  /** Issued again under the same identifier, a challenge is answered only if everything but its clock is the same. */
  lemma IssueAgain(keys: Keys, st: State, input: IssueInput, now: int)
    requires Consistent(st) && input.id in UserOf(st, input.uid).challenges && keys.known(input.version)
    ensures var c := UserOf(st, input.uid).challenges[input.id];
      IssueStep(keys, st, input, now) ==
      (st, if SaysIssued(keys, c.(createdAt := now), input, now) then Issued(c.expiresAt) else Failed(Collision))
  {
    StoredUser(st, input.uid);
    hide Consistent, DestinationsReconciled, UserOf;
  }

  /** The challenge was issued for this user, application and secret, is unexpired, and its own digests still verify. */
  predicate Proves(keys: Keys, c: Challenge, uid: Uid, app: string, id: Id, secret: bytes, now: int) {
    && c.app == app && now < c.expiresAt && keys.verifier(c.version, uid, app, id, secret) == c.verifier
    && keys.fingerprint(c.version, c.fid) == c.fingerprint
  }

  /** The destination carries what the challenge proved, the counter goes up, and the challenge is consumed for it. */
  predicate RegisteredBy(user: User, next: User, id: Id, destination: Id, app: string, now: int) {
    id in user.challenges && destination in next.destinations
    && var c, d := user.challenges[id], next.destinations[destination];
    && d.fid == c.fid && d.fingerprint == c.fingerprint && d.app == app && d.createdAt == now && d.updatedAt == now
    && next.count == user.count + 1 && next.destinations == user.destinations[destination := d]
    && next.challenges == user.challenges[id :=
         c.(status := Consumed, destination := Some(destination), consumedAt := Some(now))]
  }

  /**
   * A destination is registered exactly when its pending challenge is proved under a known key
   * version, the identifier is new and fewer than 16 destinations exist.
   */
  lemma CompleteExactly(
    keys: Keys, st: State, uid: Uid, app: string, id: Id, secret: bytes, destination: Id, now: int)
    requires Consistent(st) && id in UserOf(st, uid).challenges && UserOf(st, uid).challenges[id].status == Pending
    requires keys.known(UserOf(st, uid).challenges[id].version)
    requires Proves(keys, UserOf(st, uid).challenges[id], uid, app, id, secret, now)
    requires destination !in UserOf(st, uid).destinations && |UserOf(st, uid).destinations| < 16
    ensures var step := CompleteStep(keys, st, uid, app, id, secret, destination, now);
      var after, reply := step.0, step.1;
      && OnlyUser(st, after, uid) && RegisteredBy(UserOf(st, uid), UserOf(after, uid), id, destination, app, now)
      && reply == Registered(destination, UserOf(after, uid).destinations[destination])
  {
    CompletesTo(keys, st, uid, app, id, secret, destination, now);
    hide Consistent, UserOf, OnlyUser, RegisteredBy, CompleteStep, Completed, Proves;
    CompletedIs(UserOf(st, uid), id, destination, app, now);
    UserStored(st, uid, Completed(UserOf(st, uid), id, destination, app, now));
  }

  lemma CompletesTo(
    keys: Keys, st: State, uid: Uid, app: string, id: Id, secret: bytes, destination: Id, now: int)
    requires Consistent(st) && id in UserOf(st, uid).challenges && UserOf(st, uid).challenges[id].status == Pending
    requires keys.known(UserOf(st, uid).challenges[id].version)
    requires Proves(keys, UserOf(st, uid).challenges[id], uid, app, id, secret, now)
    requires destination !in UserOf(st, uid).destinations && |UserOf(st, uid).destinations| < 16
    ensures var next := Completed(UserOf(st, uid), id, destination, app, now);
      && destination in next.destinations
      && CompleteStep(keys, st, uid, app, id, secret, destination, now)
         == (st.(users := st.users[uid := next]), Registered(destination, next.destinations[destination]))
  {
    StoredUser(st, uid);
    hide Consistent, DestinationOk, UserOf;
  }

  /** ... and refused otherwise, with the first thing that is wrong, writing nothing. */
  lemma CompleteRefused(
    keys: Keys, st: State, uid: Uid, app: string, id: Id, secret: bytes, destination: Id, now: int)
    requires Consistent(st) && id in UserOf(st, uid).challenges && UserOf(st, uid).challenges[id].status == Pending
    ensures var user, c := UserOf(st, uid), UserOf(st, uid).challenges[id];
      var step := CompleteStep(keys, st, uid, app, id, secret, destination, now);
      && (!keys.known(c.version) ==> step == (st, Failed(Unavailable)))
      && (keys.known(c.version) && !Proves(keys, c, uid, app, id, secret, now) ==> step == (st, Failed(InvalidProof)))
      && (keys.known(c.version) && Proves(keys, c, uid, app, id, secret, now) && destination in user.destinations ==>
            step == (st, Failed(Collision)))
      && ((&& keys.known(c.version) && Proves(keys, c, uid, app, id, secret, now)
           && destination !in user.destinations && |user.destinations| >= 16) ==>
            step == (st, Failed(LimitExceeded)))
  {
    StoredUser(st, uid);
    hide Consistent, DestinationOk, UserOf;
  }

  function Completed(user: User, id: Id, destination: Id, app: string, now: int): User
    requires id in user.challenges
  {
    var c := user.challenges[id];
    User(
      user.count + 1, user.destinations[destination := Destination(c.fid, c.fingerprint, app, now, now)],
      user.challenges[id := c.(status := Consumed, destination := Some(destination), consumedAt := Some(now))])
  }

  lemma CompletedIs(user: User, id: Id, destination: Id, app: string, now: int)
    requires id in user.challenges
    ensures RegisteredBy(user, Completed(user, id, destination, app, now), id, destination, app, now)
  {
  }

  /** A challenge that was never issued, or was consumed for another destination, registers nothing; for its own it answers again. */
  lemma CompleteAgain(
    keys: Keys, st: State, uid: Uid, app: string, id: Id, secret: bytes, destination: Id, now: int)
    requires Consistent(st)
    requires id in UserOf(st, uid).challenges ==> UserOf(st, uid).challenges[id].status == Consumed
    ensures var user := UserOf(st, uid);
      CompleteStep(keys, st, uid, app, id, secret, destination, now) ==
      (st,
       if id in user.challenges && user.challenges[id].destination == Some(destination) && destination in user.destinations
       then Registered(destination, user.destinations[destination]) else Failed(InvalidProof))
  {
    StoredUser(st, uid);
    hide Consistent, DestinationOk, UserOf;
  }

  // ---------------------------------------------------------------- grants

  /** Only this owner's registry and index entries may differ. */
  predicate OnlyOwner(a: State, b: State, o: Owner) {
    && b.homes == a.homes && b.users == a.users
    && b.registries.Keys == a.registries.Keys + {o}
    && (forall other :: other in a.registries && other != o ==> b.registries[other] == a.registries[other])
    && (forall id :: id in a.index && OwnerOf(a.index[id]) != o ==> id in b.index && b.index[id] == a.index[id])
    && (forall id :: id in b.index && id !in a.index ==> OwnerOf(b.index[id]) == o)
  }

  predicate SaysGranted(g: Grant, destination: Id, now: int) {
    && g.destination == destination && g.status == Active && g.createdAt == now
    && g.expiresAt == now + 15_552_000_000 && g.revokedAt == None
  }

  /** The grant as it was, or revoked now. */
  predicate Kept(before: Grant, after: Grant, now: int) {
    after == before || (before.status == Active && after == before.(status := Revoked, revokedAt := Some(now)))
  }

  /** One more grant; the others stay as they were, except that those of the same destination are revoked, and some may be gone. */
  predicate GrantAdded(before: map<Id, Grant>, next: map<Id, Grant>, id: Id, destination: Id, now: int) {
    && id in next && SaysGranted(next[id], destination, now)
    && (forall g :: g in next && g != id ==> g in before && Kept(before[g], next[g], now))
    && (forall g :: g in next && g != id && before[g].destination != destination ==> next[g] == before[g])
    && (forall g :: g in next && g != id && before[g].destination == destination ==> next[g].status == Revoked)
  }

  /**
   * In every consistent store a grant with a new identifier is created exactly when the home exists
   * and the destination is the user's; it lives for 180 days, and supersedes the destination's others.
   */
  lemma CreateGrantExactly(st: State, o: Owner, destination: Id, id: Id, now: int)
    requires Consistent(st) && id !in st.index
    ensures var step := CreateGrantStep(st, o, destination, id, now);
      var after, reply := step.0, step.1;
      if o.home !in st.homes then (after, reply) == (st, Failed(HomeNotFound))
      else if destination !in UserOf(st, o.uid).destinations then (after, reply) == (st, Failed(InvalidGrant))
      else
        var before, next := RegistryOf(st, o).records, RegistryOf(after, o).records;
        && GrantAdded(before, next, id, destination, now) && reply == Granted(id, next[id]) && OnlyOwner(st, after, o)
  {
    hide UserOf, DestinationOk, Indexed, IndexedIfAny, Previous, Compacted, Consistent, GrantsReconciled, AfterGrant, AfterIndex,
      GrantAdded, OnlyOwner;
    StoredUser(st, o.uid);
    StoredRegistry(st, o);
    NewIdentifier(st, o, id);
    var r, user := RegistryOf(st, o), UserOf(st, o.uid);
    var previous, compacted := Previous(r.records, destination), Compacted(r, user.destinations.Keys, now);
    if o.home in st.homes && destination in user.destinations {
      RoomForGrant(st, o, destination, now);
      GrantRecords(r, id, destination, previous, compacted, now);
      CompactedKnown(r, user, now);
      PreviousKnown(r.records, destination);
      GrantIndex(st, o, id, destination, previous, compacted, now);
      assert CreateGrantStep(st, o, destination, id, now) ==
        (WithGrant(st, o, r, id, destination, previous, compacted, now), Granted(id, NewGrant(destination, now)));
      Stored(st, o, r, id, destination, previous, compacted, now);
    }
  }

  /** An identifier already in use answers only to the very grant it names, and nothing is written. */
  lemma CreateGrantAgain(st: State, o: Owner, destination: Id, id: Id, now: int)
    requires Consistent(st) && id in st.index
    requires o.home in st.homes && destination in UserOf(st, o.uid).destinations
    ensures CreateGrantStep(st, o, destination, id, now) ==
      (st,
       if id in RegistryOf(st, o).records && SaysGranted(RegistryOf(st, o).records[id], destination, now)
       then Granted(id, RegistryOf(st, o).records[id]) else Failed(Collision))
  {
    hide UserOf, OneActive, DestinationOk, Consistent, Previous, Compacted;
    StoredUser(st, o.uid);
    StoredRegistry(st, o);
    OwnEntries(st, o, id);
  }

  lemma Stored(
    st: State, o: Owner, r: Registry, id: Id, destination: Id, previous: Option<Id>, compacted: Option<Id>, now: int)
    requires var after := AfterIndex(st.index, o, id, destination, previous, compacted, now);
      && (forall i :: i in st.index && OwnerOf(st.index[i]) != o ==> i in after && after[i] == st.index[i])
      && (forall i :: i in after && i !in st.index ==> OwnerOf(after[i]) == o)
    ensures var next := WithGrant(st, o, r, id, destination, previous, compacted, now);
      && RegistryOf(next, o).records == AfterGrant(r.records, id, destination, previous, compacted, now)
      && RegistryOf(next, o).records[id] == NewGrant(destination, now)
      && OnlyOwner(st, next, o)
  {
  }

  lemma CompactedKnown(r: Registry, user: User, now: int)
    requires GrantsReconciled(r) && DestinationsReconciled(user)
    ensures var c := Compacted(r, user.destinations.Keys, now); c.Some? ==> c.value in r.records
  {
    CompactedDrops(r, user, now);
  }

  lemma PreviousKnown(records: map<Id, Grant>, destination: Id)
    ensures var p := Previous(records, destination); p.Some? ==> p.value in records
  {
    PreviousFound(records, destination);
  }

  lemma NewIdentifier(st: State, o: Owner, id: Id)
    requires Consistent(st) && id !in st.index
    ensures id !in RegistryOf(st, o).records
  {
    OwnEntries(st, o, id);
  }

  lemma RoomForGrant(st: State, o: Owner, destination: Id, now: int)
    requires Consistent(st)
    ensures var r, user := RegistryOf(st, o), UserOf(st, o.uid);
      && (r.count >= MAX_RETAINED_GRANTS ==> Compacted(r, user.destinations.Keys, now).Some?)
      && IndexedIfAny(st, o, r, Previous(r.records, destination))
      && IndexedIfAny(st, o, r, Compacted(r, user.destinations.Keys, now))
  {
    hide UserOf, Previous, Compacted, Consistent, GrantsReconciled;
    var r, user := RegistryOf(st, o), UserOf(st, o.uid);
    StoredUser(st, o.uid);
    StoredRegistry(st, o);
    if r.count >= MAX_RETAINED_GRANTS {
      FullRegistryCompacts(r, user.destinations.Keys, now);
    }
    if Previous(r.records, destination).Some? {
      OwnEntries(st, o, Previous(r.records, destination).value);
    }
    if Compacted(r, user.destinations.Keys, now).Some? {
      OwnEntries(st, o, Compacted(r, user.destinations.Keys, now).value);
    }
  }

  lemma GrantRecords(
    r: Registry, id: Id, destination: Id, previous: Option<Id>, compacted: Option<Id>, now: int)
    requires GrantsReconciled(r) && id !in r.records && previous == Previous(r.records, destination)
    ensures GrantAdded(r.records, AfterGrant(r.records, id, destination, previous, compacted, now), id, destination, now)
  {
    var before := r.records;
    PreviousFound(before, destination);
    var next := AfterGrant(before, id, destination, previous, compacted, now);
    forall g | g in next && g != id && before[g].destination == destination ensures next[g].status == Revoked {
      if before[g].status == Active {
        assert ActiveFor(before, destination, g);
        assert ActiveAt(before, g) && ActiveAt(before, previous.value);
      }
    }
  }

  lemma GrantIndex(
    st: State, o: Owner, id: Id, destination: Id, previous: Option<Id>, compacted: Option<Id>, now: int)
    requires Consistent(st) && id !in st.index
    requires previous.Some? ==> previous.value in RegistryOf(st, o).records
    requires compacted.Some? ==> compacted.value in RegistryOf(st, o).records
    ensures var after := AfterIndex(st.index, o, id, destination, previous, compacted, now);
      && (forall i :: i in st.index && OwnerOf(st.index[i]) != o ==> i in after && after[i] == st.index[i])
      && (forall i :: i in after && i !in st.index ==> OwnerOf(after[i]) == o)
  {
    hide Consistent, RegistryOf;
    if previous.Some? {
      OwnEntries(st, o, previous.value);
    }
    if compacted.Some? {
      OwnEntries(st, o, compacted.value);
    }
  }

  /** In a consistent store revoking succeeds, and makes the named grant revoked now unless it already was; nothing else changes. */
  lemma RevokeExactly(st: State, o: Owner, id: Id, now: int)
    requires Consistent(st)
    ensures var step := RevokeGrantStep(st, o, id, now);
      var after, reply := step.0, step.1;
      var before, next := RegistryOf(st, o).records, RegistryOf(after, o).records;
      && reply == Done && next.Keys == before.Keys && RegistryOf(after, o).count == RegistryOf(st, o).count
      && (forall g :: g in before && g != id ==> next[g] == before[g])
      && (id in before && before[id].status == Active ==>
            && next[id] == before[id].(status := Revoked, revokedAt := Some(now))
            && id in after.index && after.index == st.index[id := st.index[id].(status := Revoked)])
      && (id !in before || before[id].status == Revoked ==> after == st)
      && (after != st ==> OnlyOwner(st, after, o))
  {
    hide Consistent, OneActive;
    StoredRegistry(st, o);
    OwnEntries(st, o, id);
  }
}
