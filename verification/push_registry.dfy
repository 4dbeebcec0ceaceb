/** What every run of the push transactions keeps: counters, index, and one active grant per destination. */
module PushRegistry {
  import opened Wire
  import opened Options
  import opened Retention
  import opened Push

  // ---------------------------------------------------------------- pigeonhole

  /** Grants that cannot be dropped point at different current destinations. */
  lemma {:induction false} KeptInjects(records: map<Id, Grant>, kept: set<Id>, current: set<Id>)
    requires kept <= records.Keys && OneActive(records)
    requires forall id :: id in kept ==> ActiveAt(records, id) && records[id].destination in current
    ensures |kept| <= |current|
    decreases |kept|
  {
    if kept != {} {
      var id :| id in kept;
      var d := records[id].destination;
      KeptInjects(records, kept - {id}, current - {d});
      assert |current - {d}| == |current| - 1;
    }
  }

  /** With at most 16 destinations a full registry always has a grant to drop. */
  lemma FullRegistryCompacts(r: Registry, current: set<Id>, now: int)
    requires GrantsReconciled(r) && r.count >= MAX_RETAINED_GRANTS && |current| <= MAX_ACTIVE_DESTINATIONS
    ensures Compacted(r, current, now).Some?
    ensures DropsOldest(r, current, now)
  {
    var candidates := Candidates(r.records, current, now);
    OldestFound(candidates);
    if candidates == {} {
      forall id | id in r.records.Keys ensures ActiveAt(r.records, id) && r.records[id].destination in current {
        assert StampOf(r.records, id) !in candidates;
      }
      KeptInjects(r.records, r.records.Keys, current);
    }
  }

  /** What is dropped is stored, may be dropped, and is older than everything else that may be. */
  ghost predicate DropsOldest(r: Registry, current: set<Id>, now: int) {
    var dropped := Compacted(r, current, now);
    dropped.Some? ==>
      && dropped.value in r.records && Compactable(r.records[dropped.value], current, now)
      && IsOldest(Candidates(r.records, current, now), StampOf(r.records, dropped.value))
  }

  // ---------------------------------------------------------------- the invariant

  ghost predicate UserSound(u: User) { DestinationsReconciled(u) && ChallengesOk(u) }

  ghost predicate UsersOk(st: State) { forall u :: u in st.users ==> UserSound(st.users[u]) }

  ghost predicate RegistriesOk(st: State) {
    forall o :: o in st.registries ==> GrantsReconciled(st.registries[o])
  }

  /** Every grant record has its index entry, with its status, ... */
  ghost predicate RecordsIndexed(st: State) {
    forall o, id :: o in st.registries && id in st.registries[o].records ==> Indexed(st.index, o, id, st.registries[o].records[id])
  }

  /** ... and every index entry has its record. */
  ghost predicate IndexBacked(st: State) {
    forall id :: id in st.index ==>
      && Owner(st.index[id].owner, st.index[id].home) in st.registries
      && id in st.registries[Owner(st.index[id].owner, st.index[id].home)].records
  }

  ghost predicate Consistent(st: State) {
    UsersOk(st) && RegistriesOk(st) && RecordsIndexed(st) && IndexBacked(st)
  }

  lemma StoredRegistry(st: State, o: Owner)
    requires Consistent(st)
    ensures GrantsReconciled(RegistryOf(st, o))
  {
  }

  lemma LiveSubset(u: User, now: int)
    ensures |LiveChallenges(u, now)| <= |u.challenges|
    ensures forall c :: c in LiveChallenges(u, now) ==> c in u.challenges && LiveChallenges(u, now)[c] == u.challenges[c]
  {
    SubsetSize(LiveChallenges(u, now).Keys, u.challenges.Keys);
  }

  lemma StoredUser(st: State, uid: Uid)
    requires Consistent(st)
    ensures UserSound(UserOf(st, uid))
  {
  }

  lemma UserReplaced(st: State, uid: Uid, next: User)
    requires Consistent(st) && UserSound(next)
    ensures Consistent(st.(users := st.users[uid := next]))
  {
    hide UserSound, GrantsReconciled, Indexed;
  }

  lemma IssueKeeps(keys: Keys, st: State, input: IssueInput, now: int)
    requires Consistent(st)
    ensures Consistent(IssueStep(keys, st, input, now).0)
  {
    hide Consistent, UserOf;
    var user := UserOf(st, input.uid);
    StoredUser(st, input.uid);
    LiveSubset(user, now);
    var next := user.(challenges := LiveChallenges(user, now)[input.id := NewChallenge(keys, input, now)]);
    if ChallengesOk(next) {
      UserReplaced(st, input.uid, next);
    }
  }

  lemma CompleteKeeps(
    keys: Keys, st: State, uid: Uid, app: string, id: Id, secret: bytes, destination: Id, now: int)
    requires Consistent(st)
    ensures Consistent(CompleteStep(keys, st, uid, app, id, secret, destination, now).0)
  {
    hide Consistent, UserOf, Proved;
    var user := UserOf(st, uid);
    StoredUser(st, uid);
    var after := CompleteStep(keys, st, uid, app, id, secret, destination, now).0;
    if after != st {
      assert UserSound(after.users[uid]);
      UserReplaced(st, uid, after.users[uid]);
    }
  }

  lemma DeleteKeeps(st: State, uid: Uid, id: Id)
    requires Consistent(st)
    ensures Consistent(DeleteStep(st, uid, id).0)
  {
    hide Consistent, UserOf;
    var user := UserOf(st, uid);
    StoredUser(st, uid);
    if id in user.destinations {
      DestinationDropped(user, id);
      hide UserSound, DestinationsReconciled;
      UserReplaced(st, uid, user.(count := user.count - 1, destinations := user.destinations - {id}));
    }
  }

  lemma DestinationDropped(user: User, id: Id)
    requires UserSound(user) && id in user.destinations
    ensures user.count > 0 && UserSound(user.(count := user.count - 1, destinations := user.destinations - {id}))
  {
    OneLess(user.destinations, id);
  }

  // ---------------------------------------------------------------- grants

  function OwnerOf(e: IndexEntry): Owner { Owner(e.owner, e.home) }

  /** The owner's entries follow its records; every other owner's entries are as they were. */
  ghost predicate IndexFollows(before: map<Id, IndexEntry>, after: map<Id, IndexEntry>, o: Owner, records: map<Id, Grant>) {
    forall id :: FollowsAt(before, after, o, records, id)
  }

  ghost predicate FollowsAt(
    before: map<Id, IndexEntry>, after: map<Id, IndexEntry>, o: Owner, records: map<Id, Grant>, id: Id)
  {
    && (id in records ==> Indexed(after, o, id, records[id]))
    && (id in after ==> if OwnerOf(after[id]) == o then id in records else id in before && after[id] == before[id])
    && (id in before && OwnerOf(before[id]) != o ==> id in after && after[id] == before[id])
  }

  lemma RegistryReplaced(st: State, o: Owner, next: Registry, index: map<Id, IndexEntry>)
    requires Consistent(st) && GrantsReconciled(next) && IndexFollows(st.index, index, o, next.records)
    ensures Consistent(st.(registries := st.registries[o := next], index := index))
  {
    hide UserSound, GrantsReconciled;
    var after := st.(registries := st.registries[o := next], index := index);
    forall id | id in index
      ensures OwnerOf(index[id]) in after.registries && id in after.registries[OwnerOf(index[id])].records
    {
      assert FollowsAt(st.index, index, o, next.records, id);
    }
    forall p, id | p in after.registries && id in after.registries[p].records
      ensures Indexed(index, p, id, after.registries[p].records[id])
    {
      assert FollowsAt(st.index, index, o, next.records, id);
      if p != o {
        assert Indexed(st.index, p, id, st.registries[p].records[id]);
      }
    }
  }

  /** What a stored owner's registry and index entries look like. */
  lemma OwnEntries(st: State, o: Owner, id: Id)
    requires Consistent(st)
    ensures id in RegistryOf(st, o).records ==> Indexed(st.index, o, id, RegistryOf(st, o).records[id])
    ensures id in st.index && OwnerOf(st.index[id]) == o ==> id in RegistryOf(st, o).records
  {
    hide UserSound, GrantsReconciled;
  }

  lemma PreviousFound(records: map<Id, Grant>, destination: Id)
    ensures Previous(records, destination) == None ==> forall id :: !ActiveFor(records, destination, id)
    ensures Previous(records, destination).Some? ==> ActiveFor(records, destination, Previous(records, destination).value)
  {
  }

  ghost predicate MayDrop(r: Registry, compacted: Option<Id>) {
    if r.count >= MAX_RETAINED_GRANTS then compacted.Some? && compacted.value in r.records else compacted == None
  }

  function AfterGrant(
    before: map<Id, Grant>, id: Id, destination: Id, previous: Option<Id>, compacted: Option<Id>, now: int): map<Id, Grant>
  {
    var superseded := if previous == compacted then None else previous;
    RevokeRecord(Dropped(before, compacted), superseded, now)[id := NewGrant(destination, now)]
  }

  lemma RevokeSize(records: map<Id, Grant>, id: Option<Id>, now: int)
    ensures |RevokeRecord(records, id, now)| == |records|
  {
    assert RevokeRecord(records, id, now).Keys == records.Keys;
  }

  lemma AfterGrantSize(
    before: map<Id, Grant>, id: Id, destination: Id, previous: Option<Id>, compacted: Option<Id>, now: int)
    requires id !in before && (compacted.Some? ==> compacted.value in before)
    ensures |AfterGrant(before, id, destination, previous, compacted, now)|
         == if compacted == None then |before| + 1 else |before|
  {
    var superseded := if previous == compacted then None else previous;
    var dropped := Dropped(before, compacted);
    if compacted.Some? {
      OneLess(before, compacted.value);
    }
    RevokeSize(dropped, superseded, now);
    OneMore(RevokeRecord(dropped, superseded, now), id, NewGrant(destination, now));
  }

  ghost predicate AllGrantsOk(records: map<Id, Grant>) { forall g :: g in records ==> GrantOk(records[g]) }

  lemma AfterGrantOk(
    before: map<Id, Grant>, id: Id, destination: Id, previous: Option<Id>, compacted: Option<Id>, now: int)
    requires AllGrantsOk(before)
    ensures AllGrantsOk(AfterGrant(before, id, destination, previous, compacted, now))
  {
  }

  /** The registry after a creation: one more grant or one exchanged, and still one active per destination. */
  lemma GrantAdded(r: Registry, id: Id, destination: Id, previous: Option<Id>, compacted: Option<Id>, now: int)
    requires GrantsReconciled(r) && id !in r.records && MayDrop(r, compacted)
    requires previous == Previous(r.records, destination)
    ensures GrantsReconciled(
      Registry(if compacted == None then r.count + 1 else r.count,
               AfterGrant(r.records, id, destination, previous, compacted, now)))
  {
    hide AfterGrant, OneActive, GrantOk, Previous;
    AfterGrantSize(r.records, id, destination, previous, compacted, now);
    AfterGrantOk(r.records, id, destination, previous, compacted, now);
    StillOneActive(r.records, id, destination, previous, compacted, now);
  }

  lemma StillOneActive(
    before: map<Id, Grant>, id: Id, destination: Id, previous: Option<Id>, compacted: Option<Id>, now: int)
    requires OneActive(before) && id !in before && previous == Previous(before, destination)
    ensures OneActive(AfterGrant(before, id, destination, previous, compacted, now))
  {
    PreviousFound(before, destination);
    var records := AfterGrant(before, id, destination, previous, compacted, now);
    forall a | ActiveAt(records, a) && a != id
      ensures ActiveAt(before, a) && records[a] == before[a] && records[a].destination != destination
    {
      if before[a].destination == destination {
        assert ActiveFor(before, destination, a);
      }
    }
  }

  /** The index moves with the records. */
  lemma IndexMoves(
    st: State, o: Owner, id: Id, destination: Id, previous: Option<Id>, compacted: Option<Id>, now: int)
    requires Consistent(st) && id !in st.index
    requires previous.Some? ==> previous.value in RegistryOf(st, o).records
    requires compacted.Some? ==> compacted.value in RegistryOf(st, o).records
    ensures IndexFollows(
      st.index, AfterIndex(st.index, o, id, destination, previous, compacted, now), o,
      AfterGrant(RegistryOf(st, o).records, id, destination, previous, compacted, now))
  {
    hide Consistent, RegistryOf, AfterGrant, AfterIndex, FollowsAt;
    var records := RegistryOf(st, o).records;
    forall g: Id
      ensures FollowsAt(
        st.index, AfterIndex(st.index, o, id, destination, previous, compacted, now), o,
        AfterGrant(records, id, destination, previous, compacted, now), g)
    {
      OwnEntries(st, o, g);
      IndexMovesAt(st.index, records, o, id, destination, previous, compacted, now, g);
    }
  }

  function AfterIndex(
    index: map<Id, IndexEntry>, o: Owner, id: Id, destination: Id, previous: Option<Id>, compacted: Option<Id>, now: int):
    map<Id, IndexEntry>
  {
    var superseded := if previous == compacted then None else previous;
    RevokeEntry(Dropped(index, compacted), superseded)[id := EntryFor(o, NewGrant(destination, now))]
  }

  lemma IndexMovesAt(
    index: map<Id, IndexEntry>, records: map<Id, Grant>, o: Owner, id: Id, destination: Id, previous: Option<Id>,
    compacted: Option<Id>, now: int, g: Id)
    requires id !in index
    requires previous.Some? ==> previous.value in records
    requires compacted.Some? ==> compacted.value in records
    requires g in records ==> Indexed(index, o, g, records[g])
    requires g in index && OwnerOf(index[g]) == o ==> g in records
    ensures FollowsAt(
      index, AfterIndex(index, o, id, destination, previous, compacted, now), o,
      AfterGrant(records, id, destination, previous, compacted, now), g)
  {
  }

  lemma CreateGrantKeeps(st: State, o: Owner, destination: Id, id: Id, now: int)
    requires Consistent(st)
    ensures Consistent(CreateGrantStep(st, o, destination, id, now).0)
  {
    hide Consistent, RegistryOf, UserOf, DestinationsReconciled, GrantsReconciled, Previous, Compacted, Indexed, IndexFollows;
    var r, user := RegistryOf(st, o), UserOf(st, o.uid);
    StoredRegistry(st, o);
    StoredUser(st, o.uid);
    var after := CreateGrantStep(st, o, destination, id, now).0;
    if after != st {
      var previous, compacted := Previous(r.records, destination), Compacted(r, user.destinations.Keys, now);
      PreviousFound(r.records, destination);
      CompactedDrops(r, user, now);
      GrantAdded(r, id, destination, previous, compacted, now);
      IndexMoves(st, o, id, destination, previous, compacted, now);
      RegistryReplaced(st, o, after.registries[o], after.index);
    }
  }

  lemma CompactedDrops(r: Registry, user: User, now: int)
    requires GrantsReconciled(r) && DestinationsReconciled(user)
    ensures MayDrop(r, Compacted(r, user.destinations.Keys, now))
    ensures DropsOldest(r, user.destinations.Keys, now)
  {
    if r.count >= MAX_RETAINED_GRANTS {
      FullRegistryCompacts(r, user.destinations.Keys, now);
    }
  }

  lemma RevokeGrantKeeps(st: State, o: Owner, id: Id, now: int)
    requires Consistent(st)
    ensures Consistent(RevokeGrantStep(st, o, id, now).0)
  {
    hide Consistent, RegistryOf, IndexFollows, GrantsReconciled;
    var r := RegistryOf(st, o);
    StoredRegistry(st, o);
    var after := RevokeGrantStep(st, o, id, now).0;
    if after != st {
      RevokedReconciled(r, id, now);
      RevokeMoves(st, o, id, now);
      RegistryReplaced(st, o, after.registries[o], after.index);
    }
  }

  lemma RevokedReconciled(r: Registry, id: Id, now: int)
    requires GrantsReconciled(r) && id in r.records
    ensures GrantsReconciled(r.(records := RevokeRecord(r.records, Some(id), now)))
  {
    assert RevokeRecord(r.records, Some(id), now).Keys == r.records.Keys;
  }

  lemma RevokeMoves(st: State, o: Owner, id: Id, now: int)
    requires Consistent(st) && id in RegistryOf(st, o).records
    ensures IndexFollows(st.index, RevokeEntry(st.index, Some(id)), o, RevokeRecord(RegistryOf(st, o).records, Some(id), now))
  {
    hide Consistent, RegistryOf;
    forall g: Id
      ensures FollowsAt(
        st.index, RevokeEntry(st.index, Some(id)), o, RevokeRecord(RegistryOf(st, o).records, Some(id), now), g)
    {
      OwnEntries(st, o, g);
    }
  }

  // ---------------------------------------------------------------- runs

  lemma StepKeeps(keys: Keys, st: State, e: Event)
    requires Consistent(st)
    ensures Consistent(Step(keys, st, e).0)
  {
    hide Consistent, IssueStep, CompleteStep, DeleteStep, CreateGrantStep, RevokeGrantStep, AuthorizeStep;
    match e.call
    case IssueChallenge(input) => IssueKeeps(keys, st, input, e.now);
    case CompleteChallenge(uid, app, challenge, secret, destination) =>
      CompleteKeeps(keys, st, uid, app, challenge, secret, destination, e.now);
    case DeleteDestination(uid, destination) => DeleteKeeps(st, uid, destination);
    case CreateGrant(o, destination, grant) => CreateGrantKeeps(st, o, destination, grant, e.now);
    case RevokeGrant(o, grant) => RevokeGrantKeeps(st, o, grant, e.now);
    case AuthorizePush(_, _) =>
  }

  /**
   * Every run, from no documents at all, keeps the counters equal to the records, the index entry of
   * every grant equal to the grant, at most one active grant per destination and at most 256 grants
   * for each user and home.
   */
  lemma {:induction false} RunKeeps(keys: Keys, homes: set<HomeId>, events: seq<Event>)
    ensures Consistent(Run(keys, Start(homes), events))
    decreases |events|
  {
    hide Consistent, Step;
    if events == [] {
      StartConsistent(homes);
    } else {
      RunKeeps(keys, homes, events[..|events| - 1]);
      StepKeeps(keys, Run(keys, Start(homes), events[..|events| - 1]), events[|events| - 1]);
    }
  }

  lemma StartConsistent(homes: set<HomeId>)
    ensures Consistent(Start(homes))
  {
  }

  /** The creation of a grant is never refused for want of room, and never finds the documents inconsistent. */
  lemma CreationNeverFull(keys: Keys, homes: set<HomeId>, events: seq<Event>, o: Owner, destination: Id, id: Id, now: int)
    ensures CreateGrantStep(Run(keys, Start(homes), events), o, destination, id, now).1 != Failed(LimitExceeded)
    ensures CreateGrantStep(Run(keys, Start(homes), events), o, destination, id, now).1 != Failed(Unavailable)
  {
    hide Consistent, Run, RegistryOf, UserOf, DestinationsReconciled, GrantsReconciled, Previous, Compacted, Indexed;
    RunKeeps(keys, homes, events);
    var st := Run(keys, Start(homes), events);
    var r, user := RegistryOf(st, o), UserOf(st, o.uid);
    StoredRegistry(st, o);
    StoredUser(st, o.uid);
    CompactedDrops(r, user, now);
    PreviousFound(r.records, destination);
    forall g: Id
      ensures g in r.records ==> Indexed(st.index, o, g, r.records[g])
      ensures g in st.index && OwnerOf(st.index[g]) == o ==> g in r.records
    {
      OwnEntries(st, o, g);
    }
  }
}
