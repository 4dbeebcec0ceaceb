/** What every run keeps: counters, index and records of Home Keys tied together. */
module KeyRegistry {
  import opened Options
  import opened Retention
  import opened HomeKeys

  // ---------------------------------------------------------------- the invariant

  ghost predicate HomesOk(st: State) { forall h :: h in st.homes ==> Reconciled(st.homes[h]) }

  /** An owner's counter is the number of homes it owns. */
  ghost predicate OwnersOk(st: State) {
    forall u :: |OwnedHomes(st.homes, u)| == OwnedCount(st.owners, u) <= MAX_OWNED_HOMES
  }

  ghost predicate RecordsIndexed(st: State) {
    forall h, id :: h in st.homes && id in st.homes[h].keys ==> Indexed(st.index, h, id, st.homes[h].keys[id].status)
  }

  ghost predicate IndexBacked(st: State) {
    forall id :: id in st.index ==> st.index[id].home in st.homes && id in st.homes[st.index[id].home].keys
  }

  ghost predicate Consistent(st: State) {
    HomesOk(st) && OwnersOk(st) && RecordsIndexed(st) && IndexBacked(st)
  }

  // ---------------------------------------------------------------- room for a key

  lemma StatusSplit(keys: map<Id, KeyRecord>)
    ensures ActiveKeys(keys) <= keys.Keys && |ActiveKeys(keys)| <= |keys|
    ensures |ActiveKeys(keys)| < |keys| ==> RevokedStamps(keys) != {}
  {
    SubsetSize(ActiveKeys(keys), keys.Keys);
    if |ActiveKeys(keys)| < |keys| {
      assert ActiveKeys(keys) != keys.Keys;
      var id :| id in keys && id !in ActiveKeys(keys);
      assert StampOf(keys, id) in RevokedStamps(keys);
    }
  }

  /** What is dropped is a revoked key, older than every other revoked key of the home. */
  ghost predicate DropsOldestRevoked(h: Home) {
    var dropped := Compacted(h);
    dropped.Some? ==>
      && dropped.value in h.keys && h.keys[dropped.value].status == Revoked
      && IsOldest(RevokedStamps(h.keys), StampOf(h.keys, dropped.value))
  }

  /** A full home with a free active place always has a revoked key to drop. */
  lemma FullHomeCompacts(h: Home)
    requires Reconciled(h)
    ensures DropsOldestRevoked(h)
    ensures h.retained >= MAX_RETAINED_HOME_KEYS && h.active < MAX_ACTIVE_HOME_KEYS ==> Compacted(h).Some?
    ensures h.retained < MAX_RETAINED_HOME_KEYS ==> Compacted(h) == None
  {
    OldestFound(RevokedStamps(h.keys));
    StatusSplit(h.keys);
  }

  /** In a consistent store, staging fails for want of room exactly when 64 keys are active, and never on inconsistency. */
  lemma StageExactly(p: Peppers, st: State, home: HomeId, n: NewKey)
    requires Consistent(st) && home in st.homes
    ensures var s, h := Stage(p, st, home, st.homes[home], n), st.homes[home];
      && s != Refused(Unavailable)
      && (n.key.id !in st.index ==> (s == Refused(LimitExceeded) <==> |ActiveKeys(h.keys)| == MAX_ACTIVE_HOME_KEYS))
      && (n.key.id !in st.index && s != Refused(LimitExceeded) ==> s.Fresh?)
      && (n.key.id in st.index ==> s == Refused(Collision) || s.Existing?)
  {
    hide OwnersOk, Reconciled, SameKey, Compacted;
    var h := st.homes[home];
    FullHomeCompacts(h);
    ReconciledCounts(h);
    var id := n.key.id;
    assert id in h.keys ==> Indexed(st.index, home, id, h.keys[id].status);
    if Compacted(h).Some? {
      assert Indexed(st.index, home, Compacted(h).value, h.keys[Compacted(h).value].status);
    }
  }

  lemma ReconciledCounts(h: Home)
    requires Reconciled(h)
    ensures |ActiveKeys(h.keys)| == h.active <= h.retained == |h.keys| <= MAX_RETAINED_HOME_KEYS
  {
    StatusSplit(h.keys);
  }

  // ---------------------------------------------------------------- replacing a home's keys

  /** The home's entries follow its keys; every other home's entries are as they were. */
  ghost predicate FollowsAt(
    before: map<Id, KeyEntry>, after: map<Id, KeyEntry>, home: HomeId, keys: map<Id, KeyRecord>, id: Id)
  {
    && (id in keys ==> Indexed(after, home, id, keys[id].status))
    && (id in after ==> if after[id].home == home then id in keys else id in before && after[id] == before[id])
    && (id in before && before[id].home != home ==> id in after && after[id] == before[id])
  }

  lemma SameOwners(st: State, home: HomeId, next: Home, index: map<Id, KeyEntry>, codes: map<Lookup, Code>)
    requires home in st.homes && next.owner == st.homes[home].owner && OwnersOk(st)
    ensures OwnersOk(State(st.owners, st.homes[home := next], index, codes))
  {
    forall u ensures OwnedHomes(st.homes[home := next], u) == OwnedHomes(st.homes, u) {
    }
  }

  lemma HomeReplaced(st: State, home: HomeId, next: Home, index: map<Id, KeyEntry>, codes: map<Lookup, Code>)
    requires Consistent(st) && home in st.homes && next.owner == st.homes[home].owner && Reconciled(next)
    requires forall id :: FollowsAt(st.index, index, home, next.keys, id)
    ensures Consistent(State(st.owners, st.homes[home := next], index, codes))
  {
    hide Reconciled, OwnersOk;
    SameOwners(st, home, next, index, codes);
    var after := State(st.owners, st.homes[home := next], index, codes);
    forall id | id in index ensures index[id].home in after.homes && id in after.homes[index[id].home].keys {
      assert FollowsAt(st.index, index, home, next.keys, id);
    }
    forall h, id | h in after.homes && id in after.homes[h].keys
      ensures Indexed(index, h, id, after.homes[h].keys[id].status)
    {
      assert FollowsAt(st.index, index, home, next.keys, id);
      if h != home {
        assert Indexed(st.index, h, id, st.homes[h].keys[id].status);
      }
    }
  }

  lemma CodesIrrelevant(st: State, codes: map<Lookup, Code>)
    requires Consistent(st)
    ensures Consistent(st.(codes := codes))
  {
    hide Reconciled, OwnedHomes, OwnedCount;
  }

  // ---------------------------------------------------------------- steps

  lemma ActiveAfterAdd(keys: map<Id, KeyRecord>, compacted: Option<Id>, id: Id, record: KeyRecord)
    requires id !in keys && record.status == Active
    requires compacted.Some? ==> compacted.value in keys && keys[compacted.value].status == Revoked
    ensures var after := Without(keys, compacted)[id := record];
      && |ActiveKeys(after)| == |ActiveKeys(keys)| + 1
      && |after| == if compacted == None then |keys| + 1 else |keys|
  {
    if compacted.Some? {
      OneLess(keys, compacted.value);
    }
    OneMore(Without(keys, compacted), id, record);
    ActivesAfterAdd(keys, compacted, id, record);
    hide ActiveKeys, Without;
    assert |ActiveKeys(keys) + {id}| == |ActiveKeys(keys)| + 1;
  }

  lemma ActivesAfterAdd(keys: map<Id, KeyRecord>, compacted: Option<Id>, id: Id, record: KeyRecord)
    requires id !in keys && record.status == Active
    requires compacted.Some? ==> compacted.value in keys && keys[compacted.value].status == Revoked
    ensures ActiveKeys(Without(keys, compacted)[id := record]) == ActiveKeys(keys) + {id} && id !in ActiveKeys(keys)
  {
  }

  lemma AddedReconciled(h: Home, compacted: Option<Id>, id: Id, record: KeyRecord)
    requires Reconciled(h) && id !in h.keys && h.active < MAX_ACTIVE_HOME_KEYS
    requires record.status == Active && RecordOk(record) && compacted == Compacted(h)
    ensures Reconciled(h.(
      active := h.active + 1, retained := if compacted == None then h.retained + 1 else h.retained,
      keys := Without(h.keys, compacted)[id := record]))
  {
    hide ActiveKeys, Compacted, RecordOk;
    FullHomeCompacts(h);
    ActiveAfterAdd(h.keys, compacted, id, record);
  }

  lemma AddedIndexed(st: State, home: HomeId, compacted: Option<Id>, id: Id, record: KeyRecord, other: Id)
    requires Consistent(st) && home in st.homes && id !in st.index && record.status == Active
    requires compacted.Some? ==> compacted.value in st.homes[home].keys
    ensures FollowsAt(
      st.index, Without(st.index, compacted)[id := KeyEntry(home, Active)], home,
      Without(st.homes[home].keys, compacted)[id := record], other)
  {
    hide Reconciled, OwnersOk;
    assert other in st.homes[home].keys ==> Indexed(st.index, home, other, st.homes[home].keys[other].status);
  }

  lemma WithKeyKeeps(p: Peppers, st: State, home: HomeId, n: NewKey, now: int, codes: map<Lookup, Code>)
    requires Consistent(st) && home in st.homes && Stage(p, st, home, st.homes[home], n).Fresh?
    ensures Consistent(WithKey(p, st, home, st.homes[home], n, Stage(p, st, home, st.homes[home], n).compacted, now).(codes := codes))
  {
    hide Consistent, Reconciled, Compacted, Indexed, FollowsAt, Without;
    var h, compacted, id, record := st.homes[home], Compacted(st.homes[home]), n.key.id, NewRecord(p, n, now);
    HomeIsReconciled(st, home);
    FullHomeCompacts(h);
    AddedReconciled(h, compacted, id, record);
    var index := Without(st.index, compacted)[id := KeyEntry(home, Active)];
    var keys := Without(h.keys, compacted)[id := record];
    forall other ensures FollowsAt(st.index, index, home, keys, other) {
      AddedIndexed(st, home, compacted, id, record, other);
    }
    var next := h.(active := h.active + 1, retained := if compacted == None then h.retained + 1 else h.retained, keys := keys);
    HomeReplaced(st, home, next, index, codes);
  }

  lemma HomeIsReconciled(st: State, home: HomeId)
    requires Consistent(st) && home in st.homes
    ensures Reconciled(st.homes[home])
  {
  }

  lemma CreateKeyKeeps(p: Peppers, st: State, uid: Uid, home: HomeId, n: NewKey, now: int)
    requires Consistent(st)
    ensures Consistent(CreateKeyStep(p, st, uid, home, n, now).0)
  {
    hide Consistent, Stage, WithKey;
    if home in st.homes && Stage(p, st, home, st.homes[home], n.(createdBy := uid)).Fresh? {
      WithKeyKeeps(p, st, home, n.(createdBy := uid), now, st.codes);
      KeepsCodes(p, st, home, n.(createdBy := uid), now);
    }
  }

  lemma KeepsCodes(p: Peppers, st: State, home: HomeId, n: NewKey, now: int)
    requires home in st.homes && Stage(p, st, home, st.homes[home], n).Fresh?
    ensures var after := WithKey(p, st, home, st.homes[home], n, Stage(p, st, home, st.homes[home], n).compacted, now);
      after.codes == st.codes && after == after.(codes := st.codes)
  {
  }

  lemma RedeemKeeps(p: Peppers, st: State, r: Redemption, checkedAt: int, now: int)
    requires Consistent(st)
    ensures Consistent(RedeemStep(p, st, r, checkedAt, now).0)
  {
    hide Consistent, Stage, WithKey;
    if r.lookup in st.codes {
      var c := st.codes[r.lookup];
      if c.home in st.homes && Stage(p, st, c.home, st.homes[c.home], PairingKey(r, c)).Fresh? {
        var redeemed := c.(status := Redeemed, redeemedAt := Some(now), key := Some(r.key.id));
        WithKeyKeeps(p, st, c.home, PairingKey(r, c), now, st.codes[r.lookup := redeemed]);
      }
    }
  }

  lemma RevokeKeyKeeps(st: State, uid: Uid, home: HomeId, id: Id, now: int)
    requires Consistent(st)
    ensures Consistent(RevokeKeyStep(st, uid, home, id, now).0)
  {
    hide Consistent, Reconciled, FollowsAt, ActiveKeys;
    var after := RevokeKeyStep(st, uid, home, id, now).0;
    if after != st {
      var h := st.homes[home];
      RevokedReconciled(h, id, now);
      forall other ensures FollowsAt(st.index, after.index, home, after.homes[home].keys, other) {
        RevokedIndexed(st, home, id, now, other);
      }
      HomeReplaced(st, home, after.homes[home], after.index, st.codes);
    }
  }

  lemma RevokedReconciled(h: Home, id: Id, now: int)
    requires Reconciled(h) && id in h.keys && h.keys[id].status == Active
    ensures Reconciled(h.(active := h.active - 1, keys := h.keys[id := h.keys[id].(status := Revoked, revokedAt := Some(now))]))
  {
    var keys := h.keys[id := h.keys[id].(status := Revoked, revokedAt := Some(now))];
    assert keys.Keys == h.keys.Keys;
    assert ActiveKeys(h.keys) == ActiveKeys(keys) + {id};
  }

  lemma RevokedIndexed(st: State, home: HomeId, id: Id, now: int, other: Id)
    requires Consistent(st) && home in st.homes && id in st.homes[home].keys && id in st.index
    ensures FollowsAt(
      st.index, st.index[id := st.index[id].(status := Revoked)], home,
      st.homes[home].keys[id := st.homes[home].keys[id].(status := Revoked, revokedAt := Some(now))], other)
  {
    hide Reconciled, OwnersOk;
    assert Indexed(st.index, home, id, st.homes[home].keys[id].status);
    assert other in st.homes[home].keys ==> Indexed(st.index, home, other, st.homes[home].keys[other].status);
  }

  lemma ExchangeKeeps(p: Peppers, st: State, x: Exchange, checkedAt: int)
    requires Consistent(st)
    ensures Consistent(ExchangeStep(p, st, x, checkedAt).0)
  {
    hide Consistent, Reconciled, FollowsAt, ActiveKeys, RecordOk;
    var after := ExchangeStep(p, st, x, checkedAt).0;
    if after != st {
      var id := x.key.id;
      var home := st.index[id].home;
      HomeIsReconciled(st, home);
      UsedReconciled(st.homes[home], id, x);
      forall other ensures FollowsAt(st.index, st.index, home, after.homes[home].keys, other) {
        UsedIndexed(st, home, id, x, other);
      }
      HomeReplaced(st, home, after.homes[home], st.index, st.codes);
    }
  }

  function Used(k: KeyRecord, x: Exchange): KeyRecord {
    k.(lastUsedAt := Some(x.issuedAt * 1_000), lastIssuance := Some(x.token))
  }

  lemma UsedReconciled(h: Home, id: Id, x: Exchange)
    requires Reconciled(h) && id in h.keys
    ensures Reconciled(h.(keys := h.keys[id := Used(h.keys[id], x)]))
  {
    var keys := h.keys[id := Used(h.keys[id], x)];
    assert keys.Keys == h.keys.Keys;
    assert ActiveKeys(h.keys) == ActiveKeys(keys);
  }

  lemma UsedIndexed(st: State, home: HomeId, id: Id, x: Exchange, other: Id)
    requires Consistent(st) && home in st.homes && id in st.homes[home].keys
    ensures FollowsAt(st.index, st.index, home, st.homes[home].keys[id := Used(st.homes[home].keys[id], x)], other)
  {
    hide Reconciled, OwnersOk;
    assert Indexed(st.index, home, id, st.homes[home].keys[id].status);
    assert other in st.homes[home].keys ==> Indexed(st.index, home, other, st.homes[home].keys[other].status);
  }

  lemma CreateHomeKeeps(st: State, uid: Uid, home: HomeId)
    requires Consistent(st)
    ensures Consistent(CreateHomeStep(st, uid, home).0)
  {
    hide Reconciled, OwnersOk, Indexed, OwnedHomes, OwnedCount;
    EmptyHome(uid);
    OwnerCounted(st, uid, home);
  }

  lemma OwnerCounted(st: State, uid: Uid, home: HomeId)
    requires OwnersOk(st)
    ensures OwnersOk(CreateHomeStep(st, uid, home).0)
  {
    hide Reconciled, OwnedHomes;
    var after := CreateHomeStep(st, uid, home).0;
    if after != st {
      forall u ensures |OwnedHomes(after.homes, u)| == OwnedCount(after.owners, u) <= MAX_OWNED_HOMES {
        assert |OwnedHomes(st.homes, u)| == OwnedCount(st.owners, u) <= MAX_OWNED_HOMES;
        OneMoreHome(st.homes, home, Home(uid, 0, 0, map[]), u);
      }
    }
  }

  lemma OneMoreHome(homes: map<HomeId, Home>, home: HomeId, h: Home, u: Uid)
    requires home !in homes
    ensures |OwnedHomes(homes[home := h], u)| == |OwnedHomes(homes, u)| + if h.owner == u then 1 else 0
  {
    assert OwnedHomes(homes[home := h], u) == OwnedHomes(homes, u) + if h.owner == u then {home} else {};
  }

  lemma EmptyHome(uid: Uid)
    ensures Reconciled(Home(uid, 0, 0, map[]))
  {
    assert ActiveKeys(map[]) == {};
  }

  lemma StepKeeps(p: Peppers, st: State, e: Event)
    requires Consistent(st)
    ensures Consistent(Step(p, st, e).0)
  {
    hide Consistent, CreateHomeStep, CreateKeyStep, RevokeKeyStep, ExchangeStep, RedeemStep;
    match e.call
    case CreateHome(uid, home) => CreateHomeKeeps(st, uid, home);
    case CreateKey(uid, home, n) => CreateKeyKeeps(p, st, uid, home, n, e.now);
    case RevokeKey(uid, home, id) => RevokeKeyKeeps(st, uid, home, id, e.now);
    case ExchangeKey(x) => ExchangeKeeps(p, st, x, e.checkedAt);
    case IssueCode(uid, home, lookup, version) =>
      CodesIrrelevant(st, IssueCodeStep(p, st, uid, home, lookup, version, e.now).0.codes);
    case Redeem(r) => RedeemKeeps(p, st, r, e.checkedAt, e.now);
  }

  /**
   * Every run keeps both counters of every home equal to its records, every key's index entry equal
   * to the key, at most 64 keys per home and at most 16 homes per owner.
   */
  lemma {:induction false} RunKeeps(p: Peppers, events: seq<Event>)
    ensures Consistent(Run(p, EMPTY, events))
    decreases |events|
  {
    hide Consistent, Step;
    if events == [] {
      EmptyConsistent();
    } else {
      RunKeeps(p, events[..|events| - 1]);
      StepKeeps(p, Run(p, EMPTY, events[..|events| - 1]), events[|events| - 1]);
    }
  }

  lemma EmptyConsistent()
    ensures Consistent(EMPTY)
  {
    forall u ensures OwnedHomes(EMPTY.homes, u) == {} {
    }
  }

  // ---------------------------------------------------------------- consequences for one call

  /** In every run a key is refused for want of room exactly when its home has 64 active keys. */
  lemma LimitExactly(p: Peppers, events: seq<Event>, uid: Uid, home: HomeId, n: NewKey, now: int)
    ensures var st := Run(p, EMPTY, events);
      home in st.homes && st.homes[home].owner == uid && p.known(n.version) && n.key.id !in st.index ==>
        && (CreateKeyStep(p, st, uid, home, n, now).1 == Failed(LimitExceeded) <==>
              |ActiveKeys(st.homes[home].keys)| == MAX_ACTIVE_HOME_KEYS)
        && (|ActiveKeys(st.homes[home].keys)| < MAX_ACTIVE_HOME_KEYS ==> CreateKeyStep(p, st, uid, home, n, now).1.Created?)
  {
    hide Consistent, Run, Stage, WithKey, ActiveKeys, Reconciled;
    RunKeeps(p, events);
    var st := Run(p, EMPTY, events);
    if home in st.homes {
      StageExactly(p, st, home, n.(createdBy := uid));
      HomeIsReconciled(st, home);
      ReconciledCounts(st.homes[home]);
    }
  }

  /** Creating a key removes at most one other key, and that one is the oldest revoked key of a full home. */
  lemma CompactionDropsOldestRevoked(p: Peppers, st: State, uid: Uid, home: HomeId, n: NewKey, now: int, id: Id)
    requires Consistent(st) && id in KeysOf(st, home) && id !in KeysOf(CreateKeyStep(p, st, uid, home, n, now).0, home)
    ensures var keys := KeysOf(st, home);
      && |keys| == MAX_RETAINED_HOME_KEYS && keys[id].status == Revoked
      && (forall other :: other in keys && other != id && keys[other].status == Revoked ==>
            Before(StampOf(keys, id), StampOf(keys, other)))
      && (forall other :: other in keys && other != id ==>
            other in KeysOf(CreateKeyStep(p, st, uid, home, n, now).0, home))
  {
    hide Consistent, Reconciled, Compacted, Before, Indexed, SameKey;
    var h := st.homes[home];
    HomeIsReconciled(st, home);
    FullHomeCompacts(h);
    ReconciledCounts(h);
    assert Compacted(h) == Some(id);
    forall other | other in h.keys && other != id && h.keys[other].status == Revoked
      ensures Before(StampOf(h.keys, id), StampOf(h.keys, other))
    {
      assert StampOf(h.keys, other) in RevokedStamps(h.keys);
    }
  }
}
