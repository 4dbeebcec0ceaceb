/** The push store as an object whose transactions rewrite its documents. */
module PushStores {
  import opened Wire
  import opened Options
  import opened Retention
  import opened Push
  import opened PushRegistry

  class PushStore {
    const keys: Keys
    const homes: set<HomeId>
    var users: map<Uid, User>
    var registries: map<Owner, Registry>
    var index: map<Id, IndexEntry>

    function Documents(): State
      reads this
    {
      State(homes, users, registries, index)
    }

    constructor (keys: Keys, homes: set<HomeId>)
      ensures this.keys == keys && Documents() == Start(homes)
    {
      this.keys, this.homes := keys, homes;
      users, registries, index := map[], map[], map[];
    }

    /** The registry's documents are few enough, counted, well formed, and no destination is live twice. */
    method ReconcileGrants(r: Registry) returns (ok: bool)
      ensures ok == GrantsReconciled(r)
    {
      hide ActiveAt, LiveSeen, OneActive;
      if |r.records| > MAX_RETAINED_GRANTS || |r.records| != r.count {
        return false;
      }
      var left, live := r.records.Keys, {};
      NothingSeen(r.records);
      while left != {}
        invariant left <= r.records.Keys && LiveSeen(r.records, left, live)
        invariant forall id :: id in r.records && id !in left ==> GrantOk(r.records[id])
        decreases left
      {
        var id :| id in left;
        var g := r.records[id];
        if !GrantOk(g) {
          return false;
        }
        GrantSeen(r.records, left, live, id);
        if g.status == Active {
          if g.destination in live {
            return false;
          }
          live := live + {g.destination};
        }
        left := left - {id};
      }
      AllSeen(r.records, live);
      ok := true;
    }

    /** The oldest grant that may be dropped, if any. */
    method FindCompacted(r: Registry, current: set<Id>, now: int) returns (oldest: Option<Id>)
      requires r.count >= MAX_RETAINED_GRANTS
      ensures oldest == Compacted(r, current, now)
    {
      hide Compactable, Oldest;
      var left, candidates: set<Stamp> := r.records.Keys, {};
      while left != {}
        invariant left <= r.records.Keys
        invariant candidates == set id | id in r.records && id !in left && Compactable(r.records[id], current, now)
                                :: StampOf(r.records, id)
        decreases left
      {
        var id :| id in left;
        left := left - {id};
        if Compactable(r.records[id], current, now) {
          candidates := candidates + {StampOf(r.records, id)};
        }
      }
      assert candidates == Candidates(r.records, current, now);
      var first := FindOldest(candidates);
      oldest := if first == None then None else Some(first.value.id);
    }

    method FindPrevious(r: Registry, destination: Id) returns (previous: Option<Id>)
      requires OneActive(r.records)
      ensures previous == Previous(r.records, destination)
    {
      var left := r.records.Keys;
      while left != {}
        invariant left <= r.records.Keys
        invariant forall id :: id !in left ==> !ActiveFor(r.records, destination, id)
        decreases left
      {
        var id :| id in left;
        left := left - {id};
        if ActiveFor(r.records, destination, id) {
          PreviousFound(r.records, destination);
          var found := id;
          assert forall other :: ActiveFor(r.records, destination, other) ==> ActiveAt(r.records, other);
          return Some(found);
        }
      }
      previous := None;
    }

    method CreateGrantTransaction(o: Owner, destination: Id, id: Id, now: int) returns (reply: Reply)
      modifies this`registries, this`index
      ensures (Documents(), reply) == CreateGrantStep(old(Documents()), o, destination, id, now)
    {
      hide DestinationsReconciled, GrantsReconciled, Previous, Oldest, Candidates, Indexed;
      var user, r := UserOf(Documents(), o.uid), RegistryOf(Documents(), o);
      if o.home !in homes {
        return Failed(HomeNotFound);
      }
      if !DestinationsReconciled(user) {
        return Failed(Unavailable);
      }
      if destination !in user.destinations {
        return Failed(InvalidGrant);
      }
      var reconciled := ReconcileGrants(r);
      if !reconciled {
        return Failed(Unavailable);
      }
      if id in r.records || id in index {
        if id !in r.records || id !in index {
          return Failed(Collision);
        }
        var existing := r.records[id];
        if !Indexed(index, o, id, existing) {
          return Failed(Unavailable);
        }
        return if existing == NewGrant(destination, now) then Granted(id, existing) else Failed(Collision);
      }
      ReconciledOneActive(r);
      var previous := FindPrevious(r, destination);
      var compacted: Option<Id> := None;
      if r.count >= MAX_RETAINED_GRANTS {
        compacted := FindCompacted(r, user.destinations.Keys, now);
        if compacted == None {
          return Failed(LimitExceeded);
        }
      }
      if !IndexedIfAny(Documents(), o, r, previous) || !IndexedIfAny(Documents(), o, r, compacted) {
        return Failed(Unavailable);
      }
      var records, entries := r.records, index;
      if compacted.Some? {
        records, entries := records - {compacted.value}, entries - {compacted.value};
      }
      if previous.Some? && previous != compacted {
        records, entries := RevokeRecord(records, previous, now), RevokeEntry(entries, previous);
      }
      var g := NewGrant(destination, now);
      index := entries[id := EntryFor(o, g)];
      registries := registries[o := Registry(if compacted == None then r.count + 1 else r.count, records[id := g])];
      reply := Granted(id, g);
    }

    /** Up to three identifiers, each in a transaction of its own; only a collision moves on to the next. */
    method CreateGrant(o: Owner, destination: Id, ids: seq<(Id, int)>) returns (reply: Reply)
      requires |ids| == 3
      modifies this`registries, this`index
      ensures (Documents(), reply) == CreateAttempts(old(Documents()), o, destination, ids)
    {
      hide CreateGrantStep;
      for attempt := 0 to 3
        invariant CreateAttempts(old(Documents()), o, destination, ids)
               == CreateAttempts(Documents(), o, destination, ids[attempt..])
      {
        reply := CreateGrantTransaction(o, destination, ids[attempt].0, ids[attempt].1);
        assert ids[attempt..][1..] == ids[attempt + 1..];
        if reply != Failed(Collision) {
          return;
        }
      }
      reply := Failed(Unavailable);
    }

    method RevokeGrant(o: Owner, id: Id, now: int) returns (reply: Reply)
      modifies this`registries, this`index
      ensures (Documents(), reply) == RevokeGrantStep(old(Documents()), o, id, now)
    {
      var r := RegistryOf(Documents(), o);
      if id !in r.records {
        return Done;
      }
      var g := r.records[id];
      if !GrantOk(g) || !Indexed(index, o, id, g) {
        return Failed(Unavailable);
      }
      if g.status == Revoked {
        return Done;
      }
      registries := registries[o := r.(records := r.records[id := g.(status := Revoked, revokedAt := Some(now))])];
      index := index[id := index[id].(status := Revoked)];
      reply := Done;
    }

    method IssueChallenge(input: IssueInput, now: int) returns (reply: Reply)
      modifies this`users
      ensures (Documents(), reply) == IssueStep(keys, old(Documents()), input, now)
    {
      hide ChallengesOk;
      var user := UserOf(Documents(), input.uid);
      if !keys.known(input.version) || !ChallengesOk(user) {
        return Failed(Unavailable);
      }
      var issued := NewChallenge(keys, input, now);
      if input.id in user.challenges {
        var existing := user.challenges[input.id];
        return if existing == issued.(createdAt := existing.createdAt) then Issued(existing.expiresAt) else Failed(Collision);
      }
      var left, kept := user.challenges.Keys, user.challenges;
      while left != {}
        invariant left <= user.challenges.Keys
        invariant kept.Keys <= user.challenges.Keys && forall c :: c in kept ==> kept[c] == user.challenges[c]
        invariant forall c :: c in user.challenges ==> (c in kept <==> c in left || Live(user.challenges[c], now))
        decreases left
      {
        var c :| c in left;
        left := left - {c};
        if user.challenges[c].status == Consumed || user.challenges[c].expiresAt <= now {
          kept := kept - {c};
        }
      }
      assert kept == LiveChallenges(user, now);
      if |kept| >= MAX_ACTIVE_CHALLENGES {
        return Failed(LimitExceeded);
      }
      users := users[input.uid := user.(challenges := kept[input.id := issued])];
      reply := Issued(issued.expiresAt);
    }

    method CompleteChallenge(uid: Uid, app: string, id: Id, secret: bytes, destination: Id, now: int) returns (reply: Reply)
      modifies this`users
      ensures (Documents(), reply) == CompleteStep(keys, old(Documents()), uid, app, id, secret, destination, now)
    {
      hide DestinationsReconciled, ChallengeOk, Proved;
      var user := UserOf(Documents(), uid);
      if !DestinationsReconciled(user) {
        return Failed(Unavailable);
      }
      if id !in user.challenges {
        return Failed(InvalidProof);
      }
      var challenge := user.challenges[id];
      if !ChallengeOk(challenge) {
        return Failed(Unavailable);
      }
      if challenge.status == Consumed {
        if challenge.destination == Some(destination) && destination in user.destinations {
          return Registered(destination, user.destinations[destination]);
        }
        return Failed(InvalidProof);
      }
      if !keys.known(challenge.version) {
        return Failed(Unavailable);
      }
      if !Proved(keys, challenge, uid, app, id, secret, now) {
        return Failed(InvalidProof);
      }
      if destination in user.destinations {
        return Failed(Collision);
      }
      if user.count >= MAX_ACTIVE_DESTINATIONS {
        return Failed(LimitExceeded);
      }
      var d := Destination(challenge.fid, challenge.fingerprint, app, now, now);
      var consumed := challenge.(status := Consumed, destination := Some(destination), consumedAt := Some(now));
      users := users[uid :=
        User(user.count + 1, user.destinations[destination := d], user.challenges[id := consumed])];
      reply := Registered(destination, d);
    }

    method DeleteDestination(uid: Uid, id: Id) returns (reply: Reply)
      modifies this`users
      ensures (Documents(), reply) == DeleteStep(old(Documents()), uid, id)
    {
      hide DestinationsReconciled;
      var user := UserOf(Documents(), uid);
      if !DestinationsReconciled(user) {
        return Failed(Unavailable);
      }
      if id !in user.destinations {
        return Done;
      }
      if user.count == 0 {
        return Failed(Unavailable);
      }
      users := users[uid := user.(count := user.count - 1, destinations := user.destinations - {id})];
      reply := Done;
    }
  }

  /** Each attempt comes with the identifier generated and the clock sampled for it. */
  ghost function CreateAttempts(st: State, o: Owner, destination: Id, ids: seq<(Id, int)>): (State, Reply)
    decreases |ids|
  {
    if ids == [] then (st, Failed(Unavailable))
    else
      var (after, reply) := CreateGrantStep(st, o, destination, ids[0].0, ids[0].1);
      if reply == Failed(Collision) then CreateAttempts(after, o, destination, ids[1..]) else (after, reply)
  }

  lemma ReconciledOneActive(r: Registry)
    requires GrantsReconciled(r)
    ensures OneActive(r.records)
  {
  }

  /** Of the grants no longer in `left`, the destinations of the active ones are `live`, each from one grant. */
  ghost predicate LiveSeen(records: map<Id, Grant>, left: set<Id>, live: set<Id>) {
    && (forall id :: id !in left && ActiveAt(records, id) ==> records[id].destination in live)
    && (forall d :: d in live ==> exists id :: id !in left && ActiveAt(records, id) && records[id].destination == d)
    && (forall a, b :: a !in left && b !in left && ActiveAt(records, a) && ActiveAt(records, b) ==>
          records[a].destination == records[b].destination ==> a == b)
  }

  lemma NothingSeen(records: map<Id, Grant>)
    ensures LiveSeen(records, records.Keys, {})
  {
  }

  lemma GrantSeen(records: map<Id, Grant>, left: set<Id>, live: set<Id>, id: Id)
    requires LiveSeen(records, left, live) && id in left && id in records
    ensures var g := records[id];
      if g.status != Active then LiveSeen(records, left - {id}, live)
      else if g.destination in live then !OneActive(records)
      else LiveSeen(records, left - {id}, live + {g.destination})
  {
    var g := records[id];
    if g.status == Active {
      assert ActiveAt(records, id);
    }
  }

  lemma AllSeen(records: map<Id, Grant>, live: set<Id>)
    requires LiveSeen(records, {}, live)
    ensures OneActive(records)
  {
  }

  /** The attempts before the deciding one all collided and wrote nothing; if all did, the call is unavailable. */
  lemma {:induction false} FirstWithoutCollision(st: State, o: Owner, destination: Id, ids: seq<(Id, int)>) returns (k: nat)
    ensures k <= |ids|
    ensures forall j :: 0 <= j < k ==> CreateGrantStep(st, o, destination, ids[j].0, ids[j].1) == (st, Failed(Collision))
    ensures CreateAttempts(st, o, destination, ids) ==
      if k == |ids| then (st, Failed(Unavailable)) else CreateGrantStep(st, o, destination, ids[k].0, ids[k].1)
    ensures CreateAttempts(st, o, destination, ids).1 != Failed(Collision)
    decreases |ids|
  {
    k := 0;
    if ids != [] {
      CollisionWritesNothing(st, o, destination, ids[0].0, ids[0].1);
      hide CreateGrantStep;
      if CreateGrantStep(st, o, destination, ids[0].0, ids[0].1).1 == Failed(Collision) {
        var rest := FirstWithoutCollision(st, o, destination, ids[1..]);
        k := rest + 1;
        assert forall j :: 0 < j < |ids| ==> ids[j] == ids[1..][j - 1];
      }
    }
  }

  lemma CollisionWritesNothing(st: State, o: Owner, destination: Id, id: Id, now: int)
    ensures CreateGrantStep(st, o, destination, id, now).1.Failed? ==> CreateGrantStep(st, o, destination, id, now).0 == st
  {
    hide UserOf, RegistryOf, GrantsReconciled, DestinationsReconciled, Previous, Compacted, WithGrant, IndexedIfAny, Indexed;
  }
}
