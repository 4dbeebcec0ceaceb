/** The control-plane store as an object whose transactions rewrite homes, keys, indexes and codes. */
module ControlStores {
  import opened Options
  import opened Retention
  import opened HomeKeys

  class ControlPlaneStore {
    const peppers: Peppers
    var owners: map<Uid, nat>
    var homes: map<HomeId, Home>
    var index: map<Id, KeyEntry>
    var codes: map<Lookup, Code>

    function Documents(): State
      reads this
    {
      State(owners, homes, index, codes)
    }

    constructor (peppers: Peppers)
      ensures this.peppers == peppers && Documents() == EMPTY
    {
      this.peppers := peppers;
      owners, homes, index, codes := map[], map[], map[], map[];
    }

    method CountOwned(uid: Uid) returns (n: nat)
      ensures n == |OwnedHomes(homes, uid)|
    {
      var left, owned: set<HomeId> := homes.Keys, {};
      while left != {}
        invariant left <= homes.Keys
        invariant owned == set h | h in homes && h !in left && homes[h].owner == uid
        decreases left
      {
        var h :| h in left;
        left := left - {h};
        if homes[h].owner == uid {
          owned := owned + {h};
        }
      }
      assert owned == OwnedHomes(homes, uid);
      n := |owned|;
    }

    method CreateHome(uid: Uid, home: HomeId) returns (reply: Reply)
      modifies this`owners, this`homes
      ensures (Documents(), reply) == CreateHomeStep(old(Documents()), uid, home)
    {
      hide OwnedHomes;
      if home in homes {
        return Failed(HomeExists);
      }
      var owned := CountOwned(uid);
      var count := if uid in owners then owners[uid] else 0;
      if owned != count || owned > MAX_OWNED_HOMES {
        return Failed(Unavailable);
      }
      if count >= MAX_OWNED_HOMES {
        return Failed(LimitExceeded);
      }
      homes := homes[home := Home(uid, 0, 0, map[])];
      owners := owners[uid := count + 1];
      reply := Done;
    }

    /** The registry's documents are counted and well formed, and its active ones are as many as recorded. */
    method ReconcileKeyRegistry(h: Home) returns (ok: bool)
      ensures ok == Reconciled(h)
    {
      hide RecordOk;
      if |h.keys| > MAX_RETAINED_HOME_KEYS || |h.keys| != h.retained || h.active > MAX_ACTIVE_HOME_KEYS
        || h.retained > MAX_RETAINED_HOME_KEYS
      {
        return false;
      }
      var left, active: set<Id> := h.keys.Keys, {};
      while left != {}
        invariant left <= h.keys.Keys
        invariant active == set id | id in h.keys && id !in left && h.keys[id].status == Active
        invariant forall id :: id in h.keys && id !in left ==> RecordOk(h.keys[id])
        decreases left
      {
        var id :| id in left;
        left := left - {id};
        if !RecordOk(h.keys[id]) {
          return false;
        }
        if h.keys[id].status == Active {
          active := active + {id};
        }
      }
      assert active == ActiveKeys(h.keys);
      ok := |active| == h.active;
    }

    method FindCompacted(h: Home) returns (oldest: Option<Id>)
      requires h.retained >= MAX_RETAINED_HOME_KEYS
      ensures oldest == Compacted(h)
    {
      hide Oldest;
      var left, revoked: set<Stamp> := h.keys.Keys, {};
      while left != {}
        invariant left <= h.keys.Keys
        invariant revoked == set id | id in h.keys && id !in left && h.keys[id].status == Revoked :: StampOf(h.keys, id)
        decreases left
      {
        var id :| id in left;
        left := left - {id};
        if h.keys[id].status == Revoked {
          revoked := revoked + {StampOf(h.keys, id)};
        }
      }
      assert revoked == RevokedStamps(h.keys);
      var first := FindOldest(revoked);
      oldest := if first == None then None else Some(first.value.id);
    }

    /** All the reads a new key needs; nothing is written until the caller commits. */
    method StageHomeKey(home: HomeId, h: Home, n: NewKey) returns (staged: Staged)
      ensures staged == Stage(peppers, Documents(), home, h, n)
    {
      hide Reconciled, Compacted, SameKey;
      var id := n.key.id;
      var reconciled := ReconcileKeyRegistry(h);
      if !reconciled {
        return Refused(Unavailable);
      }
      if id in h.keys || id in index {
        if id !in h.keys {
          return Refused(Collision);
        }
        if !Indexed(index, home, id, h.keys[id].status) {
          return Refused(Unavailable);
        }
        return if SameKey(peppers, h.keys[id], n) then Existing(h.keys[id]) else Refused(Collision);
      }
      if h.active >= MAX_ACTIVE_HOME_KEYS {
        return Refused(LimitExceeded);
      }
      var compacted: Option<Id> := None;
      if h.retained >= MAX_RETAINED_HOME_KEYS {
        compacted := FindCompacted(h);
        if compacted == None {
          return Refused(LimitExceeded);
        }
      }
      BelowLimit(h);
      if compacted.Some? && !Indexed(index, home, compacted.value, Revoked) {
        return Refused(Unavailable);
      }
      staged := Fresh(compacted);
    }

    method Commit(home: HomeId, h: Home, n: NewKey, compacted: Option<Id>, now: int)
      modifies this`homes, this`index
      ensures Documents() == WithKey(peppers, old(Documents()), home, h, n, compacted, now)
    {
      var keys, entries := h.keys, index;
      if compacted.Some? {
        keys, entries := keys - {compacted.value}, entries - {compacted.value};
      }
      keys := keys[n.key.id := NewRecord(peppers, n, now)];
      index := entries[n.key.id := KeyEntry(home, Active)];
      var retained := if compacted == None then h.retained + 1 else h.retained;
      homes := homes[home := Home(h.owner, h.active + 1, retained, keys)];
    }

    method CreateHomeKeyTransaction(uid: Uid, home: HomeId, n: NewKey, now: int) returns (reply: Reply)
      modifies this`homes, this`index
      ensures (Documents(), reply) == CreateKeyStep(peppers, old(Documents()), uid, home, n, now)
    {
      hide Stage, WithKey;
      if !peppers.known(n.version) {
        return Failed(Unavailable);
      }
      if home !in homes {
        return Failed(HomeNotFound);
      }
      if homes[home].owner != uid {
        return Failed(NotHomeOwner);
      }
      var h, owned := homes[home], n.(createdBy := uid);
      var staged := StageHomeKey(home, h, owned);
      match staged
      case Refused(error) => reply := Failed(error);
      case Existing(record) => reply := Created(n.key.id, record);
      case Fresh(compacted) =>
        Commit(home, h, owned, compacted, now);
        reply := Created(n.key.id, NewRecord(peppers, owned, now));
    }

    /** Up to three generated keys; only a collision moves on to the next. */
    method CreateHomeKey(uid: Uid, home: HomeId, attempts: seq<(NewKey, int)>) returns (reply: Reply)
      requires |attempts| == 3
      modifies this`homes, this`index
      ensures (Documents(), reply) == CreateAttempts(peppers, old(Documents()), uid, home, attempts)
    {
      hide CreateKeyStep;
      for k := 0 to 3
        invariant CreateAttempts(peppers, old(Documents()), uid, home, attempts)
               == CreateAttempts(peppers, Documents(), uid, home, attempts[k..])
      {
        reply := CreateHomeKeyTransaction(uid, home, attempts[k].0, attempts[k].1);
        assert attempts[k..][1..] == attempts[k + 1..];
        if reply != Failed(Collision) {
          return;
        }
      }
      reply := Failed(Unavailable);
    }

    method RevokeHomeKey(uid: Uid, home: HomeId, id: Id, now: int) returns (reply: Reply)
      modifies this`homes, this`index
      ensures (Documents(), reply) == RevokeKeyStep(old(Documents()), uid, home, id, now)
    {
      hide Reconciled;
      if home !in homes {
        return Failed(HomeNotFound);
      }
      if homes[home].owner != uid {
        return Failed(NotHomeOwner);
      }
      var h := homes[home];
      var reconciled := ReconcileKeyRegistry(h);
      if !reconciled {
        return Failed(Unavailable);
      }
      if id !in h.keys || h.keys[id].status == Revoked {
        return Done;
      }
      if id !in index || h.active == 0 {
        return Failed(Unavailable);
      }
      var keys := h.keys[id := h.keys[id].(status := Revoked, revokedAt := Some(now))];
      index := index[id := index[id].(status := Revoked)];
      homes := homes[home := h.(active := h.active - 1, keys := keys)];
      reply := Done;
    }

    method ExchangeHomeKey(x: Exchange, checkedAt: int) returns (reply: Reply)
      modifies this`homes
      ensures (Documents(), reply) == ExchangeStep(peppers, old(Documents()), x, checkedAt)
    {
      hide RecordOk;
      var id := x.key.id;
      if id !in index {
        return Failed(InvalidHomeKey);
      }
      var home := index[id].home;
      if home !in homes || id !in homes[home].keys || index[id].status != Active {
        return Failed(InvalidHomeKey);
      }
      var h, record := homes[home], homes[home].keys[id];
      if !RecordOk(record) || index[id].status != record.status || !peppers.known(record.version) {
        return Failed(Unavailable);
      }
      if peppers.verifier(record.version, x.key) != record.verifier {
        return Failed(InvalidHomeKey);
      }
      if x.issuedAt + TOKEN_LIFETIME_SECONDS <= checkedAt {
        return Failed(Unavailable);
      }
      if x.scope !in record.scopes {
        return Failed(InsufficientScope);
      }
      var used := record.(lastUsedAt := Some(x.issuedAt * 1_000), lastIssuance := Some(x.token));
      homes := homes[home := h.(keys := h.keys[id := used])];
      reply := Granted(home, id, x.scope);
    }

    method IssuePairingCode(uid: Uid, home: HomeId, lookup: Lookup, version: string, now: int) returns (reply: Reply)
      modifies this`codes
      ensures (Documents(), reply) == IssueCodeStep(peppers, old(Documents()), uid, home, lookup, version, now)
    {
      if !peppers.known(version) {
        return Failed(Unavailable);
      }
      if home !in homes {
        return Failed(HomeNotFound);
      }
      if homes[home].owner != uid {
        return Failed(NotHomeOwner);
      }
      if lookup in codes {
        return Failed(Collision);
      }
      codes := codes[lookup := Code(home, uid, Pending, now, now + PAIRING_CODE_LIFETIME, None, None)];
      reply := Done;
    }

    method RedeemTransaction(r: Redemption, checkedAt: int, now: int) returns (reply: Reply)
      modifies this`homes, this`index, this`codes
      ensures (Documents(), reply) == RedeemStep(peppers, old(Documents()), r, checkedAt, now)
    {
      hide Stage, WithKey;
      if !peppers.known(r.version) {
        return Failed(Unavailable);
      }
      if r.lookup !in codes {
        return Failed(InvalidPairingCode);
      }
      var c := codes[r.lookup];
      if c.status == Redeemed {
        return if c.key == Some(r.key.id) then Paired(c.home, r.key.id) else Failed(InvalidPairingCode);
      }
      if c.expiresAt <= checkedAt || c.home !in homes || homes[c.home].owner != c.createdBy {
        return Failed(InvalidPairingCode);
      }
      var h, n := homes[c.home], PairingKey(r, c);
      var staged := StageHomeKey(c.home, h, n);
      match staged
      case Refused(error) => reply := Failed(error);
      case Existing(_) => reply := Failed(Collision);
      case Fresh(compacted) =>
        Commit(c.home, h, n, compacted, now);
        codes := codes[r.lookup := c.(status := Redeemed, redeemedAt := Some(now), key := Some(r.key.id))];
        reply := Paired(c.home, r.key.id);
    }

    /** Up to three generated keys for one code; only a collision moves on to the next. */
    method RedeemPairingCode(attempts: seq<(Redemption, int, int)>) returns (reply: Reply)
      requires |attempts| == 3
      modifies this`homes, this`index, this`codes
      ensures (Documents(), reply) == RedeemAttempts(peppers, old(Documents()), attempts)
    {
      hide RedeemStep;
      for k := 0 to 3
        invariant RedeemAttempts(peppers, old(Documents()), attempts)
               == RedeemAttempts(peppers, Documents(), attempts[k..])
      {
        reply := RedeemTransaction(attempts[k].0, attempts[k].1, attempts[k].2);
        assert attempts[k..][1..] == attempts[k + 1..];
        if reply != Failed(Collision) {
          return;
        }
      }
      reply := Failed(Unavailable);
    }
  }

  lemma BelowLimit(h: Home)
    ensures h.retained < MAX_RETAINED_HOME_KEYS ==> Compacted(h) == None
  {
  }

  /** Each attempt comes with the key generated and the clock sampled for it. */
  ghost function CreateAttempts(p: Peppers, st: State, uid: Uid, home: HomeId, attempts: seq<(NewKey, int)>): (State, Reply)
    decreases |attempts|
  {
    if attempts == [] then (st, Failed(Unavailable))
    else
      var (after, reply) := CreateKeyStep(p, st, uid, home, attempts[0].0, attempts[0].1);
      if reply == Failed(Collision) then CreateAttempts(p, after, uid, home, attempts[1..]) else (after, reply)
  }

  ghost function RedeemAttempts(p: Peppers, st: State, attempts: seq<(Redemption, int, int)>): (State, Reply)
    decreases |attempts|
  {
    if attempts == [] then (st, Failed(Unavailable))
    else
      var (after, reply) := RedeemStep(p, st, attempts[0].0, attempts[0].1, attempts[0].2);
      if reply == Failed(Collision) then RedeemAttempts(p, after, attempts[1..]) else (after, reply)
  }

  /** The attempts before the deciding one all collided and wrote nothing; if all did, the call is unavailable. */
  lemma {:induction false} FirstWithoutCollision(
    p: Peppers, st: State, uid: Uid, home: HomeId, attempts: seq<(NewKey, int)>) returns (k: nat)
    ensures k <= |attempts|
    ensures forall j :: 0 <= j < k ==> CreateKeyStep(p, st, uid, home, attempts[j].0, attempts[j].1) == (st, Failed(Collision))
    ensures CreateAttempts(p, st, uid, home, attempts) ==
      if k == |attempts| then (st, Failed(Unavailable)) else CreateKeyStep(p, st, uid, home, attempts[k].0, attempts[k].1)
    ensures CreateAttempts(p, st, uid, home, attempts).1 != Failed(Collision)
    decreases |attempts|
  {
    k := 0;
    if attempts != [] {
      CollisionWritesNothing(p, st, uid, home, attempts[0].0, attempts[0].1);
      hide CreateKeyStep;
      if CreateKeyStep(p, st, uid, home, attempts[0].0, attempts[0].1).1 == Failed(Collision) {
        var rest := FirstWithoutCollision(p, st, uid, home, attempts[1..]);
        k := rest + 1;
        assert forall j :: 0 < j < |attempts| ==> attempts[j] == attempts[1..][j - 1];
      }
    }
  }

  lemma CollisionWritesNothing(p: Peppers, st: State, uid: Uid, home: HomeId, n: NewKey, now: int)
    ensures CreateKeyStep(p, st, uid, home, n, now).1.Failed? ==> CreateKeyStep(p, st, uid, home, n, now).0 == st
  {
    hide Stage, WithKey;
  }

  /** The same for redemptions. */
  lemma {:induction false} FirstRedemption(p: Peppers, st: State, attempts: seq<(Redemption, int, int)>) returns (k: nat)
    ensures k <= |attempts|
    ensures forall j :: 0 <= j < k ==> RedeemStep(p, st, attempts[j].0, attempts[j].1, attempts[j].2) == (st, Failed(Collision))
    ensures RedeemAttempts(p, st, attempts) ==
      if k == |attempts| then (st, Failed(Unavailable)) else RedeemStep(p, st, attempts[k].0, attempts[k].1, attempts[k].2)
    ensures RedeemAttempts(p, st, attempts).1 != Failed(Collision)
    decreases |attempts|
  {
    k := 0;
    if attempts != [] {
      RefusalWritesNothing(p, st, attempts[0].0, attempts[0].1, attempts[0].2);
      hide RedeemStep;
      if RedeemStep(p, st, attempts[0].0, attempts[0].1, attempts[0].2).1 == Failed(Collision) {
        var rest := FirstRedemption(p, st, attempts[1..]);
        k := rest + 1;
        assert forall j :: 0 < j < |attempts| ==> attempts[j] == attempts[1..][j - 1];
      }
    }
  }

  lemma RefusalWritesNothing(p: Peppers, st: State, r: Redemption, checkedAt: int, now: int)
    ensures RedeemStep(p, st, r, checkedAt, now).1.Failed? ==> RedeemStep(p, st, r, checkedAt, now).0 == st
  {
    hide Stage, WithKey;
  }
}
