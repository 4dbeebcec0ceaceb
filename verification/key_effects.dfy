/** What each control-plane transaction writes and answers, field by field. */
module KeyEffects {
  import opened Options
  import opened Retention
  import opened HomeKeys
  import opened KeyRegistry

  /** Only this home and the index entries of its keys may differ. */
  predicate OnlyHome(a: State, b: State, home: HomeId) {
    && b.owners == a.owners && b.homes.Keys == a.homes.Keys
    && (forall h :: h in a.homes && h != home ==> b.homes[h] == a.homes[h])
    && (forall id :: id in a.index && a.index[id].home != home ==> id in b.index && b.index[id] == a.index[id])
    && (forall id :: id in b.index && id !in a.index ==> b.index[id].home == home)
  }

  // ---------------------------------------------------------------- homes

  /** A home is created exactly when its identifier is free and its owner has fewer than 16; it starts without keys. */
  lemma CreateHomeExactly(st: State, uid: Uid, home: HomeId)
    requires Consistent(st)
    ensures var step := CreateHomeStep(st, uid, home);
      var after, reply := step.0, step.1;
      if home in st.homes then step == (st, Failed(HomeExists))
      else if |OwnedHomes(st.homes, uid)| >= 16 then step == (st, Failed(LimitExceeded))
      else
        && reply == Done && after.index == st.index && after.codes == st.codes
        && after.homes == st.homes[home := after.homes[home]]
        && after.homes[home].owner == uid && after.homes[home].keys == map[]
        && after.homes[home].active == 0 && after.homes[home].retained == 0
        && after.owners == st.owners[uid := OwnedCount(st.owners, uid) + 1]
  {
    hide OwnedHomes, OwnedCount, HomesOk, RecordsIndexed, IndexBacked;
  }

  // ---------------------------------------------------------------- keys

  predicate SaysKey(p: Peppers, k: KeyRecord, key: HomeKey, name: string, scopes: seq<Scope>, owner: Uid, version: string, now: int) {
    && k.verifier == p.verifier(version, key) && k.version == version && k.name == name && k.scopes == scopes
    && k.status == Active && k.createdAt == now && k.createdBy == owner
    && k.revokedAt == None && k.lastUsedAt == None && k.lastIssuance == None
  }

  /** One more active key in the home; at most one other key gone, and that was revoked; the rest as they were. */
  predicate KeyAdded(before: Home, after: Home, id: Id) {
    && after.owner == before.owner && after.active == before.active + 1
    && id !in before.keys && id in after.keys
    && (forall k :: k in after.keys && k != id ==> k in before.keys && after.keys[k] == before.keys[k])
    && (forall k :: k in before.keys && k !in after.keys ==> before.keys[k].status == Revoked)
    && after.retained == |after.keys|
  }

  lemma WithKeyAdds(p: Peppers, st: State, home: HomeId, n: NewKey, now: int)
    requires Consistent(st) && home in st.homes && Stage(p, st, home, st.homes[home], n).Fresh?
    ensures var after := WithKey(p, st, home, st.homes[home], n, Stage(p, st, home, st.homes[home], n).compacted, now);
      && home in after.homes && KeyAdded(st.homes[home], after.homes[home], n.key.id)
      && SaysKey(p, after.homes[home].keys[n.key.id], n.key, n.name, n.scopes, n.createdBy, n.version, now)
      && Indexed(after.index, home, n.key.id, Active) && OnlyHome(st, after, home) && after.codes == st.codes
  {
    hide Consistent, Reconciled, ActiveKeys, Compacted, Indexed, KeyAdded, OnlyHome;
    var h := st.homes[home];
    var compacted := Stage(p, st, home, h, n).compacted;
    HomeIsReconciled(st, home);
    FullHomeCompacts(h);
    FreshMeans(p, st, home, n);
    hide Stage;
    KeysAdded(p, h, n, compacted, now);
    IndexAdded(st, home, n.key.id, compacted);
    WithKeyKeeps(p, st, home, n, now, st.codes);
    HomeWritten(p, st, home, n, compacted, now);
  }

  lemma FreshMeans(p: Peppers, st: State, home: HomeId, n: NewKey)
    requires Consistent(st) && home in st.homes && Stage(p, st, home, st.homes[home], n).Fresh?
    ensures var h, compacted := st.homes[home], Stage(p, st, home, st.homes[home], n).compacted;
      && n.key.id !in h.keys && n.key.id !in st.index && Reconciled(h) && h.active < MAX_ACTIVE_HOME_KEYS
      && compacted == Compacted(h)
      && (compacted.Some? ==>
            && compacted.value in h.keys && h.keys[compacted.value].status == Revoked
            && Indexed(st.index, home, compacted.value, Revoked))
  {
    hide ActiveKeys;
    HomeIsReconciled(st, home);
    FullHomeCompacts(st.homes[home]);
  }

  lemma KeysAdded(p: Peppers, h: Home, n: NewKey, compacted: Option<Id>, now: int)
    requires Reconciled(h) && n.key.id !in h.keys
    requires compacted.Some? ==> compacted.value in h.keys && h.keys[compacted.value].status == Revoked
    ensures var keys := Without(h.keys, compacted)[n.key.id := NewRecord(p, n, now)];
      KeyAdded(
        h, h.(active := h.active + 1, retained := if compacted == None then h.retained + 1 else h.retained, keys := keys), n.key.id)
  {
    hide ActiveKeys;
    if compacted.Some? {
      OneLess(h.keys, compacted.value);
    }
    OneMore(Without(h.keys, compacted), n.key.id, NewRecord(p, n, now));
  }

  lemma IndexAdded(st: State, home: HomeId, id: Id, compacted: Option<Id>)
    requires id !in st.index && (compacted.Some? ==> Indexed(st.index, home, compacted.value, Revoked))
    ensures var index := Without(st.index, compacted)[id := KeyEntry(home, Active)];
      && Indexed(index, home, id, Active)
      && (forall i :: i in st.index && st.index[i].home != home ==> i in index && index[i] == st.index[i])
      && (forall i :: i in index && i !in st.index ==> index[i].home == home)
  {
  }

  lemma HomeWritten(p: Peppers, st: State, home: HomeId, n: NewKey, compacted: Option<Id>, now: int)
    requires home in st.homes
    requires var index := Without(st.index, compacted)[n.key.id := KeyEntry(home, Active)];
      && (forall i :: i in st.index && st.index[i].home != home ==> i in index && index[i] == st.index[i])
      && (forall i :: i in index && i !in st.index ==> index[i].home == home)
    ensures var after := WithKey(p, st, home, st.homes[home], n, compacted, now);
      && OnlyHome(st, after, home) && home in after.homes && n.key.id in after.homes[home].keys
      && SaysKey(p, after.homes[home].keys[n.key.id], n.key, n.name, n.scopes, n.createdBy, n.version, now)
  {
  }

  /** What creating a key answers in a consistent store, by the first thing that stands in its way. */
  lemma CreateKeyExactly(p: Peppers, st: State, uid: Uid, home: HomeId, n: NewKey, now: int)
    requires Consistent(st)
    ensures var step := CreateKeyStep(p, st, uid, home, n, now);
      var after, reply := step.0, step.1;
      var id := n.key.id;
      if !p.known(n.version) then step == (st, Failed(Unavailable))
      else if home !in st.homes then step == (st, Failed(HomeNotFound))
      else if st.homes[home].owner != uid then step == (st, Failed(NotHomeOwner))
      else if id in st.index then
        after == st && (reply == Failed(Collision)
          || (id in st.homes[home].keys && reply == Created(id, st.homes[home].keys[id])
              && SaysKey(p, reply.record.(createdAt := now, lastUsedAt := None, lastIssuance := None), n.key, n.name, n.scopes, uid,
                   n.version, now)))
      else if |ActiveKeys(st.homes[home].keys)| >= 64 then step == (st, Failed(LimitExceeded))
      else
        && KeyAdded(st.homes[home], after.homes[home], id) && reply == Created(id, after.homes[home].keys[id])
        && SaysKey(p, after.homes[home].keys[id], n.key, n.name, n.scopes, uid, n.version, now)
        && Indexed(after.index, home, id, Active) && OnlyHome(st, after, home) && after.codes == st.codes
  {
    hide Consistent, Compacted, ActiveKeys, Without, OnlyHome, KeyAdded, Indexed;
    if p.known(n.version) && home in st.homes && st.homes[home].owner == uid {
      var owned := n.(createdBy := uid);
      StageExactly(p, st, home, owned);
      HomeIsReconciled(st, home);
      StatusSplit(st.homes[home].keys);
      ReconciledCounts(st.homes[home]);
      hide Reconciled;
      if Stage(p, st, home, st.homes[home], owned).Fresh? {
        WithKeyAdds(p, st, home, owned, now);
        hide WithKey;
      }
      if n.key.id in st.index {
        StageKnown(p, st, home, owned);
      }
    }
  }

  lemma StageKnown(p: Peppers, st: State, home: HomeId, n: NewKey)
    requires Consistent(st) && home in st.homes && n.key.id in st.index
    ensures var s, keys := Stage(p, st, home, st.homes[home], n), st.homes[home].keys;
      || s == Refused(Collision)
      || (n.key.id in keys && s == Existing(keys[n.key.id]) && SameKey(p, keys[n.key.id], n) && keys[n.key.id].revokedAt == None)
  {
    hide ActiveKeys, OwnersOk;
    HomeIsReconciled(st, home);
  }

  /** Only the owner revokes; the key, its index entry and the active counter change together, and nothing else does. */
  lemma RevokeKeyExactly(st: State, uid: Uid, home: HomeId, id: Id, now: int)
    requires Consistent(st)
    ensures var step := RevokeKeyStep(st, uid, home, id, now);
      var after, reply := step.0, step.1;
      if home !in st.homes then step == (st, Failed(HomeNotFound))
      else if st.homes[home].owner != uid then step == (st, Failed(NotHomeOwner))
      else if id !in st.homes[home].keys || st.homes[home].keys[id].status == Revoked then step == (st, Done)
      else
        && reply == Done && home in after.homes && after.codes == st.codes && OnlyHome(st, after, home)
        && after.homes[home].owner == uid && after.homes[home].retained == st.homes[home].retained
        && after.homes[home].active == st.homes[home].active - 1
        && after.homes[home].keys == st.homes[home].keys[id :=
             st.homes[home].keys[id].(status := Revoked, revokedAt := Some(now))]
        && id in st.index && after.index == st.index[id := KeyEntry(home, Revoked)]
  {
    hide OwnersOk, ActiveKeys, OnlyHome;
    if home in st.homes && id in st.homes[home].keys {
      HomeIsReconciled(st, home);
      assert Indexed(st.index, home, id, st.homes[home].keys[id].status);
      hide Consistent, Reconciled;
      if st.homes[home].keys[id].status == Active {
        SomeActive(st, home, id);
        RevokedOnly(st, home, id, now);
      }
    }
  }

  lemma SomeActive(st: State, home: HomeId, id: Id)
    requires Consistent(st) && home in st.homes && id in st.homes[home].keys && st.homes[home].keys[id].status == Active
    ensures st.homes[home].active > 0
  {
    HomeIsReconciled(st, home);
    assert id in ActiveKeys(st.homes[home].keys);
  }

  lemma RevokedOnly(st: State, home: HomeId, id: Id, now: int)
    requires home in st.homes && id in st.homes[home].keys && id in st.index && st.index[id].home == home
    ensures var h := st.homes[home];
      var keys := h.keys[id := h.keys[id].(status := Revoked, revokedAt := Some(now))];
      OnlyHome(
        st, st.(homes := st.homes[home := h.(active := h.active - 1, keys := keys)],
                index := st.index[id := st.index[id].(status := Revoked)]), home)
  {
  }

  /** An exchange that is granted stamps the key with the token it issued; any other changes nothing. */
  lemma ExchangeWrites(p: Peppers, st: State, x: Exchange, checkedAt: int)
    ensures var step := ExchangeStep(p, st, x, checkedAt);
      var after, reply := step.0, step.1;
      if !reply.Granted? then after == st
      else
        && x.key.id in st.index && reply == Granted(st.index[x.key.id].home, x.key.id, x.scope)
        && reply.home in st.homes && x.key.id in st.homes[reply.home].keys
        && var h := st.homes[reply.home];
        after == st.(homes := st.homes[reply.home := h.(keys := h.keys[x.key.id :=
          h.keys[x.key.id].(lastUsedAt := Some(1_000 * x.issuedAt), lastIssuance := Some(x.token))])])
  {
    hide Reconciled;
  }

  /** Why an exchange is refused, in a consistent store, by the first thing that is wrong. */
  lemma ExchangeRefused(p: Peppers, st: State, x: Exchange, checkedAt: int)
    requires Consistent(st)
    ensures var reply := ExchangeStep(p, st, x, checkedAt).1;
      if x.key.id !in st.index then reply == Failed(InvalidHomeKey)
      else
        && st.index[x.key.id].home in st.homes && x.key.id in st.homes[st.index[x.key.id].home].keys
        && var k := st.homes[st.index[x.key.id].home].keys[x.key.id];
        if k.status == Revoked then reply == Failed(InvalidHomeKey)
        else if !p.known(k.version) then reply == Failed(Unavailable)
        else if p.verifier(k.version, x.key) != k.verifier then reply == Failed(InvalidHomeKey)
        else if x.issuedAt + 300 <= checkedAt then reply == Failed(Unavailable)
        else if x.scope !in k.scopes then reply == Failed(InsufficientScope)
        else reply.Granted?
  {
    hide OwnersOk, ActiveKeys;
    if x.key.id in st.index {
      var home := st.index[x.key.id].home;
      HomeIsReconciled(st, home);
      assert Indexed(st.index, home, x.key.id, st.homes[home].keys[x.key.id].status);
    }
  }

  // ---------------------------------------------------------------- pairing codes

  predicate SaysCode(c: Code, home: HomeId, uid: Uid, now: int) {
    && c.home == home && c.createdBy == uid && c.status == Pending && c.createdAt == now && c.expiresAt == now + 600_000
    && c.redeemedAt == None && c.key == None
  }

  /** A code is issued exactly to the owner of an existing home, under a known pepper and a free lookup; it lives ten minutes. */
  lemma IssueCodeExactly(p: Peppers, st: State, uid: Uid, home: HomeId, lookup: Lookup, version: string, now: int)
    ensures var step := IssueCodeStep(p, st, uid, home, lookup, version, now);
      var after, reply := step.0, step.1;
      if !p.known(version) then step == (st, Failed(Unavailable))
      else if home !in st.homes then step == (st, Failed(HomeNotFound))
      else if st.homes[home].owner != uid then step == (st, Failed(NotHomeOwner))
      else if lookup in st.codes then step == (st, Failed(Collision))
      else
        && reply == Done && lookup in after.codes && SaysCode(after.codes[lookup], home, uid, now)
        && after == st.(codes := st.codes[lookup := after.codes[lookup]])
  {
  }

  /** Why a redemption is refused, in a consistent store, and what a successful one writes beside the key. */
  lemma RedeemExactly(p: Peppers, st: State, r: Redemption, checkedAt: int, now: int)
    requires Consistent(st)
    ensures var step := RedeemStep(p, st, r, checkedAt, now);
      var after, reply := step.0, step.1;
      if !p.known(r.version) then step == (st, Failed(Unavailable))
      else if r.lookup !in st.codes then step == (st, Failed(InvalidPairingCode))
      else
        var c := st.codes[r.lookup];
        if c.status == Redeemed then
          step == (st, if c.key == Some(r.key.id) then Paired(c.home, r.key.id) else Failed(InvalidPairingCode))
        else if c.expiresAt <= checkedAt || c.home !in st.homes || st.homes[c.home].owner != c.createdBy then
          step == (st, Failed(InvalidPairingCode))
        else if r.key.id in st.index then step == (st, Failed(Collision))
        else if |ActiveKeys(st.homes[c.home].keys)| >= 64 then step == (st, Failed(LimitExceeded))
        else
          && reply == Paired(c.home, r.key.id) && OnlyHome(st, after, c.home)
          && KeyAdded(st.homes[c.home], after.homes[c.home], r.key.id)
          && SaysKey(p, after.homes[c.home].keys[r.key.id], r.key, r.name, ALL_SCOPES, c.createdBy, r.version, now)
          && Indexed(after.index, c.home, r.key.id, Active)
          && after.codes == st.codes[r.lookup := c.(status := Redeemed, redeemedAt := Some(now), key := Some(r.key.id))]
  {
    hide Consistent, Compacted, ActiveKeys, Without, OnlyHome, KeyAdded, Indexed;
    if p.known(r.version) && r.lookup in st.codes {
      var c := st.codes[r.lookup];
      if c.status == Pending && checkedAt < c.expiresAt && c.home in st.homes && st.homes[c.home].owner == c.createdBy {
        var n := PairingKey(r, c);
        StageExactly(p, st, c.home, n);
        HomeIsReconciled(st, c.home);
        StatusSplit(st.homes[c.home].keys);
        ReconciledCounts(st.homes[c.home]);
        hide Reconciled;
        if Stage(p, st, c.home, st.homes[c.home], n).Fresh? {
          WithKeyAdds(p, st, c.home, n, now);
          CodesApart(st, WithKey(p, st, c.home, st.homes[c.home], n, Stage(p, st, c.home, st.homes[c.home], n).compacted, now),
            c.home, st.codes[r.lookup := c.(status := Redeemed, redeemedAt := Some(now), key := Some(r.key.id))]);
          hide WithKey;
        }
        if r.key.id in st.index {
          StageKnown(p, st, c.home, n);
        }
      }
    }
  }

  lemma CodesApart(a: State, b: State, home: HomeId, codes: map<Lookup, Code>)
    requires OnlyHome(a, b, home)
    ensures OnlyHome(a, b.(codes := codes), home)
  {
  }
}
