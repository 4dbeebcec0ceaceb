/** Revoked keys stay revoked, and a pairing code is redeemed exactly once. */
module KeyHistory {
  import opened Options
  import opened HomeKeys
  import opened KeyRegistry

  lemma {:induction false} RunConsistent(p: Peppers, st: State, events: seq<Event>)
    requires Consistent(st)
    ensures Consistent(Run(p, st, events))
    decreases |events|
  {
    hide Consistent, Step;
    if events != [] {
      RunConsistent(p, st, events[..|events| - 1]);
      StepKeeps(p, Run(p, st, events[..|events| - 1]), events[|events| - 1]);
    }
  }

  // ---------------------------------------------------------------- exchange

  /** In a consistent store a key is exchanged exactly when it is active, matches, is in time and has the scope. */
  lemma ExchangeExactly(p: Peppers, st: State, home: HomeId, x: Exchange, checkedAt: int)
    requires Consistent(st) && x.key.id in KeysOf(st, home)
    ensures var k := KeysOf(st, home)[x.key.id];
      ExchangeStep(p, st, x, checkedAt).1.Granted? <==>
        && k.status == Active && p.known(k.version) && p.verifier(k.version, x.key) == k.verifier
        && checkedAt < x.issuedAt + TOKEN_LIFETIME_SECONDS && x.scope in k.scopes
    ensures ExchangeStep(p, st, x, checkedAt).1.Granted? ==> ExchangeStep(p, st, x, checkedAt).1 == Granted(home, x.key.id, x.scope)
  {
    hide OwnersOk, ActiveKeys;
    HomeIsReconciled(st, home);
    assert Indexed(st.index, home, x.key.id, st.homes[home].keys[x.key.id].status);
  }

  predicate Dead(st: State, home: HomeId, id: Id) {
    id in KeysOf(st, home) ==> KeysOf(st, home)[id].status == Revoked
  }

  lemma RevokeKills(st: State, uid: Uid, home: HomeId, id: Id, now: int)
    requires RevokeKeyStep(st, uid, home, id, now).1 == Done
    ensures Dead(RevokeKeyStep(st, uid, home, id, now).0, home, id)
  {
    hide Reconciled;
  }

  /** The call generates this key identifier. */
  predicate Generates(e: Event, id: Id) {
    (e.call.CreateKey? && e.call.n.key.id == id) || (e.call.Redeem? && e.call.r.key.id == id)
  }

  lemma StepStaysDead(p: Peppers, st: State, e: Event, home: HomeId, id: Id)
    requires Dead(st, home, id) && !Generates(e, id)
    ensures Dead(Step(p, st, e).0, home, id)
  {
    hide Reconciled, Compacted, SameKey, Indexed, NewRecord;
  }

  lemma {:induction false} DeadStays(p: Peppers, st: State, events: seq<Event>, home: HomeId, id: Id)
    requires Dead(st, home, id) && forall i :: 0 <= i < |events| ==> !Generates(events[i], id)
    ensures Dead(Run(p, st, events), home, id)
    decreases |events|
  {
    hide Step, Dead;
    if events != [] {
      DeadStays(p, st, events[..|events| - 1], home, id);
      StepStaysDead(p, Run(p, st, events[..|events| - 1]), events[|events| - 1], home, id);
    }
  }

  /** A revoked key is never exchanged again in that home, unless its identifier is generated anew. */
  lemma RevokedNeverExchanged(
    p: Peppers, st: State, uid: Uid, home: HomeId, id: Id, revokedAt: int, events: seq<Event>, x: Exchange, checkedAt: int)
    requires Consistent(st) && RevokeKeyStep(st, uid, home, id, revokedAt).1 == Done && x.key.id == id
    requires forall i :: 0 <= i < |events| ==> !Generates(events[i], id)
    ensures var later := Run(p, RevokeKeyStep(st, uid, home, id, revokedAt).0, events);
      var reply := ExchangeStep(p, later, x, checkedAt).1;
      !(reply.Granted? && reply.home == home)
  {
    hide Consistent, Run, RevokeKeyStep, Reconciled, RecordOk;
    RevokeKills(st, uid, home, id, revokedAt);
    DeadStays(p, RevokeKeyStep(st, uid, home, id, revokedAt).0, events, home, id);
  }

  // ---------------------------------------------------------------- pairing

  /** A successful redemption of a pending code creates its key, and marks the code, in the same commit. */
  lemma RedemptionCreates(p: Peppers, st: State, r: Redemption, checkedAt: int, now: int)
    requires RedeemStep(p, st, r, checkedAt, now).0 != st
    ensures var after, reply := RedeemStep(p, st, r, checkedAt, now).0, RedeemStep(p, st, r, checkedAt, now).1;
      && r.lookup in st.codes && st.codes[r.lookup].status == Pending && checkedAt < st.codes[r.lookup].expiresAt
      && var home := st.codes[r.lookup].home;
      && reply == Paired(home, r.key.id)
      && r.lookup in after.codes && after.codes[r.lookup].status == Redeemed && after.codes[r.lookup].key == Some(r.key.id)
      && r.key.id !in KeysOf(st, home) && r.key.id in KeysOf(after, home)
      && var k := KeysOf(after, home)[r.key.id];
      && k.status == Active && k.verifier == p.verifier(r.version, r.key) && k.version == r.version
      && k.scopes == ALL_SCOPES && k.createdBy == st.codes[r.lookup].createdBy == st.homes[home].owner
      && Indexed(after.index, home, r.key.id, Active)
  {
    hide Reconciled, Compacted, SameKey;
  }

  /** The only success that writes nothing is the replay of one's own redemption. */
  lemma RedemptionReplayed(p: Peppers, st: State, r: Redemption, checkedAt: int, now: int)
    requires RedeemStep(p, st, r, checkedAt, now).1.Paired? && RedeemStep(p, st, r, checkedAt, now).0 == st
    ensures r.lookup in st.codes && st.codes[r.lookup].status == Redeemed && st.codes[r.lookup].key == Some(r.key.id)
  {
    hide Stage, WithKey;
    if r.lookup in st.codes && st.codes[r.lookup].status == Pending {
      PendingChanges(p, st, r, checkedAt, now);
    }
  }

  lemma PendingChanges(p: Peppers, st: State, r: Redemption, checkedAt: int, now: int)
    requires RedeemStep(p, st, r, checkedAt, now).1.Paired? && st.codes[r.lookup].status == Pending
    requires r.lookup in st.codes
    ensures RedeemStep(p, st, r, checkedAt, now).0.codes != st.codes
  {
    hide Stage;
    assert RedeemStep(p, st, r, checkedAt, now).0.codes[r.lookup].status == Redeemed;
  }

  /** Which key, if any, a code was redeemed for. */
  predicate RedeemedFor(st: State, lookup: Lookup, key: Id) {
    lookup in st.codes && st.codes[lookup].status == Redeemed && st.codes[lookup].key == Some(key)
  }

  lemma StepKeepsRedemption(p: Peppers, st: State, e: Event, lookup: Lookup, key: Id)
    requires RedeemedFor(st, lookup, key)
    ensures RedeemedFor(Step(p, st, e).0, lookup, key)
  {
    hide Reconciled, Compacted, SameKey, Indexed, Stage;
  }

  lemma {:induction false} RedemptionStays(p: Peppers, st: State, events: seq<Event>, lookup: Lookup, key: Id)
    requires RedeemedFor(st, lookup, key)
    ensures RedeemedFor(Run(p, st, events), lookup, key)
    decreases |events|
  {
    hide Step, RedeemedFor;
    if events != [] {
      RedemptionStays(p, st, events[..|events| - 1], lookup, key);
      StepKeepsRedemption(p, Run(p, st, events[..|events| - 1]), events[|events| - 1], lookup, key);
    }
  }

  /** Whether step `i` of the run is a redemption of this code that reported success. */
  ghost predicate Succeeds(p: Peppers, events: seq<Event>, i: nat, lookup: Lookup)
    requires i < |events|
  {
    && events[i].call.Redeem? && events[i].call.r.lookup == lookup
    && Step(p, Run(p, EMPTY, events[..i]), events[i]).1.Paired?
  }

  lemma SuccessRedeems(p: Peppers, st: State, e: Event)
    requires e.call.Redeem? && Step(p, st, e).1.Paired?
    ensures RedeemedFor(Step(p, st, e).0, e.call.r.lookup, e.call.r.key.id)
  {
    hide Stage;
  }

  lemma {:induction false} RunSplits(p: Peppers, st: State, a: seq<Event>, b: seq<Event>)
    ensures Run(p, st, a + b) == Run(p, Run(p, st, a), b)
    decreases |b|
  {
    hide Step;
    if b == [] {
      assert a + b == a;
    } else {
      RunSplits(p, st, a, b[..|b| - 1]);
      assert (a + b)[..|a + b| - 1] == a + b[..|b| - 1];
    }
  }

  /**
   * Exactly once: any two redemptions of one code that report success, anywhere in a run, generated
   * the same key identifier, so they are executions of one call. Concurrent redeemers, which draw
   * different identifiers, never both succeed.
   */
  lemma PairingOnce(p: Peppers, events: seq<Event>, i: nat, j: nat, lookup: Lookup)
    requires i < j < |events| && Succeeds(p, events, i, lookup) && Succeeds(p, events, j, lookup)
    ensures events[i].call.r.key.id == events[j].call.r.key.id
  {
    hide Step, Run;
    var key := events[i].call.r.key.id;
    var first := Step(p, Run(p, EMPTY, events[..i]), events[i]).0;
    SuccessRedeems(p, Run(p, EMPTY, events[..i]), events[i]);
    assert events[..i + 1][..i] == events[..i];
    LastStep(p, EMPTY, events[..i + 1]);
    RunSplits(p, EMPTY, events[..i + 1], events[i + 1..j]);
    assert events[..i + 1] + events[i + 1..j] == events[..j];
    RedemptionStays(p, first, events[i + 1..j], lookup, key);
    ReplayOnly(p, Run(p, EMPTY, events[..j]), events[j], key);
  }

  lemma LastStep(p: Peppers, st: State, events: seq<Event>)
    requires events != []
    ensures Run(p, st, events) == Step(p, Run(p, st, events[..|events| - 1]), events[|events| - 1]).0
  {
    hide Step;
  }

  lemma ReplayOnly(p: Peppers, st: State, e: Event, key: Id)
    requires e.call.Redeem? && RedeemedFor(st, e.call.r.lookup, key) && Step(p, st, e).1.Paired?
    ensures e.call.r.key.id == key && Step(p, st, e).0 == st
  {
    hide Stage;
  }

  // ---------------------------------------------------------------- a code is redeemed if and only if its key was created

  /** Every redeemed code names a key that some step of the run created for it. */
  ghost predicate CreatedBy(p: Peppers, events: seq<Event>, i: nat, lookup: Lookup, key: Id)
    requires i < |events|
  {
    && events[i].call.Redeem? && events[i].call.r.lookup == lookup && events[i].call.r.key.id == key
    && Step(p, Run(p, EMPTY, events[..i]), events[i]).0 != Run(p, EMPTY, events[..i])
  }

  lemma StepRedeems(p: Peppers, st: State, e: Event, lookup: Lookup, key: Id)
    requires RedeemedFor(Step(p, st, e).0, lookup, key) && !RedeemedFor(st, lookup, key)
    ensures e.call.Redeem? && e.call.r.lookup == lookup && e.call.r.key.id == key && Step(p, st, e).0 != st
  {
    hide Reconciled, Compacted, SameKey, Indexed, Stage;
  }

  lemma {:induction false} RedeemedWasCreated(p: Peppers, events: seq<Event>, lookup: Lookup, key: Id) returns (i: nat)
    requires RedeemedFor(Run(p, EMPTY, events), lookup, key)
    ensures i < |events| && CreatedBy(p, events, i, lookup, key)
    decreases |events|
  {
    hide Step;
    i := 0;
    if events == [] {
      assert false;
    } else {
      var n := |events| - 1;
      if RedeemedFor(Run(p, EMPTY, events[..n]), lookup, key) {
        i := RedeemedWasCreated(p, events[..n], lookup, key);
        assert events[..n][..i] == events[..i];
      } else {
        StepRedeems(p, Run(p, EMPTY, events[..n]), events[n], lookup, key);
        i := n;
      }
    }
  }

  /** A code is redeemed for a key exactly when a redemption of it created that key. */
  lemma RedeemedExactly(p: Peppers, events: seq<Event>, lookup: Lookup, key: Id)
    ensures RedeemedFor(Run(p, EMPTY, events), lookup, key)
       <==> exists i :: 0 <= i < |events| && CreatedBy(p, events, i, lookup, key)
  {
    hide Step, Run, RedeemedFor;
    if RedeemedFor(Run(p, EMPTY, events), lookup, key) {
      var i := RedeemedWasCreated(p, events, lookup, key);
    }
    if i :| 0 <= i < |events| && CreatedBy(p, events, i, lookup, key) {
      var before := Run(p, EMPTY, events[..i]);
      CreationRedeems(p, before, events[i]);
      assert events[..i + 1][..i] == events[..i];
      LastStep(p, EMPTY, events[..i + 1]);
      RunSplits(p, EMPTY, events[..i + 1], events[i + 1..]);
      assert events[..i + 1] + events[i + 1..] == events;
      RedemptionStays(p, Step(p, before, events[i]).0, events[i + 1..], lookup, key);
    }
  }

  lemma CreationRedeems(p: Peppers, st: State, e: Event)
    requires e.call.Redeem? && Step(p, st, e).0 != st
    ensures RedeemedFor(Step(p, st, e).0, e.call.r.lookup, e.call.r.key.id)
  {
    hide Stage;
    RedemptionCreates(p, st, e.call.r, e.checkedAt, e.now);
  }
}
