/** Which changes of the pinned secret keyrings a production deployment may make, and what any run of them keeps. */
module SecretLifecycle {
  import opened Options
  import opened Retention

  datatype Base = Base(project: string, secret: string)

  /** A logical version and the numbered Secret Manager version it stands for. */
  datatype Reference = Reference(logical: string, base: Base, version: int)

  datatype Keyring = Keyring(current: string, versions: seq<Reference>)

  datatype Purpose = HomeKeyPepper | ComponentHmac | PushHmac | AuditHmac | NetworkHmac

  type KeyringSet = map<Purpose, Keyring>

  datatype Transition = Initialize | Prepare | Activate | Retire | NoOp

  const PURPOSES: seq<Purpose> := [HomeKeyPepper, ComponentHmac, PushHmac, AuditHmac, NetworkHmac]

  function SecretId(p: Purpose): string {
    match p
    case HomeKeyPepper => "miakapp-home-key-pepper"
    case ComponentHmac => "miakapp-component-hmac"
    case PushHmac => "miakapp-push-hmac"
    case AuditHmac => "miakapp-audit-hmac"
    case NetworkHmac => "miakapp-network-hmac"
  }

  const PROJECTS: set<string> := {"miakapp-v4-staging", "miakapp-v4"}

  lemma PurposesComplete(p: Purpose)
    ensures p in PURPOSES
  {
    var i := match p
      case HomeKeyPepper => 0
      case ComponentHmac => 1
      case PushHmac => 2
      case AuditHmac => 3
      case NetworkHmac => 4;
    assert PURPOSES[i] == p;
  }

  // ---------------------------------------------------------------- one keyring

  predicate Alphanumeric(c: char) {
    'A' <= c <= 'Z' || 'a' <= c <= 'z' || '0' <= c <= '9'
  }

  predicate LogicalOk(s: string) {
    && 1 <= |s| <= 64 && Alphanumeric(s[0])
    && forall i :: 0 <= i < |s| ==> Alphanumeric(s[i]) || s[i] in "._-"
  }

  predicate ReferenceOk(r: Reference) { LogicalOk(r.logical) && r.version >= 1 }

  predicate KeyringOk(k: Keyring) {
    && LogicalOk(k.current) && 1 <= |k.versions| <= 2
    && (forall i :: 0 <= i < |k.versions| ==> ReferenceOk(k.versions[i]) && k.versions[i].base == k.versions[0].base)
    && (forall i, j :: 0 <= i < j < |k.versions| ==>
          k.versions[i].logical != k.versions[j].logical && k.versions[i].version != k.versions[j].version)
    && (exists i :: 0 <= i < |k.versions| && k.versions[i].logical == k.current)
  }

  method ParseKeyring(k: Keyring) returns (ok: bool)
    ensures ok == KeyringOk(k)
  {
    if !LogicalOk(k.current) || |k.versions| == 0 || |k.versions| > 2 {
      return false;
    }
    for i := 0 to |k.versions|
      invariant forall j :: 0 <= j < i ==> ReferenceOk(k.versions[j])
    {
      if !ReferenceOk(k.versions[i]) {
        return false;
      }
    }
    var logicals: set<string>, names: set<(Base, int)> := {}, {};
    for i := 0 to |k.versions|
      invariant forall j :: 0 <= j < i ==> k.versions[j].base == k.versions[0].base
      invariant forall j, l :: 0 <= j < l < i ==>
        k.versions[j].logical != k.versions[l].logical && k.versions[j].version != k.versions[l].version
      invariant logicals == set j | 0 <= j < i :: k.versions[j].logical
      invariant names == set j | 0 <= j < i :: (k.versions[j].base, k.versions[j].version)
    {
      var r := k.versions[i];
      if r.base != k.versions[0].base || r.logical in logicals || (r.base, r.version) in names {
        return false;
      }
      logicals, names := logicals + {r.logical}, names + {(r.base, r.version)};
    }
    return k.current in logicals;
  }

  /** The reference a keyring resolves a logical version to. */
  function Resolve(versions: seq<Reference>, logical: string): Option<Reference> {
    if versions == [] then None
    else if versions[0].logical == logical then Some(versions[0])
    else Resolve(versions[1..], logical)
  }

  predicate IsSubset(a: Keyring, b: Keyring) {
    forall i :: 0 <= i < |a.versions| ==> Resolve(b.versions, a.versions[i].logical) == Some(a.versions[i])
  }

  predicate HasSameVersions(a: Keyring, b: Keyring) { |a.versions| == |b.versions| && IsSubset(a, b) }

  function Highest(versions: seq<Reference>): int {
    if versions == [] then 0
    else
      var rest := Highest(versions[..|versions| - 1]);
      if versions[|versions| - 1].version > rest then versions[|versions| - 1].version else rest
  }

  function Lowest(k: Keyring): int
    requires KeyringOk(k)
  {
    if |k.versions| == 1 || k.versions[0].version < k.versions[1].version then k.versions[0].version else k.versions[1].version
  }

  /** The first reference whose logical version the other keyring does not know. */
  function Added(versions: seq<Reference>, prev: Keyring): Option<Reference> {
    if versions == [] then None
    else if Resolve(prev.versions, versions[0].logical) == None then Some(versions[0])
    else Added(versions[1..], prev)
  }

  /** The transition a keyring makes, or None where it is refused. */
  function Classify(previous: Option<Keyring>, next: Keyring): Option<Transition> {
    if !KeyringOk(next) then None
    else if previous == None then (if |next.versions| != 1 then None else Some(Initialize))
    else
      var prev := previous.value;
      if !KeyringOk(prev) || prev.versions[0].base != next.versions[0].base then None
      else if HasSameVersions(prev, next) then
        if prev.current == next.current then Some(NoOp)
        else if |prev.versions| == 2 then Some(Activate)
        else None
      else if |prev.versions| == 1 && |next.versions| == 2 && prev.current == next.current && IsSubset(prev, next) then
        var added := Added(next.versions, prev);
        if added == None || added.value.version <= Highest(prev.versions) then None else Some(Prepare)
      else if |prev.versions| == 2 && |next.versions| == 1 && prev.current == next.current && IsSubset(next, prev) then
        Some(Retire)
      else None
  }

  // The same in terms of the set of references held, whatever order lists them.

  function Held(k: Keyring): set<Reference> { set i | 0 <= i < |k.versions| :: k.versions[i] }

  ghost predicate Current(k: Keyring, r: Reference) { r in Held(k) && r.logical == k.current }

  ghost predicate SameKeyring(a: Keyring, b: Keyring) { Held(a) == Held(b) && a.current == b.current }

  ghost predicate Adds(a: Keyring, b: Keyring, r: Reference) {
    && r !in Held(a) && Held(b) == Held(a) + {r} && a.current == b.current
    && forall q :: q in Held(a) ==> q.base == r.base && q.version < r.version && q.logical != r.logical
  }

  ghost predicate Drops(a: Keyring, b: Keyring, r: Reference) {
    r in Held(a) && r.logical != a.current && Held(b) == Held(a) - {r} && a.current == b.current
  }

  lemma {:induction false} ResolveHeld(versions: seq<Reference>, logical: string)
    ensures Resolve(versions, logical) == None <==> forall i :: 0 <= i < |versions| ==> versions[i].logical != logical
    ensures Resolve(versions, logical).Some? ==>
      Resolve(versions, logical).value in versions && Resolve(versions, logical).value.logical == logical
  {
    if versions != [] {
      ResolveHeld(versions[1..], logical);
      assert forall i :: 1 <= i < |versions| ==> versions[i] == versions[1..][i - 1];
    }
  }

  lemma ResolveExactly(k: Keyring, r: Reference)
    requires KeyringOk(k)
    ensures Resolve(k.versions, r.logical) == Some(r) <==> r in Held(k)
  {
    ResolveHeld(k.versions, r.logical);
  }

  lemma SubsetIsSubset(a: Keyring, b: Keyring)
    requires KeyringOk(b)
    ensures IsSubset(a, b) <==> Held(a) <= Held(b)
  {
    forall r: Reference ensures Resolve(b.versions, r.logical) == Some(r) <==> r in Held(b) { ResolveExactly(b, r); }
    assert forall i :: 0 <= i < |a.versions| ==> a.versions[i] in Held(a);
  }

  lemma HeldShape(k: Keyring)
    requires KeyringOk(k)
    ensures |k.versions| == 1 ==> Held(k) == {k.versions[0]}
    ensures |k.versions| == 2 ==> Held(k) == {k.versions[0], k.versions[1]} && k.versions[0] != k.versions[1]
    ensures forall r :: r in Held(k) ==> r.version >= Lowest(k) && r.base == k.versions[0].base
    ensures exists r :: r in Held(k) && r.version == Lowest(k)
  {
    assert k.versions[0] in Held(k);
    if |k.versions| == 2 {
      assert k.versions[1] in Held(k);
    }
  }

  /** The transitions by what they do to the references held: nothing, a switch of current, one in, one out. */
  lemma ClassifyExactly(a: Keyring, b: Keyring)
    requires KeyringOk(a) && KeyringOk(b)
    ensures Classify(Some(a), b) == Some(NoOp) <==> SameKeyring(a, b)
    ensures Classify(Some(a), b) == Some(Activate) <==> Held(a) == Held(b) && a.current != b.current
    ensures Classify(Some(a), b) == Some(Prepare) <==> exists r :: Adds(a, b, r)
    ensures Classify(Some(a), b) == Some(Retire) <==> exists r :: Drops(a, b, r)
    ensures Classify(Some(a), b) != Some(Initialize)
  {
    CardinalityApart(a, b);
    if Held(a) == Held(b) {
      BasesAgree(a, b);
    }
    if |a.versions| == 1 && |b.versions| == 2 {
      PrepareExactly(a, b);
    } else if |a.versions| == 2 && |b.versions| == 1 {
      RetireExactly(a, b);
    }
    hide Held, IsSubset, HasSameVersions, KeyringOk, Adds, Drops, Added, Highest;
  }

  lemma BasesAgree(a: Keyring, b: Keyring)
    requires KeyringOk(a) && KeyringOk(b) && Held(a) == Held(b)
    ensures a.versions[0].base == b.versions[0].base
  {
    HeldShape(a);
    HeldShape(b);
    assert a.versions[0] in Held(a);
  }

  lemma CardinalityApart(a: Keyring, b: Keyring)
    requires KeyringOk(a) && KeyringOk(b)
    ensures |Held(a)| == |a.versions| && |Held(b)| == |b.versions|
    ensures Held(a) == Held(b) <==> HasSameVersions(a, b)
    ensures forall r :: Adds(a, b, r) ==> |a.versions| == 1 && |b.versions| == 2
    ensures forall r :: Drops(a, b, r) ==> |a.versions| == 2 && |b.versions| == 1
  {
    HeldSize(a);
    HeldSize(b);
    SubsetIsSubset(a, b);
    hide KeyringOk, Held, IsSubset;
    if HasSameVersions(a, b) {
      EqualSizes(Held(a), Held(b));
    }
    forall r | Adds(a, b, r) ensures |a.versions| == 1 && |b.versions| == 2 {
      assert |Held(a) + {r}| == |Held(a)| + 1;
    }
    forall r | Drops(a, b, r) ensures |a.versions| == 2 && |b.versions| == 1 {
      assert |Held(a) - {r}| == |Held(a)| - 1;
    }
  }

  lemma HeldSize(k: Keyring)
    requires KeyringOk(k)
    ensures |Held(k)| == |k.versions| && 1 <= |k.versions| <= 2
  {
    HeldShape(k);
  }

  lemma EqualSizes(a: set<Reference>, b: set<Reference>)
    requires a <= b && |a| == |b|
    ensures a == b
  {
    if x :| x in b && x !in a {
      assert a <= b - {x};
      SubsetSize(a, b - {x});
    }
  }

  lemma PrepareExactly(a: Keyring, b: Keyring)
    requires KeyringOk(a) && KeyringOk(b) && |a.versions| == 1 && |b.versions| == 2
    ensures Classify(Some(a), b) == Some(Prepare) <==> exists r :: Adds(a, b, r)
  {
    HeldShape(a);
    HeldShape(b);
    SubsetIsSubset(a, b);
    var x, y, z := a.versions[0], b.versions[0], b.versions[1];
    assert Highest(a.versions) == x.version;
    ResolveHeld(a.versions, y.logical);
    ResolveHeld(a.versions, z.logical);
    assert b.versions[1..][0] == z;
    if Classify(Some(a), b) == Some(Prepare) {
      var r := Added(b.versions, a).value;
      assert x in Held(a) && x in Held(b);
      assert y == x || z == x;
      ResolveExactly(a, x);
      assert Added(b.versions[1..], a).Some? ==> Added(b.versions[1..], a).value == z;
      assert Adds(a, b, r);
    }
    if r :| Adds(a, b, r) {
      assert x in Held(b);
      assert Added(b.versions, a) == Some(r);
    }
  }

  lemma RetireExactly(a: Keyring, b: Keyring)
    requires KeyringOk(a) && KeyringOk(b) && |a.versions| == 2 && |b.versions| == 1
    ensures Classify(Some(a), b) == Some(Retire) <==> exists r :: Drops(a, b, r)
  {
    HeldShape(a);
    HeldShape(b);
    SubsetIsSubset(b, a);
    if Classify(Some(a), b) == Some(Retire) {
      var r := if b.versions[0] == a.versions[0] then a.versions[1] else a.versions[0];
      assert b.versions[0] in Held(a);
      assert Drops(a, b, r);
    }
    if r :| Drops(a, b, r) {
      assert b.versions[0] in Held(b);
    }
  }

  // ---------------------------------------------------------------- the five keyrings

  predicate PurposeOk(p: Purpose, k: Keyring, project: string) {
    KeyringOk(k) && k.versions[0].base == Base(project, SecretId(p)) && project in PROJECTS
  }

  predicate SetOk(s: KeyringSet) {
    && (forall p: Purpose :: p in PURPOSES ==> p in s)
    && KeyringOk(s[HomeKeyPepper])
    && forall p: Purpose :: p in PURPOSES ==> PurposeOk(p, s[p], s[HomeKeyPepper].versions[0].base.project)
  }

  method CheckKeyringSet(s: KeyringSet) returns (ok: bool)
    ensures ok == SetOk(s)
  {
    if exists p | p in PURPOSES :: p !in s {
      return false;
    }
    var project: Option<string> := None;
    for i := 0 to |PURPOSES|
      invariant i == 0 <==> project == None
      invariant i > 0 ==> KeyringOk(s[HomeKeyPepper]) && project == Some(s[HomeKeyPepper].versions[0].base.project)
      invariant forall j :: 0 <= j < i ==> PurposeOk(PURPOSES[j], s[PURPOSES[j]], s[HomeKeyPepper].versions[0].base.project)
    {
      var p := PURPOSES[i];
      var parsed := ParseKeyring(s[p]);
      if !parsed {
        return false;
      }
      var base := s[p].versions[0].base;
      if base.secret != SecretId(p) || base.project !in PROJECTS || (project.Some? && base.project != project.value) {
        assert !PurposeOk(p, s[p], s[HomeKeyPepper].versions[0].base.project);
        return false;
      }
      project := Some(base.project);
    }
    return true;
  }

  datatype Outcome = Failed | Classified(transition: Transition, purposes: seq<Purpose>)

  /** The purposes whose keyring changes, in order; None as soon as one of them is refused. */
  function Changes(prev: KeyringSet, next: KeyringSet, ps: seq<Purpose>): (r: Option<seq<(Purpose, Transition)>>)
    requires forall p :: p in ps ==> p in prev && p in next
  {
    if ps == [] then Some([])
    else
      var t, rest := Classify(Some(prev[ps[0]]), next[ps[0]]), Changes(prev, next, ps[1..]);
      if t == None || rest == None then None
      else if t.value == NoOp then rest
      else Some([(ps[0], t.value)] + rest.value)
  }

  function ClassifySet(previous: Option<KeyringSet>, next: KeyringSet): Outcome {
    if !SetOk(next) then Failed
    else if previous == None then
      if forall p: Purpose :: p in PURPOSES ==> Classify(None, next[p]).Some? then Classified(Initialize, PURPOSES) else Failed
    else if !SetOk(previous.value) then Failed
    else
      match Changes(previous.value, next, PURPOSES)
      case None => Failed
      case Some(changes) =>
        if |changes| == 0 then Classified(NoOp, [])
        else if |changes| != 1 then Failed
        else Classified(changes[0].1, [changes[0].0])
  }

  /** Each changed purpose once, with its transition. */
  ghost predicate Lists(prev: KeyringSet, next: KeyringSet, ps: seq<Purpose>, changes: seq<(Purpose, Transition)>)
    requires forall p :: p in ps ==> p in prev && p in next
  {
    && (forall p, t :: (p, t) in changes <==> p in ps && t != NoOp && Classify(Some(prev[p]), next[p]) == Some(t))
    && (forall i, j :: 0 <= i < j < |changes| ==> changes[i].0 != changes[j].0)
  }

  lemma {:induction false} ChangesAre(prev: KeyringSet, next: KeyringSet, ps: seq<Purpose>)
    requires forall p :: p in ps ==> p in prev && p in next
    requires forall i, j :: 0 <= i < j < |ps| ==> ps[i] != ps[j]
    ensures Changes(prev, next, ps) == None <==> exists p :: p in ps && Classify(Some(prev[p]), next[p]) == None
    ensures Changes(prev, next, ps).Some? ==> Lists(prev, next, ps, Changes(prev, next, ps).value)
  {
    hide Classify;
    if ps != [] {
      ChangesAre(prev, next, ps[1..]);
      assert forall p :: p in ps <==> p == ps[0] || p in ps[1..];
    }
  }

  /** One purpose is refused, or two of them change. */
  ghost predicate Refusable(prev: KeyringSet, next: KeyringSet)
    requires SetOk(prev) && SetOk(next)
  {
    || (exists p: Purpose :: p in PURPOSES && Classify(Some(prev[p]), next[p]) == None)
    || (exists p: Purpose, q: Purpose :: p in PURPOSES && q in PURPOSES && p != q
          && Classify(Some(prev[p]), next[p]) != Some(NoOp) && Classify(Some(prev[q]), next[q]) != Some(NoOp))
  }

  /** Nothing changes, or exactly the purpose reported, by the transition reported. */
  ghost predicate Reports(prev: KeyringSet, next: KeyringSet, t: Transition, ps: seq<Purpose>)
    requires SetOk(prev) && SetOk(next)
  {
    || (t == NoOp && ps == [] && forall p: Purpose :: p in PURPOSES ==> Classify(Some(prev[p]), next[p]) == Some(NoOp))
    || (t != NoOp && |ps| == 1 && ps[0] in PURPOSES && Classify(Some(prev[ps[0]]), next[ps[0]]) == Some(t)
        && forall p: Purpose :: p in PURPOSES && p != ps[0] ==> Classify(Some(prev[p]), next[p]) == Some(NoOp))
  }

  lemma ChangesOfPurposes(prev: KeyringSet, next: KeyringSet)
    requires SetOk(prev) && SetOk(next)
    ensures ClassifySet(Some(prev), next) == Failed <==> Refusable(prev, next)
    ensures ClassifySet(Some(prev), next).Classified? ==>
      Reports(prev, next, ClassifySet(Some(prev), next).transition, ClassifySet(Some(prev), next).purposes)
  {
    hide Classify, KeyringOk, PurposeOk, Lists, Refusable, Reports, Changes;
    assert forall p: Purpose :: p in PURPOSES ==> p in prev && p in next;
    hide SetOk;
    ChangesAre(prev, next, PURPOSES);
    var changes := Changes(prev, next, PURPOSES);
    if changes == None {
      OneRefused(prev, next);
    } else if |changes.value| == 0 {
      NothingChanges(prev, next);
      ReportedNotRefused(prev, next, NoOp, []);
    } else if |changes.value| == 1 {
      OneChanges(prev, next, changes.value);
      ReportedNotRefused(prev, next, changes.value[0].1, [changes.value[0].0]);
    } else {
      TwoChange(prev, next, changes.value);
    }
  }

  lemma OneRefused(prev: KeyringSet, next: KeyringSet)
    requires SetOk(prev) && SetOk(next) && exists p :: p in PURPOSES && Classify(Some(prev[p]), next[p]) == None
    ensures Refusable(prev, next)
  {
    hide Classify, KeyringOk, PurposeOk;
  }

  lemma NothingChanges(prev: KeyringSet, next: KeyringSet)
    requires SetOk(prev) && SetOk(next) && Lists(prev, next, PURPOSES, [])
    requires forall p :: p in PURPOSES ==> Classify(Some(prev[p]), next[p]) != None
    ensures Reports(prev, next, NoOp, [])
  {
    hide Classify, KeyringOk, PurposeOk;
    forall p: Purpose | p in PURPOSES ensures Classify(Some(prev[p]), next[p]) == Some(NoOp) {
      var t := Classify(Some(prev[p]), next[p]).value;
      assert (p, t) !in [];
    }
  }

  lemma OneChanges(prev: KeyringSet, next: KeyringSet, changes: seq<(Purpose, Transition)>)
    requires SetOk(prev) && SetOk(next) && Lists(prev, next, PURPOSES, changes) && |changes| == 1
    requires forall p :: p in PURPOSES ==> Classify(Some(prev[p]), next[p]) != None
    ensures Reports(prev, next, changes[0].1, [changes[0].0])
  {
    hide Classify, KeyringOk, PurposeOk;
    assert (changes[0].0, changes[0].1) in changes;
    forall p: Purpose | p in PURPOSES && p != changes[0].0 ensures Classify(Some(prev[p]), next[p]) == Some(NoOp) {
      var t := Classify(Some(prev[p]), next[p]).value;
      assert (p, t) !in changes;
    }
  }

  lemma ReportedNotRefused(prev: KeyringSet, next: KeyringSet, t: Transition, ps: seq<Purpose>)
    requires SetOk(prev) && SetOk(next) && Reports(prev, next, t, ps)
    ensures !Refusable(prev, next)
  {
    hide Classify, KeyringOk, PurposeOk;
  }

  lemma TwoChange(prev: KeyringSet, next: KeyringSet, changes: seq<(Purpose, Transition)>)
    requires SetOk(prev) && SetOk(next) && Lists(prev, next, PURPOSES, changes) && |changes| >= 2
    ensures Refusable(prev, next)
  {
    hide Classify, KeyringOk, PurposeOk;
    var p, q := changes[0], changes[1];
    assert (p.0, p.1) in changes && (q.0, q.1) in changes;
    assert p.0 != q.0;
  }

  // ---------------------------------------------------------------- runs

  /** A deployment history: a first set, and every later one classified against the one before. */
  predicate Accepted(run: seq<KeyringSet>) {
    && run != [] && ClassifySet(None, run[0]).Classified?
    && forall i :: 1 <= i < |run| ==> ClassifySet(Some(run[i - 1]), run[i]).Classified?
  }

  /** One purpose, seen across one accepted step. */
  ghost predicate Moves(a: Keyring, b: Keyring) {
    || SameKeyring(a, b)
    || (Held(a) == Held(b) && a.current != b.current)
    || (exists r :: Adds(a, b, r))
    || (exists r :: Drops(a, b, r))
  }

  lemma RunOk(run: seq<KeyringSet>, i: nat, p: Purpose)
    requires Accepted(run) && i < |run|
    ensures SetOk(run[i]) && p in run[i] && KeyringOk(run[i][p])
  {
    PurposesComplete(p);
    if i > 0 {
      assert ClassifySet(Some(run[i - 1]), run[i]).Classified?;
    }
  }

  lemma RunMoves(run: seq<KeyringSet>, i: nat, p: Purpose)
    requires Accepted(run) && 1 <= i < |run|
    ensures p in run[i - 1] && p in run[i] && KeyringOk(run[i - 1][p]) && KeyringOk(run[i][p])
    ensures Moves(run[i - 1][p], run[i][p])
  {
    hide ClassifySet, Classify, KeyringOk, PurposeOk, Held;
    RunOk(run, i - 1, p);
    RunOk(run, i, p);
    PurposesComplete(p);
    ChangesOfPurposes(run[i - 1], run[i]);
    assert ClassifySet(Some(run[i - 1]), run[i]).Classified?;
    ClassifyExactly(run[i - 1][p], run[i][p]);
    assert Classify(Some(run[i - 1][p]), run[i][p]).Some?;
  }

  /** At most one purpose changes in a step, and it is the one the step reports. */
  lemma OnePurposePerStep(run: seq<KeyringSet>, i: nat, p: Purpose)
    requires Accepted(run) && 1 <= i < |run|
    ensures p in run[i - 1] && p in run[i]
    ensures SameKeyring(run[i - 1][p], run[i][p]) <==> p !in ClassifySet(Some(run[i - 1]), run[i]).purposes
    ensures |ClassifySet(Some(run[i - 1]), run[i]).purposes| <= 1
  {
    hide ClassifySet, Classify, KeyringOk, PurposeOk, Held;
    RunOk(run, i - 1, p);
    RunOk(run, i, p);
    PurposesComplete(p);
    ChangesOfPurposes(run[i - 1], run[i]);
    assert ClassifySet(Some(run[i - 1]), run[i]).Classified?;
    ClassifyExactly(run[i - 1][p], run[i][p]);
  }

  /** What was current before a step still resolves after it, to the same resource. */
  lemma CurrentStaysResolvable(run: seq<KeyringSet>, i: nat, p: Purpose, r: Reference)
    requires Accepted(run) && 1 <= i < |run| && p in run[i - 1] && Current(run[i - 1][p], r)
    ensures p in run[i] && Resolve(run[i][p].versions, run[i - 1][p].current) == Some(r)
  {
    hide KeyringOk, Resolve;
    RunMoves(run, i, p);
    ResolveExactly(run[i][p], r);
  }

  /** The step after which a purpose began to hold a reference it did not hold at first. */
  ghost predicate AddedAt(run: seq<KeyringSet>, j: nat, p: Purpose, r: Reference) {
    1 <= j < |run| && p in run[j - 1] && p in run[j] && Adds(run[j - 1][p], run[j][p], r)
  }

  lemma {:induction false} HeldSince(run: seq<KeyringSet>, i: nat, p: Purpose, r: Reference)
    requires Accepted(run) && i < |run| && p in run[i] && r in Held(run[i][p])
    ensures (p in run[0] && r in Held(run[0][p])) || exists j: nat :: j <= i && AddedAt(run, j, p, r)
  {
    hide KeyringOk, Held;
    if i > 0 {
      RunMoves(run, i, p);
      if r in Held(run[i - 1][p]) {
        HeldSince(run, i - 1, p, r);
      } else {
        assert AddedAt(run, i, p, r);
      }
    }
  }

  /**
   * What becomes current in a step was held before it: it was the first version of all, or it was
   * added in a strictly earlier step, which left the current version alone.
   */
  lemma CurrentWasAddedEarlier(run: seq<KeyringSet>, i: nat, p: Purpose, r: Reference)
    requires Accepted(run) && 1 <= i < |run|
    requires p in run[i - 1] && p in run[i] && Current(run[i][p], r) && run[i][p].current != run[i - 1][p].current
    ensures r in Held(run[i - 1][p])
    ensures Current(run[0][p], r) || exists j: nat :: j < i && AddedAt(run, j, p, r)
  {
    hide KeyringOk, Held;
    RunMoves(run, i, p);
    HeldSince(run, i - 1, p, r);
    if p in run[0] && r in Held(run[0][p]) {
      FirstHoldsCurrent(run, p, r);
    }
  }

  lemma FirstHoldsCurrent(run: seq<KeyringSet>, p: Purpose, r: Reference)
    requires Accepted(run) && p in run[0] && r in Held(run[0][p])
    ensures Current(run[0][p], r)
  {
    PurposesComplete(p);
    assert Classify(None, run[0][p]).Some?;
  }

  lemma MoveKeepsLowest(a: Keyring, b: Keyring)
    requires KeyringOk(a) && KeyringOk(b) && Moves(a, b)
    ensures Lowest(a) <= Lowest(b) && a.versions[0].base == b.versions[0].base
  {
    HeldShape(a);
    HeldShape(b);
    hide KeyringOk, Lowest, Held;
    var x :| x in Held(a) && x.version == Lowest(a);
    var y :| y in Held(b) && y.version == Lowest(b);
    if r :| Adds(a, b, r) {
      assert x in Held(b);
    } else if r :| Drops(a, b, r) {
      assert y in Held(a);
    } else {
      assert x in Held(b) && y in Held(a);
    }
  }

  /** The lowest resource number a purpose retains never decreases, and its secret never moves. */
  lemma {:induction false} LowestNeverDecreases(run: seq<KeyringSet>, i: nat, j: nat, p: Purpose)
    requires Accepted(run) && i <= j < |run|
    ensures p in run[i] && p in run[j] && KeyringOk(run[i][p]) && KeyringOk(run[j][p])
    ensures Lowest(run[i][p]) <= Lowest(run[j][p])
    ensures run[i][p].versions[0].base == run[j][p].versions[0].base
    decreases j
  {
    hide KeyringOk, Lowest, Moves, ClassifySet;
    RunOk(run, j, p);
    if i < j {
      LowestNeverDecreases(run, i, j - 1, p);
      RunMoves(run, j, p);
      MoveKeepsLowest(run[j - 1][p], run[j][p]);
    }
  }

  /** A resource number below what a purpose retains never comes back. */
  lemma RetiredBelowNeverReturns(run: seq<KeyringSet>, i: nat, j: nat, p: Purpose, r: Reference)
    requires Accepted(run) && i <= j < |run| && p in run[i] && p in run[j] && KeyringOk(run[i][p])
    requires r.version < Lowest(run[i][p])
    ensures r !in Held(run[j][p])
  {
    LowestNeverDecreases(run, i, j, p);
    HeldShape(run[j][p]);
  }

  /** Within a step a logical version kept is bound to the resource it had. */
  lemma BindingKept(run: seq<KeyringSet>, i: nat, p: Purpose, logical: string)
    requires Accepted(run) && 1 <= i < |run| && p in run[i - 1] && p in run[i]
    requires Resolve(run[i - 1][p].versions, logical).Some? && Resolve(run[i][p].versions, logical).Some?
    ensures Resolve(run[i - 1][p].versions, logical) == Resolve(run[i][p].versions, logical)
  {
    var a, b := run[i - 1][p], run[i][p];
    RunMoves(run, i, p);
    ResolveHeld(a.versions, logical);
    ResolveHeld(b.versions, logical);
    var x, y := Resolve(a.versions, logical).value, Resolve(b.versions, logical).value;
    assert x in Held(a) && y in Held(b);
    hide Resolve;
    if y in Held(a) {
      assert x == y;
    }
  }
}
