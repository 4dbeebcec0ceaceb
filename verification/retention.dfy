/** Which of several stored records is the oldest, and how the size of a collection changes. */
module Retention {
  import opened Wire
  import opened Options

  // ---------------------------------------------------------------- sizes

  lemma {:induction false} SubsetSize<T>(a: set<T>, b: set<T>)
    requires a <= b
    ensures |a| <= |b|
    decreases |a|
  {
    if a != {} {
      var x :| x in a;
      SubsetSize(a - {x}, b - {x});
    }
  }

  lemma OneLess<K, V>(m: map<K, V>, k: K)
    requires k in m
    ensures |m - {k}| == |m| - 1
  {
    assert (m - {k}).Keys == m.Keys - {k};
  }

  lemma OneMore<K, V>(m: map<K, V>, k: K, v: V)
    requires k !in m
    ensures |m[k := v]| == |m| + 1
  {
    assert m[k := v].Keys == m.Keys + {k};
  }

  // ---------------------------------------------------------------- age

  /** What records are ordered by: creation time, then identifier. */
  datatype Stamp = Stamp(createdAt: int, id: bytes)

  predicate Before(a: Stamp, b: Stamp) {
    a.createdAt < b.createdAt || (a.createdAt == b.createdAt && Less(a.id, b.id))
  }

  ghost predicate IsOldest(stamps: set<Stamp>, s: Stamp) {
    s in stamps && forall other :: other in stamps && other != s ==> Before(s, other)
  }

  ghost function Oldest(stamps: set<Stamp>): Option<Stamp> {
    if exists s :: IsOldest(stamps, s) then var s :| IsOldest(stamps, s); Some(s) else None
  }

  lemma BeforeTotal(a: Stamp, b: Stamp)
    requires a != b
    ensures Before(a, b) != Before(b, a)
  {
    if a.id != b.id {
      LessTotal(a.id, b.id);
    }
    CompareSwap(a.id, b.id);
    CompareSwap(b.id, a.id);
  }

  lemma BeforeTransitive(a: Stamp, b: Stamp, c: Stamp)
    requires Before(a, b) && Before(b, c)
    ensures Before(a, c)
  {
    if Less(a.id, b.id) && Less(b.id, c.id) {
      LessTransitive(a.id, b.id, c.id);
    }
  }

  lemma {:induction false} OldestExists(stamps: set<Stamp>) returns (oldest: Stamp)
    requires stamps != {}
    ensures IsOldest(stamps, oldest)
    decreases |stamps|
  {
    hide Before;
    var some :| some in stamps;
    if stamps == {some} {
      oldest := some;
    } else {
      var rest := stamps - {some};
      assert stamps == rest + {some};
      var first := OldestExists(rest);
      BeforeTotal(some, first);
      oldest := if Before(some, first) then some else first;
      forall other | other in stamps && other != oldest ensures Before(oldest, other) {
        if oldest == some && other != first {
          BeforeTransitive(some, first, other);
        }
      }
    }
  }

  lemma OldestUnique(stamps: set<Stamp>, a: Stamp, b: Stamp)
    requires IsOldest(stamps, a) && IsOldest(stamps, b)
    ensures a == b
  {
    if a != b {
      BeforeTotal(a, b);
    }
  }

  /** Something is oldest as soon as there is anything. */
  lemma OldestFound(stamps: set<Stamp>)
    ensures Oldest(stamps).Some? <==> stamps != {}
    ensures stamps != {} ==> IsOldest(stamps, Oldest(stamps).value)
  {
    hide Before;
    if stamps != {} {
      var s := OldestExists(stamps);
    }
  }

  /** The oldest has the least creation time, and among those of one time the identifier that precedes the others byte by byte. */
  lemma OldestExactly(stamps: set<Stamp>, s: Stamp)
    ensures Oldest(stamps) == Some(s) <==>
      && s in stamps
      && forall other :: other in stamps && other != s ==>
        s.createdAt < other.createdAt || (s.createdAt == other.createdAt && Precedes(s.id, other.id))
  {
    forall other: Stamp ensures Less(s.id, other.id) <==> Precedes(s.id, other.id) {
      LessExactly(s.id, other.id);
    }
    hide Less, Precedes, Oldest;
    OldestFound(stamps);
    if IsOldest(stamps, s) {
      OldestUnique(stamps, s, Oldest(stamps).value);
    }
  }

  /** The first record of the sorted list. */
  method FindOldest(stamps: set<Stamp>) returns (oldest: Option<Stamp>)
    ensures oldest == Oldest(stamps)
  {
    hide Before, Oldest;
    var left := stamps;
    oldest := None;
    while left != {}
      invariant left <= stamps
      invariant oldest.Some? ==> oldest.value in stamps && oldest.value !in left
      invariant forall t :: t in stamps && t !in left ==> oldest.Some? && (t == oldest.value || Before(oldest.value, t))
      decreases left
    {
      var s :| s in left;
      left := left - {s};
      if oldest == None {
        oldest := Some(s);
      } else {
        BeforeTotal(s, oldest.value);
        if Before(s, oldest.value) {
          forall other | other in stamps && other !in left && other != s ensures Before(s, other) {
            if other != oldest.value {
              BeforeTransitive(s, oldest.value, other);
            }
          }
          oldest := Some(s);
        }
      }
    }
    OldestFound(stamps);
    if oldest.Some? {
      assert IsOldest(stamps, oldest.value);
      OldestUnique(stamps, oldest.value, Oldest(stamps).value);
    }
  }
}
