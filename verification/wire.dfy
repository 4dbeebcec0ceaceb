/** Bytes on the wire: big-endian integers, the order of byte strings, UTF-8 well-formedness. */
module Wire {
  type byte = x: int | 0 <= x < 0x100
  type bytes = seq<byte>
  type int64 = x: int | -0x8000_0000_0000_0000 <= x < 0x8000_0000_0000_0000
  type uint64 = x: int | 0 <= x < 0x1_0000_0000_0000_0000

  /** `piece` occupies the bytes of `input` that start at `offset`. */
  predicate At(input: bytes, offset: int, piece: bytes) {
    0 <= offset && offset + |piece| <= |input| && input[offset..offset + |piece|] == piece
  }

  lemma AtSplit(input: bytes, offset: int, left: bytes, right: bytes)
    ensures At(input, offset, left + right) <==> At(input, offset, left) && At(input, offset + |left|, right)
  {
    var n, m := |left|, |right|;
    if 0 <= offset && offset + n + m <= |input| {
      assert input[offset..offset + n + m] == input[offset..offset + n] + input[offset + n..offset + n + m];
      if At(input, offset, left + right) {
        assert (left + right)[..n] == left && (left + right)[n..] == right;
        assert input[offset..offset + n] == (left + right)[..n];
        assert input[offset + n..offset + n + m] == (left + right)[n..];
      }
    }
  }

  // ---------------------------------------------------------------- big-endian integers

  function Pow256(width: nat): (p: nat)
    ensures p > 0
  {
    if width == 0 then 1 else 256 * Pow256(width - 1)
  }

  lemma Pow256Values()
    ensures Pow256(1) == 0x100 && Pow256(2) == 0x1_0000
    ensures Pow256(4) == 0x1_0000_0000 && Pow256(8) == 0x1_0000_0000_0000_0000
  {
    assert Pow256(3) == 0x100_0000;
    assert Pow256(5) == 0x100_0000_0000;
    assert Pow256(6) == 0x1_0000_0000_0000;
    assert Pow256(7) == 0x100_0000_0000_0000;
  }

  /** The low `width` bytes of `n`, most significant first. */
  function ToBE(n: nat, width: nat): (s: bytes)
    ensures |s| == width
  {
    if width == 0 then [] else ToBE(n / 256, width - 1) + [n % 256]
  }

  function FromBE(s: bytes): nat {
    if s == [] then 0 else 256 * FromBE(s[..|s| - 1]) + s[|s| - 1]
  }

  lemma {:induction false} FromBEBound(s: bytes)
    ensures FromBE(s) < Pow256(|s|)
  {
    if s != [] {
      FromBEBound(s[..|s| - 1]);
    }
  }

  lemma {:induction false} FromToBE(n: nat, width: nat)
    requires n < Pow256(width)
    ensures FromBE(ToBE(n, width)) == n
  {
    if width > 0 {
      FromToBE(n / 256, width - 1);
      assert ToBE(n, width)[..width - 1] == ToBE(n / 256, width - 1);
    }
  }

  lemma {:induction false} ToFromBE(s: bytes)
    ensures ToBE(FromBE(s), |s|) == s
  {
    if s != [] {
      ToFromBE(s[..|s| - 1]);
    }
  }

  /** Most significant first: what stands before `width` more bytes weighs 256 to that power. */
  lemma {:induction false} BigEndian(a: bytes, b: bytes)
    ensures FromBE(a + b) == FromBE(a) * Pow256(|b|) + FromBE(b)
  {
    if b == [] {
      assert a + b == a;
    } else {
      var c, last := b[..|b| - 1], b[|b| - 1];
      BigEndian(a, c);
      assert (a + b)[..|a + b| - 1] == a + c;
      Weigh(FromBE(a), Pow256(|c|));
    }
  }

  lemma Weigh(n: nat, p: nat)
    ensures 256 * (n * p) == n * (256 * p)
  {
  }

  // ---------------------------------------------------------------- byte-string order

  /** The sign convention of Go's bytes.Compare. */
  function Compare(a: bytes, b: bytes): int {
    if a == [] then (if b == [] then 0 else -1)
    else if b == [] then 1
    else if a[0] != b[0] then (if a[0] < b[0] then -1 else 1)
    else Compare(a[1..], b[1..])
  }

  predicate Less(a: bytes, b: bytes) {
    Compare(a, b) < 0
  }

  /** `a` and `b` agree on their first `i` bytes, and there `a` ends or has the smaller byte. */
  predicate BelowFrom(a: bytes, b: bytes, i: nat) {
    i <= |a| && i < |b| && a[..i] == b[..i] && (i == |a| || a[i] < b[i])
  }

  /** Lexicographic order of unsigned bytes, a prefix before what extends it. */
  ghost predicate Precedes(a: bytes, b: bytes) { exists i: nat :: BelowFrom(a, b, i) }

  lemma BelowShift(a: bytes, b: bytes, i: nat)
    requires a != [] && b != [] && a[0] == b[0]
    ensures BelowFrom(a, b, i + 1) <==> BelowFrom(a[1..], b[1..], i)
  {
    if i < |a| && i + 1 < |b| {
      assert a[..i + 1] == [a[0]] + a[1..][..i] && b[..i + 1] == [b[0]] + b[1..][..i];
    }
  }

  /** The comparison is that order. */
  lemma {:induction false} LessExactly(a: bytes, b: bytes)
    ensures Less(a, b) <==> Precedes(a, b)
  {
    if a != [] && b != [] && a[0] == b[0] {
      LessExactly(a[1..], b[1..]);
      forall i: nat ensures BelowFrom(a, b, i + 1) <==> BelowFrom(a[1..], b[1..], i) {
        BelowShift(a, b, i);
      }
      if Precedes(a, b) {
        var i: nat :| BelowFrom(a, b, i);
        assert i > 0;
        assert BelowFrom(a[1..], b[1..], i - 1);
      }
      if Precedes(a[1..], b[1..]) {
        var i: nat :| BelowFrom(a[1..], b[1..], i);
        assert BelowFrom(a, b, i + 1);
      }
    } else if Less(a, b) {
      assert BelowFrom(a, b, 0);
    } else if Precedes(a, b) {
      var i: nat :| BelowFrom(a, b, i);
      SameStart(a, b, i);
    }
  }

  lemma SameStart(a: bytes, b: bytes, i: nat)
    requires BelowFrom(a, b, i)
    ensures b != [] && (i > 0 ==> a != [] && a[0] == b[0])
  {
    if i > 0 {
      assert a[..i][0] == b[..i][0];
    }
  }

  lemma {:induction false} CompareEqual(a: bytes, b: bytes)
    ensures Compare(a, b) == 0 <==> a == b
  {
    if a != [] && b != [] && a[0] == b[0] {
      CompareEqual(a[1..], b[1..]);
      assert a == [a[0]] + a[1..] && b == [b[0]] + b[1..];
    }
  }

  lemma {:induction false} CompareSwap(a: bytes, b: bytes)
    ensures Less(a, b) <==> Compare(b, a) > 0
  {
    if a != [] && b != [] && a[0] == b[0] {
      CompareSwap(a[1..], b[1..]);
    }
  }

  lemma {:induction false} LessTransitive(a: bytes, b: bytes, c: bytes)
    requires Less(a, b) && Less(b, c)
    ensures Less(a, c)
  {
    if a != [] && a[0] == b[0] == c[0] {
      LessTransitive(a[1..], b[1..], c[1..]);
    }
  }

  lemma LessTotal(a: bytes, b: bytes)
    ensures !Less(a, a)
    ensures a == b || Less(a, b) || Less(b, a)
    ensures !(Less(a, b) && Less(b, a))
  {
    CompareEqual(a, b);
    CompareEqual(a, a);
    CompareSwap(a, b);
    CompareSwap(b, a);
  }

  ghost predicate Sorted(keys: seq<bytes>) {
    forall i, j :: 0 <= i < j < |keys| ==> Less(keys[i], keys[j])
  }

  ghost predicate Elements(keys: seq<bytes>, s: set<bytes>) {
    forall k :: k in s <==> k in keys
  }

  lemma MinimumExists(s: set<bytes>) returns (least: bytes)
    requires s != {}
    ensures least in s && forall k :: k in s ==> k == least || Less(least, k)
  {
    var some :| some in s;
    if s == {some} {
      return some;
    }
    var rest := s - {some};
    var below := MinimumExists(rest);
    LessTotal(some, below);
    if Less(some, below) {
      least := some;
      forall k | k in s ensures k == least || Less(least, k) {
        if k in rest && k != below {
          LessTransitive(some, below, k);
        }
      }
    } else {
      least := below;
    }
  }

  /** The elements of `s` in increasing order. */
  ghost function SortedKeys(s: set<bytes>): (keys: seq<bytes>)
    ensures Sorted(keys) && Elements(keys, s) && |keys| == |s|
  {
    if s == {} then []
    else
      var k := Least(s);
      var rest := SortedKeys(s - {k});
      assert forall j :: j in rest ==> j in s - {k};
      [k] + rest
  }

  ghost function Least(s: set<bytes>): (k: bytes)
    requires s != {}
    ensures k in s && forall j :: j in s ==> j == k || Less(k, j)
  {
    assert exists k :: k in s && forall j :: j in s ==> j == k || Less(k, j) by {
      var least := MinimumExists(s);
    }
    var k :| k in s && forall j :: j in s ==> j == k || Less(k, j);
    k
  }

  /** Sorting has one answer: an increasing listing of a set is `SortedKeys` of it. */
  lemma {:induction false} SortedUnique(a: seq<bytes>, b: seq<bytes>)
    requires Sorted(a) && Sorted(b)
    requires forall k :: k in a <==> k in b
    ensures a == b
  {
    assert a != [] ==> a[0] in b;
    assert b != [] ==> b[0] in a;
    if a != [] && b != [] {
      var i :| 0 <= i < |b| && b[i] == a[0];
      var j :| 0 <= j < |a| && a[j] == b[0];
      LessTotal(a[0], b[0]);
      assert a[0] == b[0];
      forall k ensures k in a[1..] <==> k in b[1..] {
        TailElements(a, k);
        TailElements(b, k);
      }
      SortedUnique(a[1..], b[1..]);
      assert a == [a[0]] + a[1..] && b == [b[0]] + b[1..];
    }
  }

  lemma TailElements(a: seq<bytes>, k: bytes)
    requires Sorted(a) && a != []
    ensures k in a[1..] <==> k in a && k != a[0]
  {
    LessTotal(k, k);
    if k in a && k != a[0] {
      var i :| 0 <= i < |a| && a[i] == k;
      assert a[1..][i - 1] == k;
    }
    if k in a[1..] {
      var i :| 0 <= i < |a[1..]| && a[1..][i] == k;
      assert a[i + 1] == k && Less(a[0], a[i + 1]);
    }
  }

  // ---------------------------------------------------------------- UTF-8 (RFC 3629, section 4)

  predicate Tail(input: bytes, i: nat, count: nat) {
    i + count <= |input| && forall j :: i <= j < i + count ==> 0x80 <= input[j] <= 0xbf
  }

  /** The length of the UTF-8 sequence at `i`, or 0 when no well-formed one starts there. */
  function SequenceLength(input: bytes, i: nat): (n: nat)
    requires i < |input|
    ensures n > 0 ==> i + n <= |input|
  {
    var first := input[i];
    if first <= 0x7f then 1
    else if 0xc2 <= first <= 0xdf then (if Tail(input, i + 1, 1) then 2 else 0)
    else if 0xe0 <= first <= 0xef then
      (if !Tail(input, i + 1, 2) then 0
       else if first == 0xe0 && input[i + 1] < 0xa0 then 0
       else if first == 0xed && input[i + 1] > 0x9f then 0
       else 3)
    else if 0xf0 <= first <= 0xf4 then
      (if !Tail(input, i + 1, 3) then 0
       else if first == 0xf0 && input[i + 1] < 0x90 then 0
       else if first == 0xf4 && input[i + 1] > 0x8f then 0
       else 4)
    else 0
  }

  predicate ValidFrom(input: bytes, i: nat)
    requires i <= |input|
    decreases |input| - i
  {
    i == |input| || (SequenceLength(input, i) > 0 && ValidFrom(input, i + SequenceLength(input, i)))
  }

  predicate ValidUtf8(input: bytes) {
    ValidFrom(input, 0)
  }
}
