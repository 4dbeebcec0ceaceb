/** Well-formed byte strings are the UTF-8 of code points (RFC 3629, section 3), and controls are seen as code points. */
module Utf8Text {
  import opened Wire
  import opened Names

  /** A Unicode scalar value: a code point that is not a surrogate. */
  type Scalar = c: int | 0 <= c <= 0x10_ffff && !(0xd800 <= c <= 0xdfff)

  predicate IsScalar(c: int) { 0 <= c <= 0x10_ffff && !(0xd800 <= c <= 0xdfff) }

  /** All but the low six bits. */
  function Upper(c: nat): nat { c / 0x40 }

  /** The low six bits, as a byte that continues a sequence. */
  function Continuation(c: nat): byte { 0x80 + c % 0x40 }

  function EncodeScalar(c: Scalar): bytes {
    if c < 0x80 then [c]
    else if c < 0x800 then [0xc0 + Upper(c), Continuation(c)]
    else if c < 0x1_0000 then [0xe0 + Upper(Upper(c)), Continuation(Upper(c)), Continuation(c)]
    else [0xf0 + Upper(Upper(Upper(c))), Continuation(Upper(Upper(c))), Continuation(Upper(c)), Continuation(c)]
  }

  function EncodeText(cs: seq<Scalar>): bytes {
    if cs == [] then [] else EncodeScalar(cs[0]) + EncodeText(cs[1..])
  }

  /** General category Cc, which unicode.IsControl tests. */
  predicate Control(c: Scalar) { c <= 0x1f || 0x7f <= c <= 0x9f }

  // ---------------------------------------------------------------- one sequence

  lemma ScalarRead(c: Scalar, rest: bytes)
    ensures SequenceLength(EncodeScalar(c) + rest, 0) == |EncodeScalar(c)| > 0
  {
  }

  /** Six more bits below `high`. */
  function Join(high: int, tail: int): int { high * 0x40 + (tail - 0x80) }

  lemma JoinSplits(high: nat, tail: byte)
    requires 0x80 <= tail <= 0xbf
    ensures 0x40 * high <= Join(high, tail) < 0x40 * high + 0x40
    ensures Upper(Join(high, tail)) == high && Continuation(Join(high, tail)) == tail
  {
  }

  lemma SplitJoins(c: nat)
    ensures Join(Upper(c), Continuation(c)) == c
  {
  }

  /** The number a sequence spells, by its length. */
  function Spelled(s: seq<int>): int {
    match |s|
    case 1 => s[0]
    case 2 => Join(s[0] - 0xc0, s[1])
    case 3 => Join(Join(s[0] - 0xe0, s[1]), s[2])
    case 4 => Join(Join(Join(s[0] - 0xf0, s[1]), s[2]), s[3])
    case _ => 0
  }

  lemma ScalarSpelled(c: Scalar)
    ensures Spelled(EncodeScalar(c)) == c
  {
    hide Join, Upper, Continuation;
    SplitJoins(c);
    SplitJoins(Upper(c));
    SplitJoins(Upper(Upper(c)));
  }

  lemma TwoBytes(a: byte, b: byte)
    requires 0xc2 <= a <= 0xdf && 0x80 <= b <= 0xbf
    ensures IsScalar(Spelled([a, b])) && EncodeScalar(Spelled([a, b])) == [a, b]
  {
    hide Join, Upper, Continuation;
    JoinSplits(a - 0xc0, b);
  }

  lemma ThreeBytes(a: byte, b: byte, d: byte)
    requires 0xe0 <= a <= 0xef && 0x80 <= b <= 0xbf && 0x80 <= d <= 0xbf
    requires (a == 0xe0 ==> b >= 0xa0) && (a == 0xed ==> b <= 0x9f)
    ensures IsScalar(Spelled([a, b, d])) && EncodeScalar(Spelled([a, b, d])) == [a, b, d]
  {
    var h := Join(a - 0xe0, b);
    assert 0x20 <= h < 0x400 && !(0x360 <= h < 0x380);
    hide Join, Upper, Continuation;
    JoinSplits(a - 0xe0, b);
    JoinSplits(h, d);
  }

  lemma FourBytes(a: byte, b: byte, d: byte, e: byte)
    requires 0xf0 <= a <= 0xf4 && 0x80 <= b <= 0xbf && 0x80 <= d <= 0xbf && 0x80 <= e <= 0xbf
    requires (a == 0xf0 ==> b >= 0x90) && (a == 0xf4 ==> b <= 0x8f)
    ensures IsScalar(Spelled([a, b, d, e])) && EncodeScalar(Spelled([a, b, d, e])) == [a, b, d, e]
  {
    var h := Join(a - 0xf0, b);
    assert 0x10 <= h < 0x110;
    hide Join, Upper, Continuation;
    JoinSplits(a - 0xf0, b);
    JoinSplits(h, d);
    JoinSplits(Join(h, d), e);
  }

  /** Where a sequence starts, the code point it stands for. */
  lemma ScalarAt(input: bytes) returns (c: Scalar)
    requires input != [] && SequenceLength(input, 0) > 0
    ensures EncodeScalar(c) == input[..SequenceLength(input, 0)]
  {
    var n := SequenceLength(input, 0);
    if n == 1 {
      c := input[0];
    } else {
      hide Spelled, EncodeScalar;
      assert forall j :: 1 <= j < n ==> 0x80 <= input[j] <= 0xbf;
      if n == 2 {
        TwoBytes(input[0], input[1]);
        c := Spelled([input[0], input[1]]);
      } else if n == 3 {
        ThreeBytes(input[0], input[1], input[2]);
        c := Spelled([input[0], input[1], input[2]]);
      } else {
        FourBytes(input[0], input[1], input[2], input[3]);
        c := Spelled([input[0], input[1], input[2], input[3]]);
      }
    }
  }

  lemma SequenceShift(a: bytes, b: bytes, i: nat)
    requires i < |b|
    ensures SequenceLength(a + b, |a| + i) == SequenceLength(b, i)
  {
    TailShift(a, b, i + 1, 1);
    TailShift(a, b, i + 1, 2);
    TailShift(a, b, i + 1, 3);
  }

  lemma TailShift(a: bytes, b: bytes, i: nat, count: nat)
    ensures Tail(a + b, |a| + i, count) <==> Tail(b, i, count)
  {
    var s := a + b;
    if i + count <= |b| {
      assert forall j :: i <= j < i + count ==> s[|a| + j] == b[j];
      if Tail(s, |a| + i, count) {
        forall j | i <= j < i + count ensures 0x80 <= b[j] <= 0xbf {
          assert 0x80 <= s[|a| + j] <= 0xbf;
        }
      }
      if Tail(b, i, count) {
        forall j | |a| + i <= j < |a| + i + count ensures 0x80 <= s[j] <= 0xbf {
          assert s[j] == b[j - |a|];
        }
      }
    }
  }

  lemma {:induction false} ValidShift(a: bytes, b: bytes, i: nat)
    requires i <= |b|
    ensures ValidFrom(a + b, |a| + i) <==> ValidFrom(b, i)
    decreases |b| - i
  {
    hide SequenceLength;
    if i < |b| {
      SequenceShift(a, b, i);
      var n := SequenceLength(b, i);
      if n > 0 {
        ValidShift(a, b, i + n);
        assert |a| + (i + n) == |a| + i + n;
      }
    }
  }

  // ---------------------------------------------------------------- whole strings

  lemma {:induction false} TextIsValid(cs: seq<Scalar>)
    ensures ValidUtf8(EncodeText(cs))
  {
    hide SequenceLength, EncodeScalar;
    if cs != [] {
      var a, b := EncodeScalar(cs[0]), EncodeText(cs[1..]);
      ScalarRead(cs[0], b);
      TextIsValid(cs[1..]);
      ValidShift(a, b, 0);
    }
  }

  lemma {:induction false} ValidIsText(s: bytes) returns (cs: seq<Scalar>)
    requires ValidUtf8(s)
    ensures s == EncodeText(cs)
  {
    hide SequenceLength, EncodeScalar;
    if s == [] {
      return [];
    }
    var c := ScalarAt(s);
    var a, b := EncodeScalar(c), s[SequenceLength(s, 0)..];
    assert s == a + b;
    ValidShift(a, b, 0);
    var rest := ValidIsText(b);
    cs := [c] + rest;
    assert cs[1..] == rest;
  }

  /** The byte ranges accepted are exactly the UTF-8 of sequences of code points: no surrogate, nothing overlong. */
  lemma ValidExactly(s: bytes)
    ensures ValidUtf8(s) <==> exists cs: seq<Scalar> :: s == EncodeText(cs)
  {
    if ValidUtf8(s) {
      var cs := ValidIsText(s);
    }
    if exists cs: seq<Scalar> :: s == EncodeText(cs) {
      var cs: seq<Scalar> :| s == EncodeText(cs);
      TextIsValid(cs);
    }
  }

  lemma ScalarInjective(c: Scalar, d: Scalar)
    requires EncodeScalar(c) == EncodeScalar(d)
    ensures c == d
  {
    hide EncodeScalar;
    ScalarSpelled(c);
    ScalarSpelled(d);
  }

  /** A string is the UTF-8 of one sequence of code points only. */
  lemma {:induction false} TextInjective(cs: seq<Scalar>, ds: seq<Scalar>)
    requires EncodeText(cs) == EncodeText(ds)
    ensures cs == ds
  {
    hide EncodeScalar, SequenceLength;
    if cs != [] {
      ScalarRead(cs[0], EncodeText(cs[1..]));
    }
    if ds != [] {
      ScalarRead(ds[0], EncodeText(ds[1..]));
    }
    if cs != [] && ds != [] {
      var n := |EncodeScalar(cs[0])|;
      assert EncodeScalar(cs[0]) == EncodeText(cs)[..n] && EncodeText(cs[1..]) == EncodeText(cs)[n..];
      assert EncodeScalar(ds[0]) == EncodeText(ds)[..n] && EncodeText(ds[1..]) == EncodeText(ds)[n..];
      ScalarInjective(cs[0], ds[0]);
      TextInjective(cs[1..], ds[1..]);
      assert cs == [cs[0]] + cs[1..] && ds == [ds[0]] + ds[1..];
    }
  }

  // ---------------------------------------------------------------- control characters

  lemma ControlIn(c: Scalar)
    ensures ContainsControl(EncodeScalar(c)) <==> Control(c)
    ensures EncodeScalar(c) != [] && EncodeScalar(c)[|EncodeScalar(c)| - 1] != 0xc2
  {
    var s := EncodeScalar(c);
    if Control(c) {
      assert ControlAt(s, 0);
    }
  }

  lemma ControlSplit(a: bytes, b: bytes)
    requires a != [] && a[|a| - 1] != 0xc2
    ensures ContainsControl(a + b) <==> ContainsControl(a) || ContainsControl(b)
  {
    var s := a + b;
    if ContainsControl(s) {
      var i :| 0 <= i < |s| && ControlAt(s, i);
      assert if i < |a| then ControlAt(a, i) else ControlAt(b, i - |a|);
    }
    if ContainsControl(a) {
      var i :| 0 <= i < |a| && ControlAt(a, i);
      assert ControlAt(s, i);
    }
    if ContainsControl(b) {
      var i :| 0 <= i < |b| && ControlAt(b, i);
      assert ControlAt(s, |a| + i);
    }
  }

  /** The byte test for control characters sees exactly the control code points. */
  lemma {:induction false} ControlsExactly(cs: seq<Scalar>)
    ensures ContainsControl(EncodeText(cs)) <==> exists i :: 0 <= i < |cs| && Control(cs[i])
  {
    hide ContainsControl, EncodeScalar, Control;
    if cs == [] {
      NoControl();
    } else {
      ControlsExactly(cs[1..]);
      ControlIn(cs[0]);
      ControlSplit(EncodeScalar(cs[0]), EncodeText(cs[1..]));
      if exists i :: 0 <= i < |cs| && Control(cs[i]) {
        var i :| 0 <= i < |cs| && Control(cs[i]);
        assert i > 0 ==> Control(cs[1..][i - 1]);
      }
      if exists i :: 0 <= i < |cs[1..]| && Control(cs[1..][i]) {
        var i :| 0 <= i < |cs[1..]| && Control(cs[1..][i]);
        assert Control(cs[i + 1]);
      }
    }
  }

  lemma NoControl()
    ensures !ContainsControl([])
  {
  }
}
