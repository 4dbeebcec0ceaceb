/** The CRC-32C checksum of a secret payload, and the errors it is certain to catch. */
module Crc32c {
  type octet = bv8
  type octets = seq<bv8>

  const POLYNOMIAL: bv32 := 0x82f6_3b78

  // ---------------------------------------------------------------- registers

  function Xor(x: bv32, y: bv32): bv32 { x ^ y }

  predicate Odd(x: bv32) { x & 1 == 1 }

  function Half(x: bv32): bv32 { x >> 1 }

  /** One bit: shift right, and subtract the reflected polynomial when a one falls off. */
  function Shift(x: bv32): bv32 { if Odd(x) then Xor(Half(x), POLYNOMIAL) else Half(x) }

  function Shifts(x: bv32, n: nat): bv32 {
    if n == 0 then x else Shift(Shifts(x, n - 1))
  }

  function Widen(b: octet): bv32 { b as bv32 }

  /** One byte. */
  function Feed(x: bv32, b: octet): bv32 { Shifts(Xor(x, Widen(b)), 8) }

  function FeedAll(x: bv32, data: octets): bv32 {
    if data == [] then x else Feed(FeedAll(x, data[..|data| - 1]), data[|data| - 1])
  }

  const START: bv32 := 0xffff_ffff

  function Checksum(data: octets): bv32 { !FeedAll(START, data) }

  // ---------------------------------------------------------------- the loops

  /** The loop's branch-free form: the negated low bit is a mask of all ones or of none. */
  function Masked(x: bv32): bv32 { (x >> 1) ^ (POLYNOMIAL & (0 - (x & 1))) }

  lemma MaskedShift(x: bv32)
    ensures Masked(x) == Shift(x)
  {
    if Odd(x) {
      MaskOdd(x, POLYNOMIAL);
    } else {
      MaskEven(x, POLYNOMIAL);
    }
  }

  lemma MaskOdd(x: bv32, p: bv32)
    requires x & 1 == 1
    ensures (x >> 1) ^ (p & (0 - (x & 1))) == (x >> 1) ^ p
  {
  }

  lemma MaskEven(x: bv32, p: bv32)
    requires x & 1 != 1
    ensures (x >> 1) ^ (p & (0 - (x & 1))) == x >> 1
  {
    LowBit(x);
  }

  lemma LowBit(x: bv32)
    ensures x & 1 == 0 || x & 1 == 1
  {
  }

  method FeedByte(register: bv32, b: octet) returns (checksum: bv32)
    ensures checksum == Feed(register, b)
  {
    hide Shift, Masked, Xor, Widen;
    checksum := Xor(register, Widen(b));
    for bit := 0 to 8
      invariant checksum == Shifts(Xor(register, Widen(b)), bit)
    {
      MaskedShift(checksum);
      checksum := Masked(checksum);
    }
  }

  method Compute(input: octets) returns (result: bv32)
    ensures result == Checksum(input)
  {
    hide Feed;
    var checksum := START;
    for i := 0 to |input|
      invariant checksum == FeedAll(START, input[..i])
    {
      assert input[..i + 1][..i] == input[..i];
      checksum := FeedByte(checksum, input[i]);
    }
    assert input[..|input|] == input;
    result := !checksum;
  }

  // ---------------------------------------------------------------- injectivity

  lemma TopBit(x: bv32)
    ensures Xor(Half(x), POLYNOMIAL) & 0x8000_0000 != 0 && Half(x) & 0x8000_0000 == 0
  {
  }

  lemma XorBack(x: bv32, y: bv32, p: bv32)
    ensures Xor(x, p) == Xor(y, p) ==> x == y
  {
  }

  lemma Rebuild(x: bv32, y: bv32)
    requires Odd(x) == Odd(y) && Half(x) == Half(y)
    ensures x == y
  {
  }

  /** The polynomial's top bit tells an odd register's shift from an even one's. */
  lemma ShiftInjective(x: bv32, y: bv32)
    requires Shift(x) == Shift(y)
    ensures x == y
  {
    hide Odd, Half, Xor;
    TopBit(x);
    TopBit(y);
    XorBack(Half(x), Half(y), POLYNOMIAL);
    Rebuild(x, y);
  }

  lemma {:induction false} ShiftsInjective(x: bv32, y: bv32, n: nat)
    requires Shifts(x, n) == Shifts(y, n)
    ensures x == y
  {
    hide Shift;
    if n > 0 {
      ShiftInjective(Shifts(x, n - 1), Shifts(y, n - 1));
      ShiftsInjective(x, y, n - 1);
    }
  }

  /** Feeding the same bytes never brings two registers together. */
  lemma {:induction false} FeedAllInjective(x: bv32, y: bv32, data: octets)
    requires FeedAll(x, data) == FeedAll(y, data)
    ensures x == y
  {
    hide Shifts, Xor;
    if data != [] {
      var before, last := data[..|data| - 1], data[|data| - 1];
      ShiftsInjective(Xor(FeedAll(x, before), Widen(last)), Xor(FeedAll(y, before), Widen(last)), 8);
      XorBack(FeedAll(x, before), FeedAll(y, before), Widen(last));
      FeedAllInjective(x, y, before);
    }
  }

  lemma {:induction false} FeedAllAppend(x: bv32, a: octets, b: octets)
    ensures FeedAll(x, a + b) == FeedAll(FeedAll(x, a), b)
  {
    hide Feed;
    if b == [] {
      assert a + b == a;
    } else {
      FeedAllAppend(x, a, b[..|b| - 1]);
      assert (a + b)[..|a + b| - 1] == a + b[..|b| - 1];
    }
  }

  // ---------------------------------------------------------------- linearity

  lemma XorHalves(x: bv32, y: bv32)
    ensures Half(Xor(x, y)) == Xor(Half(x), Half(y))
  {
  }

  lemma XorOdd(x: bv32, y: bv32)
    ensures Odd(Xor(x, y)) <==> Odd(x) != Odd(y)
  {
    LowBitXor(x, y);
    LowBit(x);
    LowBit(y);
  }

  lemma LowBitXor(x: bv32, y: bv32)
    ensures Xor(x, y) & 1 == (x & 1) ^ (y & 1)
  {
  }

  lemma XorAssociative(x: bv32, y: bv32, z: bv32)
    ensures Xor(Xor(x, y), z) == Xor(x, Xor(y, z))
  {
  }

  lemma XorCommutes(x: bv32, y: bv32)
    ensures Xor(x, y) == Xor(y, x)
  {
  }

  lemma XorLeft(x: bv32, y: bv32, p: bv32)
    ensures Xor(Xor(x, p), y) == Xor(Xor(x, y), p)
  {
    hide Xor;
    XorAssociative(x, p, y);
    XorCommutes(p, y);
    XorAssociative(x, y, p);
  }

  lemma XorTwice(x: bv32, p: bv32)
    ensures Xor(Xor(x, p), p) == x
  {
  }

  lemma XorCancels(x: bv32, y: bv32, p: bv32)
    ensures Xor(Xor(x, p), Xor(y, p)) == Xor(x, y)
  {
    hide Xor;
    XorLeft(x, Xor(y, p), p);
    XorAssociative(x, y, p);
    XorTwice(Xor(x, y), p);
  }

  lemma ShiftLinear(x: bv32, y: bv32)
    ensures Shift(Xor(x, y)) == Xor(Shift(x), Shift(y))
  {
    hide Odd, Half, Xor;
    XorHalves(x, y);
    XorOdd(x, y);
    XorCancels(Half(x), Half(y), POLYNOMIAL);
    XorLeft(Half(x), Half(y), POLYNOMIAL);
    XorAssociative(Half(x), Half(y), POLYNOMIAL);
  }

  lemma {:induction false} ShiftsLinear(x: bv32, y: bv32, n: nat)
    ensures Shifts(Xor(x, y), n) == Xor(Shifts(x, n), Shifts(y, n))
  {
    hide Shift, Xor;
    if n > 0 {
      ShiftsLinear(x, y, n - 1);
      ShiftLinear(Shifts(x, n - 1), Shifts(y, n - 1));
    }
  }

  lemma {:induction false} ShiftsCompose(x: bv32, m: nat, n: nat)
    ensures Shifts(Shifts(x, m), n) == Shifts(x, m + n)
  {
    hide Shift;
    if n > 0 {
      ShiftsCompose(x, m, n - 1);
    }
  }

  // ---------------------------------------------------------------- four bytes at once

  function Up(z: bv32): bv32 { z << 8 }

  /** Nothing in the top byte. */
  predicate Clear(z: bv32) { z & 0xff00_0000 == 0 }

  /** None of the masked bits is set. */
  predicate Free(x: bv32, mask: bv32) { x & mask == 0 }

  /** An even register only shifts, and its other bits move down. */
  lemma EvenShift(x: bv32, mask: bv32)
    requires Free(x, mask) && Odd(mask)
    ensures Shift(x) == Half(x) && Free(Half(x), Half(mask))
  {
    assert x & 1 == 0;
  }

  lemma Masks()
    ensures Odd(0xff) && Half(0xff) == 0x7f && Odd(0x7f) && Half(0x7f) == 0x3f && Odd(0x3f) && Half(0x3f) == 0x1f
    ensures Odd(0x1f) && Half(0x1f) == 0x0f && Odd(0x0f) && Half(0x0f) == 0x07 && Odd(0x07) && Half(0x07) == 0x03
    ensures Odd(0x03) && Half(0x03) == 0x01 && Odd(0x01)
  {
  }

  function Halves(x: bv32, n: nat): bv32 { if n == 0 then x else Half(Halves(x, n - 1)) }

  lemma EvenShifts(x: bv32)
    requires Free(x, 0xff)
    ensures Shifts(x, 8) == Halves(x, 8)
  {
    hide Shift, Half, Odd, Free;
    Masks();
    assert Shifts(x, 0) == Halves(x, 0) == x;
    EvenShift(x, 0xff);
    assert Shifts(x, 1) == Halves(x, 1);
    EvenShift(Halves(x, 1), 0x7f);
    assert Shifts(x, 2) == Halves(x, 2);
    EvenShift(Halves(x, 2), 0x3f);
    assert Shifts(x, 3) == Halves(x, 3);
    EvenShift(Halves(x, 3), 0x1f);
    assert Shifts(x, 4) == Halves(x, 4);
    EvenShift(Halves(x, 4), 0x0f);
    assert Shifts(x, 5) == Halves(x, 5);
    EvenShift(Halves(x, 5), 0x07);
    assert Shifts(x, 6) == Halves(x, 6);
    EvenShift(Halves(x, 6), 0x03);
    assert Shifts(x, 7) == Halves(x, 7);
    EvenShift(Halves(x, 7), 0x01);
  }

  lemma UpFree(z: bv32)
    ensures Free(Up(z), 0xff)
  {
  }

  lemma EightHalves(x: bv32)
    ensures Half(Half(Half(Half(Half(Half(Half(Half(x)))))))) == x >> 8
  {
  }

  lemma DownUp(z: bv32)
    requires Clear(z)
    ensures Up(z) >> 8 == z
  {
  }

  lemma HalvesEight(x: bv32)
    ensures Halves(x, 8) == Half(Half(Half(Half(Half(Half(Half(Half(x))))))))
  {
    hide Half;
    assert Halves(x, 0) == x;
    assert Halves(x, 1) == Half(x);
    assert Halves(x, 2) == Half(Half(x));
    assert Halves(x, 3) == Half(Half(Half(x)));
    assert Halves(x, 4) == Half(Half(Half(Half(x))));
    assert Halves(x, 5) == Half(Half(Half(Half(Half(x)))));
    assert Halves(x, 6) == Half(Half(Half(Half(Half(Half(x))))));
    assert Halves(x, 7) == Half(Half(Half(Half(Half(Half(Half(x)))))));
  }

  /** Eight shifts bring a register one byte down, when its lowest byte is zero. */
  lemma ByteDown(z: bv32)
    requires Clear(z)
    ensures Shifts(Up(z), 8) == z
  {
    hide Shifts, Halves, Half, Up, Clear, Free;
    UpFree(z);
    EvenShifts(Up(z));
    HalvesEight(Up(z));
    EightHalves(Up(z));
    DownUp(z);
  }

  /** A byte above the one being fed may be added before feeding instead of after. */
  lemma FeedUnder(x: bv32, z: bv32)
    requires Clear(z)
    ensures Shifts(Xor(x, Up(z)), 8) == Xor(Shifts(x, 8), z)
  {
    hide Shifts, Xor, Up, Clear;
    ShiftsLinear(x, Up(z), 8);
    ByteDown(z);
  }

  /** Four bytes as one word, the first lowest. */
  function Word(a: octet, b: octet, c: octet, d: octet): bv32 {
    Xor(Widen(a), Up(Xor(Widen(b), Up(Xor(Widen(c), Up(Widen(d)))))))
  }

  lemma WordClear(b: octet, c: octet, d: octet)
    ensures Clear(Widen(d)) && Clear(Xor(Widen(c), Up(Widen(d))))
    ensures Clear(Xor(Widen(b), Up(Xor(Widen(c), Up(Widen(d))))))
  {
  }

  lemma WordInjective(a: octet, b: octet, c: octet, d: octet, e: octet, f: octet, g: octet, h: octet)
    requires Word(a, b, c, d) == Word(e, f, g, h)
    ensures a == e && b == f && c == g && d == h
  {
  }

  /** Feeding a byte and then adding what comes above it is feeding both at once. */
  lemma Absorb(x: bv32, b: octet, z: bv32)
    requires Clear(z)
    ensures Xor(Feed(x, b), z) == Shifts(Xor(x, Xor(Widen(b), Up(z))), 8)
  {
    hide Shifts, Xor, Up, Clear, Widen;
    FeedUnder(Xor(x, Widen(b)), z);
    XorAssociative(x, Widen(b), Up(z));
  }

  /** Four bytes reach the register as one word, shifted 32 times. */
  lemma FeedFour(x: bv32, a: octet, b: octet, c: octet, d: octet)
    ensures FeedAll(x, [a, b, c, d]) == Shifts(Xor(x, Word(a, b, c, d)), 32)
  {
    hide Shifts, Xor, Up, Clear, Widen, Feed;
    WordClear(b, c, d);
    var r1 := Feed(x, a);
    var r2 := Feed(r1, b);
    var r3 := Feed(r2, c);
    FourFed(x, a, b, c, d);
    var z3 := Xor(Widen(c), Up(Widen(d)));
    var z2 := Xor(Widen(b), Up(z3));
    Absorb(r2, c, Widen(d));
    Absorb(r1, b, z3);
    Absorb(x, a, z2);
    var y := Xor(x, Word(a, b, c, d));
    FeedIsShifts(r3, d);
    ShiftsCompose(y, 8, 8);
    ShiftsCompose(y, 16, 8);
    ShiftsCompose(y, 24, 8);
  }

  lemma FeedIsShifts(x: bv32, b: octet)
    ensures Feed(x, b) == Shifts(Xor(x, Widen(b)), 8)
  {
  }

  lemma FourFed(x: bv32, a: octet, b: octet, c: octet, d: octet)
    ensures FeedAll(x, [a, b, c, d]) == Feed(Feed(Feed(Feed(x, a), b), c), d)
  {
    hide Feed;
    assert [a, b, c, d][..3] == [a, b, c] && [a, b, c][..2] == [a, b] && [a, b][..1] == [a] && [a][..0] == [];
    assert FeedAll(x, [a]) == Feed(x, a);
    assert FeedAll(x, [a, b]) == Feed(Feed(x, a), b);
    assert FeedAll(x, [a, b, c]) == Feed(Feed(Feed(x, a), b), c);
  }

  lemma FourDiffer(x: bv32, u: octets, v: octets)
    requires |u| == |v| == 4 && u != v
    ensures FeedAll(x, u) != FeedAll(x, v)
  {
    hide Shifts, Xor, Word, FeedAll;
    assert u == [u[0], u[1], u[2], u[3]] && v == [v[0], v[1], v[2], v[3]];
    FeedFour(x, u[0], u[1], u[2], u[3]);
    FeedFour(x, v[0], v[1], v[2], v[3]);
    if FeedAll(x, u) == FeedAll(x, v) {
      ShiftsInjective(Xor(x, Word(u[0], u[1], u[2], u[3])), Xor(x, Word(v[0], v[1], v[2], v[3])), 32);
      XorFront(x, Word(u[0], u[1], u[2], u[3]), Word(v[0], v[1], v[2], v[3]));
      WordInjective(u[0], u[1], u[2], u[3], v[0], v[1], v[2], v[3]);
    }
  }

  lemma XorFront(x: bv32, y: bv32, z: bv32)
    ensures Xor(x, y) == Xor(x, z) ==> y == z
  {
  }

  function Zeros(n: nat): (z: octets)
    ensures |z| == n
  {
    seq(n, _ => 0)
  }

  lemma FewDiffer(x: bv32, u: octets, v: octets)
    requires |u| == |v| <= 4 && u != v
    ensures FeedAll(x, u) != FeedAll(x, v)
  {
    hide FeedAll;
    var pad := Zeros(4 - |u|);
    assert u == (u + pad)[..|u|] && v == (v + pad)[..|v|];
    FourDiffer(x, u + pad, v + pad);
    FeedAllAppend(x, u, pad);
    FeedAllAppend(x, v, pad);
  }

  lemma NotInjective(x: bv32, y: bv32)
    ensures !x == !y ==> x == y
  {
  }

  /** Two payloads of one length that differ only within four consecutive bytes never share a checksum. */
  lemma BurstDetected(before: octets, u: octets, v: octets, after: octets)
    requires |u| == |v| <= 4 && u != v
    ensures Checksum(before + u + after) != Checksum(before + v + after)
  {
    hide FeedAll;
    var x := FeedAll(START, before);
    FeedAllAppend(START, before, u);
    FeedAllAppend(START, before, v);
    FeedAllAppend(START, before + u, after);
    FeedAllAppend(START, before + v, after);
    FewDiffer(x, u, v);
    if FeedAll(FeedAll(x, u), after) == FeedAll(FeedAll(x, v), after) {
      FeedAllInjective(FeedAll(x, u), FeedAll(x, v), after);
    }
    NotInjective(FeedAll(START, before + u + after), FeedAll(START, before + v + after));
  }
}
