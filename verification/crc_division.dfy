/** The checksum register, read backwards, is the remainder of a long division by the Castagnoli polynomial. */
module CrcDivision {
  import opened Crc32c

  /** x^28 + x^27 + x^26 + x^25 + x^23 + ... + x^6 + 1; the term x^32 is the bit shifted out. */
  const CASTAGNOLI: bv32 := 0x1edc_6f41

  /** Bit 31 becomes bit 0, bit 30 becomes bit 1, and so on: bits, pairs, nibbles, bytes and halves change places. */
  function Reverse(x: bv32): bv32 {
    var bits := ((x & 0x5555_5555) << 1) | ((x >> 1) & 0x5555_5555);
    var pairs := ((bits & 0x3333_3333) << 2) | ((bits >> 2) & 0x3333_3333);
    var nibbles := ((pairs & 0x0f0f_0f0f) << 4) | ((pairs >> 4) & 0x0f0f_0f0f);
    var octets := ((nibbles & 0x00ff_00ff) << 8) | ((nibbles >> 8) & 0x00ff_00ff);
    (octets << 16) | (octets >> 16)
  }

  /** A single one, `k` places up, is brought to `31 - k` places up. */
  lemma ReverseOne(k: nat)
    requires k < 32
    ensures Reverse(1 as bv32 << k) == 1 as bv32 << (31 - k)
  {
  }

  /** One step of long division: bring down the next bit and subtract the divisor when the leading bit was one. */
  function Divide(r: bv32): bv32 { if Leading(r) then Xor(Double(r), CASTAGNOLI) else Double(r) }

  predicate Leading(r: bv32) { r & 0x8000_0000 != 0 }

  function Double(r: bv32): bv32 { r << 1 }

  function DivideTimes(r: bv32, n: nat): bv32 { if n == 0 then r else Divide(DivideTimes(r, n - 1)) }

  /** Each byte enters at the top, its lowest bit first, and eight steps follow. */
  function Remainder(r: bv32, data: octets): bv32 {
    if data == [] then r
    else
      var n := |data| - 1;
      DivideTimes(Xor(Remainder(r, data[..n]), Reverse(Widen(data[n]))), 8)
  }

  lemma ReverseXor(x: bv32, y: bv32)
    ensures Reverse(Xor(x, y)) == Xor(Reverse(x), Reverse(y))
  {
  }

  lemma ReverseHalf(x: bv32)
    ensures Reverse(Half(x)) == Double(Reverse(x))
  {
    hide Reverse;
    HalfReversed(x, x >> 1);
  }

  /** The stages of reversal, each on its own. */
  predicate Stages(x: bv32, bits: bv32, pairs: bv32, nibbles: bv32, octets: bv32, r: bv32) {
    && bits == ((x & 0x5555_5555) << 1) | ((x >> 1) & 0x5555_5555)
    && pairs == ((bits & 0x3333_3333) << 2) | ((bits >> 2) & 0x3333_3333)
    && nibbles == ((pairs & 0x0f0f_0f0f) << 4) | ((pairs >> 4) & 0x0f0f_0f0f)
    && octets == ((nibbles & 0x00ff_00ff) << 8) | ((nibbles >> 8) & 0x00ff_00ff)
    && r == (octets << 16) | (octets >> 16)
  }

  lemma InStages(x: bv32) returns (bits: bv32, pairs: bv32, nibbles: bv32, octets: bv32)
    ensures Stages(x, bits, pairs, nibbles, octets, Reverse(x))
  {
    bits := ((x & 0x5555_5555) << 1) | ((x >> 1) & 0x5555_5555);
    pairs := ((bits & 0x3333_3333) << 2) | ((bits >> 2) & 0x3333_3333);
    nibbles := ((pairs & 0x0f0f_0f0f) << 4) | ((pairs >> 4) & 0x0f0f_0f0f);
    octets := ((nibbles & 0x00ff_00ff) << 8) | ((nibbles >> 8) & 0x00ff_00ff);
  }

  lemma HalfReversed(x: bv32, y: bv32)
    requires y == x >> 1
    ensures Reverse(y) == Reverse(x) << 1
  {
    hide Reverse, Stages;
    var b, p, n, o := InStages(x);
    var c, s, m, t := InStages(y);
    StagesShift(x, b, p, n, o, Reverse(x), y, c, s, m, t, Reverse(y));
  }

  lemma StagesShift(
    x: bv32, b: bv32, p: bv32, n: bv32, o: bv32, r: bv32, y: bv32, c: bv32, s: bv32, m: bv32, t: bv32, q: bv32)
    requires y == x >> 1 && Stages(x, b, p, n, o, r) && Stages(y, c, s, m, t, q)
    ensures q == r << 1
  {
  }

  lemma ReverseLow(x: bv32)
    ensures Odd(x) <==> Leading(Reverse(x))
  {
  }

  lemma ReversedPolynomial()
    ensures Reverse(POLYNOMIAL) == CASTAGNOLI
  {
  }

  lemma ReverseTwice(x: bv32)
    ensures Reverse(Reverse(x)) == x
  {
  }

  lemma ShiftDivides(x: bv32)
    ensures Reverse(Shift(x)) == Divide(Reverse(x))
  {
    hide Reverse, Xor, Half, Double, Odd, Leading;
    ReverseLow(x);
    ReverseHalf(x);
    ReverseXor(Half(x), POLYNOMIAL);
    ReversedPolynomial();
  }

  lemma {:induction false} ShiftsDivide(x: bv32, n: nat)
    ensures Reverse(Shifts(x, n)) == DivideTimes(Reverse(x), n)
  {
    hide Reverse, Shift, Divide;
    if n > 0 {
      ShiftsDivide(x, n - 1);
      ShiftDivides(Shifts(x, n - 1));
    }
  }

  lemma {:induction false} FeedDivides(x: bv32, data: octets)
    ensures Reverse(FeedAll(x, data)) == Remainder(Reverse(x), data)
  {
    hide Reverse, Shifts, DivideTimes, Xor, Widen;
    if data != [] {
      var n := |data| - 1;
      var before := FeedAll(x, data[..n]);
      FeedDivides(x, data[..n]);
      ShiftsDivide(Xor(before, Widen(data[n])), 8);
      ReverseXor(before, Widen(data[n]));
    }
  }

  /** The checksum is the complement of that remainder, read backwards, from a register of all ones. */
  lemma ChecksumIsRemainder(data: octets)
    ensures Checksum(data) == !Reverse(Remainder(0xffff_ffff, data))
  {
    hide Reverse, FeedAll, Remainder;
    FeedDivides(START, data);
    AllOnes();
    ReverseTwice(FeedAll(START, data));
  }

  lemma AllOnes()
    ensures Reverse(0xffff_ffff) == 0xffff_ffff
  {
  }
}
