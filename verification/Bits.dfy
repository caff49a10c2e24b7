/**
  The bit utilities of webrtc/include/base/bits.h. Words are natural numbers below 2^width, and the
  bitwise operators are defined bit by bit, so that the mask and scan formulas can be compared with
  what they are for: powers of two, multiples, and counts of zero bits.
 */
module Bits {

  function Pow2(k: nat): (p: nat)
    ensures p > 0
  {
    if k == 0 then 1 else 2 * Pow2(k - 1)
  }

  function And(x: nat, y: nat): nat {
    if x == 0 || y == 0 then 0
    else 2 * And(x / 2, y / 2) + (if x % 2 == 1 && y % 2 == 1 then 1 else 0)
  }

  /** ~x in a word of w bits. */
  function Not(x: nat, w: nat): nat
    requires x < Pow2(w)
  {
    Pow2(w) - 1 - x
  }

  predicate Bit(x: nat, i: nat) {
    x / Pow2(i) % 2 == 1
  }

  // ---------------------------------------------------------------- the functions of the header

  predicate IsPowerOfTwo(value: int) {
    value > 0 && And(value, value - 1) == 0
  }

  function AlignDown(size: nat, alignment: nat, w: nat): nat
    requires IsPowerOfTwo(alignment) && alignment <= Pow2(w)
  {
    And(size, Not(alignment - 1, w))
  }

  function AlignUp(size: nat, alignment: nat, w: nat): nat
    requires IsPowerOfTwo(alignment) && alignment <= Pow2(w)
  {
    And((size + alignment - 1) % Pow2(w), Not(alignment - 1, w))
  }

  /** _BitScanReverse: the index of the highest set bit. */
  function ScanReverse(x: nat): nat
    requires x > 0
  {
    if x == 1 then 0 else 1 + ScanReverse(x / 2)
  }

  /** _BitScanForward: the index of the lowest set bit. */
  function ScanForward(x: nat): nat
    requires x > 0
  {
    if x % 2 == 1 then 0 else 1 + ScanForward(x / 2)
  }

  /** For types of at most 32 bits. */
  function CountLeadingZeroBits(x: nat, bits: nat): int {
    if x > 0 then 31 - ScanReverse(x) - (32 - bits) else bits
  }

  function CountTrailingZeroBits(x: nat, bits: nat): int {
    if x > 0 then ScanForward(x) else bits
  }

  const WORD := 0x1_0000_0000

  /** 64 bits on a 32-bit target: the two halves in turn. */
  function CountLeadingZeroBits64(x: nat): int {
    var left, right := x / WORD, x % WORD;
    if left > 0 then 31 - ScanReverse(left)
    else if right > 0 then 63 - ScanReverse(right)
    else 64
  }

  function CountTrailingZeroBits64(x: nat): int {
    var left, right := x / WORD, x % WORD;
    if right > 0 then ScanForward(right)
    else if left > 0 then 32 + ScanForward(left)
    else 64
  }

  /** int arithmetic with an unsigned operand: computed in uint32_t, converted back to int. */
  function AsInt(x: int): int {
    var u := x % WORD;
    if u < WORD / 2 then u else u - WORD
  }

  function Log2Floor(n: nat): int {
    AsInt(31 - CountLeadingZeroBits(n, 32))
  }

  function Log2Ceiling(n: nat): int {
    AsInt((if n != 0 then 32 else -1) - CountLeadingZeroBits((n - 1) % WORD, 32))
  }

  // ---------------------------------------------------------------- powers of two

  lemma {:induction false} AndSelf(x: nat)
    ensures And(x, x) == x
  {
    if x > 0 { AndSelf(x / 2); }
  }

  lemma Pow2Odd(k: nat)
    ensures Pow2(k) % 2 == 1 <==> k == 0
  {}

  lemma HalvesToPower(u: nat)
    ensures (exists k: nat :: 2 * u == Pow2(k)) <==> (exists k: nat :: u == Pow2(k))
  {
    if k: nat :| 2 * u == Pow2(k) {
      Pow2Odd(k);
      assert u == Pow2(k - 1);
    }
    if k: nat :| u == Pow2(k) { assert 2 * u == Pow2(k + 1); }
  }

  /** The classic test is right: no bits in common with the predecessor means exactly one bit. */
  lemma {:induction false} PowerOfTwoIff(value: int)
    ensures IsPowerOfTwo(value) <==> exists k: nat :: value == Pow2(k)
  {
    if value > 1 {
      var u := value / 2;
      if value % 2 == 1 {
        AndSelf(u);
        assert (value - 1) / 2 == u;
        forall k: nat ensures value != Pow2(k) { Pow2Odd(k); }
      } else {
        PowerOfTwoIff(u);
        assert (value - 1) / 2 == u - 1 && (value - 1) % 2 == 1;
        assert And(value, value - 1) == 2 * And(u, u - 1);
        HalvesToPower(u);
      }
    } else if value == 1 {
      assert value == Pow2(0);
    }
  }

  // ---------------------------------------------------------------- alignment

  /** One binary digit b at the end of the mask. */
  lemma AndDigit(x: nat, y: nat, b: nat)
    requires b < 2
    ensures And(x, 2 * y + b) == 2 * And(x / 2, y) + (if b == 1 then x % 2 else 0)
  {
    hide And;
    var z := 2 * y + b;
    assert z / 2 == y && z % 2 == b;
    AndStep(x, z);
  }

  lemma AndStep(x: nat, z: nat)
    ensures And(x, z) == 2 * And(x / 2, z / 2) + (if x % 2 == 1 && z % 2 == 1 then 1 else 0)
  {}

  lemma {:induction false} AndOnes(x: nat, w: nat)
    requires x < Pow2(w)
    ensures And(x, Pow2(w) - 1) == x
  {
    if w > 0 {
      hide And;
      AndDigit(x, Pow2(w - 1) - 1, 1);
      AndOnes(x / 2, w - 1);
    }
  }

  lemma HalfMod(x: nat, m: nat)
    requires m > 0
    ensures x % (2 * m) == 2 * (x / 2 % m) + x % 2
    ensures x / (2 * m) == x / 2 / m
  {
    var q := x / 2 / m;
    var r := 2 * (x / 2 % m) + x % 2;
    assert x / 2 == m * q + x / 2 % m;
    assert x == 2 * m * q + r;
    DivModIs(x, 2 * m, q, r);
  }

  lemma DivModIs(x: int, m: int, q: int, r: int)
    requires 0 <= r < m && x == m * q + r
    ensures x % m == r && x / m == q
  {
    var d := x / m - q;
    assert x == m * (x / m) + x % m;
    assert m * d == m * (x / m) - m * q;
    OnlyZero(m, d);
  }

  lemma OnlyZero(m: int, d: int)
    requires -m < m * d < m
    ensures d == 0
  {
    if d > 0 { Scale(m, 1, d); } else if d < 0 { Scale(m, d, -1); }
  }

  lemma Scale(m: int, a: int, b: int)
    requires m > 0 && a <= b
    ensures m * a <= m * b
  {}

  /** The low k bits of x, and the rest. */
  function Low(x: nat, k: nat): nat {
    x % Pow2(k)
  }

  function High(x: nat, k: nat): int {
    x / Pow2(k)
  }

  lemma PartsStep(x: nat, k: nat)
    ensures k == 0 ==> Low(x, k) == 0 && High(x, k) == x
    ensures k > 0 ==> Low(x, k) == 2 * Low(x / 2, k - 1) + x % 2 && High(x, k) == High(x / 2, k - 1)
  {
    if k > 0 {
      assert Pow2(k) == 2 * Pow2(k - 1);
      hide Pow2;
      HalfMod(x, Pow2(k - 1));
    } else {
      DivModIs(x, 1, x, 0);
    }
  }

  /** The mask clears exactly the low k bits. */
  lemma {:induction false} MaskClearsLow(x: nat, k: nat, w: nat)
    requires x < Pow2(w) && k <= w
    ensures Pow2(k) <= Pow2(w)
    ensures And(x, Not(Pow2(k) - 1, w)) == x - Low(x, k)
  {
    hide And, Low;
    PartsStep(x, k);
    if k == 0 {
      AndOnes(x, w);
    } else {
      MaskClearsLow(x / 2, k - 1, w - 1);
      var half := Pow2(w - 1) - Pow2(k - 1);
      assert Pow2(w) - Pow2(k) == 2 * half;
      AndDigit(x, half, 0);
    }
  }

  lemma {:induction false} Pow2Monotone(j: nat, k: nat)
    requires j <= k
    ensures Pow2(j) <= Pow2(k)
    decreases k - j
  {
    if j < k { Pow2Monotone(j, k - 1); }
  }

  lemma PowersOrdered(j: nat, k: nat)
    requires Pow2(j) <= Pow2(k)
    ensures j <= k
  {
    if k < j { Pow2Monotone(k + 1, j); }
  }

  lemma AlignmentMask(x: nat, alignment: nat, w: nat)
    requires IsPowerOfTwo(alignment) && alignment <= Pow2(w) && x < Pow2(w)
    ensures And(x, Not(alignment - 1, w)) == x - x % alignment
  {
    PowerOfTwoIff(alignment);
    var k: nat :| alignment == Pow2(k);
    PowersOrdered(k, w);
    MaskClearsLow(x, k, w);
  }

  lemma GreatestMultiple(x: nat, a: nat, m: nat)
    requires a > 0 && m % a == 0 && m <= x
    ensures (x - x % a) % a == 0 && m <= x - x % a
  {
    var q, r := x / a, x % a;
    assert x - r == a * q;
    DivModIs(a * q, a, q, 0);
    var n := m / a;
    assert m == a * n;
    assert a * (q + 1) == a * q + a;
    if n > q {
      Scale(a, q + 1, n);
    } else {
      Scale(a, n, q);
    }
  }

  /** AlignDown is the greatest multiple of the alignment that is not above the size. */
  lemma AlignDownIsGreatest(size: nat, alignment: nat, w: nat, m: nat)
    requires IsPowerOfTwo(alignment) && alignment <= Pow2(w) && size < Pow2(w)
    ensures var d := AlignDown(size, alignment, w);
      && d % alignment == 0 && d <= size < d + alignment
      && (m % alignment == 0 && m <= size ==> m <= d)
  {
    hide Pow2, And;
    AlignmentMask(size, alignment, w);
    GreatestMultiple(size, alignment, 0);
    if m % alignment == 0 && m <= size { GreatestMultiple(size, alignment, m); }
  }

  /**
    AlignUp is the least multiple that is not below the size, exactly if rounding up does not overflow
    the word; otherwise it is 0, below the size.
   */
  lemma AlignUpIsLeastIff(size: nat, alignment: nat, w: nat, m: nat)
    requires IsPowerOfTwo(alignment) && alignment <= Pow2(w) && size < Pow2(w)
    ensures var u := AlignUp(size, alignment, w);
      && u % alignment == 0
      && (size <= u <==> size + alignment - 1 < Pow2(w))
      && (size + alignment - 1 < Pow2(w) ==> u < size + alignment && (m % alignment == 0 && size <= m ==> u <= m))
      && (size + alignment - 1 >= Pow2(w) ==> u == 0)
  {
    hide Pow2, And;
    var sum := size + alignment - 1;
    var x := sum % Pow2(w);
    AlignmentMask(x, alignment, w);
    assert AlignUp(size, alignment, w) == x - x % alignment;
    hide AlignUp;
    GreatestMultiple(x, alignment, 0);
    if sum < Pow2(w) {
      SmallMod(sum, Pow2(w));
      if m % alignment == 0 && size <= m { LeastMultiple(size, alignment, m); }
    } else {
      DivModIs(sum, Pow2(w), 1, sum - Pow2(w));
      SmallMod(x, alignment);
    }
  }

  lemma SmallMod(x: nat, m: nat)
    requires x < m
    ensures x % m == x
  {}

  lemma LeastMultiple(size: nat, a: nat, m: nat)
    requires a > 0 && m % a == 0 && size <= m
    ensures (size + a - 1) - (size + a - 1) % a <= m
  {
    var x := size + a - 1;
    var q, n := x / a, m / a;
    assert m == a * n && x - x % a == a * q;
    assert a * (n + 1) == m + a;
    if q > n {
      Scale(a, n + 1, q);
    } else {
      Scale(a, q, n);
    }
  }

  /** Aligning twice changes nothing more, and aligning keeps order. */
  lemma AlignmentIsStable(a: nat, b: nat, alignment: nat, w: nat)
    requires IsPowerOfTwo(alignment) && alignment <= Pow2(w) && a <= b < Pow2(w)
    ensures var d := AlignDown(a, alignment, w);
      AlignDown(d, alignment, w) == d && d <= AlignDown(b, alignment, w)
    ensures b + alignment - 1 < Pow2(w) ==> var u := AlignUp(a, alignment, w);
      AlignUp(u, alignment, w) == u && u <= AlignUp(b, alignment, w)
  {
    var d := AlignDown(a, alignment, w);
    AlignDownIsGreatest(a, alignment, w, 0);
    AlignDownIsGreatest(b, alignment, w, d);
    AlignDownIsGreatest(d, alignment, w, d);
    if b + alignment - 1 < Pow2(w) {
      var u := AlignUp(a, alignment, w);
      AlignUpIsLeastIff(a, alignment, w, AlignUp(b, alignment, w));
      AlignUpIsLeastIff(b, alignment, w, 0);
      AlignUpFits(a, alignment, w);
      AlignUpIsLeastIff(u, alignment, w, u);
    }
  }

  /** A multiple below 2^w has room for one more alignment step below 2^w, less one. */
  lemma AlignUpFits(size: nat, alignment: nat, w: nat)
    requires IsPowerOfTwo(alignment) && alignment <= Pow2(w) && size + alignment - 1 < Pow2(w)
    ensures AlignUp(size, alignment, w) + alignment - 1 < Pow2(w)
  {
    PowerOfTwoIff(alignment);
    var k: nat :| alignment == Pow2(k);
    PowersOrdered(k, w);
    Divides(k, w);
    AlignUpIsLeastIff(size, alignment, w, 0);
    var u := AlignUp(size, alignment, w);
    var x := size + alignment - 1;
    AlignmentMask(x, alignment, w);
    SmallMod(x, Pow2(w));
    GreatestMultiple(x, alignment, 0);
    NextMultiple(u, alignment, Pow2(w));
  }

  lemma {:induction false} Divides(k: nat, w: nat)
    requires k <= w
    ensures Pow2(w) % Pow2(k) == 0
    decreases w - k
  {
    if k < w {
      Divides(k, w - 1);
      var q := Pow2(w - 1) / Pow2(k);
      assert Pow2(w) == Pow2(k) * (2 * q);
      DivModIs(Pow2(w), Pow2(k), 2 * q, 0);
    } else {
      DivModIs(Pow2(w), Pow2(k), 1, 0);
    }
  }

  lemma NextMultiple(u: nat, a: nat, p: nat)
    requires a > 0 && u % a == 0 && p % a == 0 && u < p
    ensures u + a <= p
  {
    var i, j := u / a, p / a;
    assert u == a * i && p == a * j;
    assert a * (i + 1) == u + a;
    if j <= i { Scale(a, j, i); } else { Scale(a, i + 1, j); }
  }

  // ---------------------------------------------------------------- counting zero bits

  /** The zero bits above the highest one bit, counted one by one from the top of a word of w bits. */
  function LeadingZeros(x: nat, w: nat): nat {
    if w == 0 || Bit(x, w - 1) then 0 else 1 + LeadingZeros(x, w - 1)
  }

  /** The zero bits below the lowest one bit, from bit i of a word of w bits. */
  function TrailingZeros(x: nat, i: nat, w: nat): nat
    decreases w - i
  {
    if w <= i || Bit(x, i) then 0 else 1 + TrailingZeros(x, i + 1, w)
  }

  lemma {:induction false} ScanReverseBounds(x: nat)
    requires x > 0
    ensures Pow2(ScanReverse(x)) <= x < Pow2(ScanReverse(x) + 1)
  {
    if x > 1 { ScanReverseBounds(x / 2); }
  }

  lemma {:induction false} LeadingZerosIs(x: nat, h: nat, w: nat)
    requires Pow2(h) <= x < Pow2(h + 1) && h < w
    ensures LeadingZeros(x, w) == w - 1 - h
  {
    var i := w - 1;
    if i == h {
      DivModIs(x, Pow2(h), 1, x - Pow2(h));
    } else {
      Pow2Monotone(h + 1, i);
      DivModIs(x, Pow2(i), 0, x);
      LeadingZerosIs(x, h, w - 1);
    }
  }

  lemma {:induction false} LeadingZerosOfZero(w: nat)
    ensures LeadingZeros(0, w) == w
  {
    if w > 0 {
      DivModIs(0, Pow2(w - 1), 0, 0);
      LeadingZerosOfZero(w - 1);
    }
  }

  lemma HighBitInWord(x: nat, w: nat)
    requires 0 < x < Pow2(w)
    ensures ScanReverse(x) < w
  {
    ScanReverseBounds(x);
    if w <= ScanReverse(x) { Pow2Monotone(w, ScanReverse(x)); }
  }

  /** For every width up to 32, the width-adjusted scan counts the leading zeros. */
  lemma NarrowLeadingZeros(x: nat, bits: nat)
    requires 0 < bits <= 32 && x < Pow2(bits)
    ensures CountLeadingZeroBits(x, bits) == LeadingZeros(x, bits)
  {
    if x > 0 {
      ScanReverseBounds(x);
      HighBitInWord(x, bits);
      LeadingZerosIs(x, ScanReverse(x), bits);
    } else {
      LeadingZerosOfZero(bits);
    }
  }

  lemma WordIsPow2()
    ensures Pow2(32) == WORD
  {
    assert Pow2(8) == 256;
    Pow2Sum(8, 8);
    Pow2Sum(16, 16);
  }

  lemma {:induction false} Pow2Sum(a: nat, b: nat)
    ensures Pow2(a + b) == Pow2(a) * Pow2(b)
  {
    if a > 0 { Pow2Sum(a - 1, b); }
  }

  /** The highest bit of a word with a non-zero upper half lies 32 above that of the half. */
  lemma UpperHalf(x: nat)
    requires x / WORD > 0
    ensures var h := ScanReverse(x / WORD) + 32; Pow2(h) <= x < Pow2(h + 1)
  {
    var left, right := x / WORD, x % WORD;
    var h := ScanReverse(left);
    ScanReverseBounds(left);
    WordIsPow2();
    Pow2Sum(h, 32);
    Pow2Sum(h + 1, 32);
    assert x == left * WORD + right;
    Scale(WORD, Pow2(h), left);
    Scale(WORD, left + 1, Pow2(h + 1));
  }

  /** The two-half version counts the leading zeros of every 64-bit word. */
  lemma WideLeadingZeros(x: nat)
    requires x < WORD * WORD
    ensures CountLeadingZeroBits64(x) == LeadingZeros(x, 64)
  {
    hide Pow2, ScanReverse, LeadingZeros;
    var left, right := x / WORD, x % WORD;
    WordIsPow2();
    if left > 0 {
      UpperHalf(x);
      assert left < WORD;
      HighBitInWord(left, 32);
      LeadingZerosIs(x, ScanReverse(left) + 32, 64);
    } else if right > 0 {
      assert x == right;
      ScanReverseBounds(x);
      HighBitInWord(x, 32);
      LeadingZerosIs(x, ScanReverse(x), 64);
    } else {
      LeadingZerosOfZero(64);
    }
  }

  lemma ShiftBit(x: nat, i: nat)
    ensures Bit(x, i + 1) <==> Bit(x / 2, i)
  {
    HalfMod(x, Pow2(i));
  }

  lemma {:induction false} TrailingShift(x: nat, i: nat, w: nat)
    ensures TrailingZeros(x, i + 1, w + 1) == TrailingZeros(x / 2, i, w)
    decreases w - i
  {
    if i < w {
      ShiftBit(x, i);
      TrailingShift(x, i + 1, w);
    }
  }

  lemma {:induction false} TrailingZerosIs(x: nat, w: nat)
    requires x < Pow2(w)
    ensures TrailingZeros(x, 0, w) == if x > 0 then ScanForward(x) else w
  {
    if w > 0 {
      assert Bit(x, 0) <==> x % 2 == 1;
      TrailingShift(x, 0, w - 1);
      TrailingZerosIs(x / 2, w - 1);
    }
  }

  lemma NarrowTrailingZeros(x: nat, bits: nat)
    requires 0 < bits <= 32 && x < Pow2(bits)
    ensures CountTrailingZeroBits(x, bits) == TrailingZeros(x, 0, bits)
  {
    TrailingZerosIs(x, bits);
  }

  /** A scan over x finds its lowest bit in the low part, or else in the high part. */
  predicate ScansInParts(x: nat, k: nat, low: nat, high: int) {
    x > 0 && if low > 0 then ScanForward(x) == ScanForward(low) else high > 0 && ScanForward(x) == k + ScanForward(high)
  }

  lemma {:induction false} ScanForwardHalves(x: nat, k: nat)
    requires x > 0
    ensures ScansInParts(x, k, Low(x, k), High(x, k))
    decreases k
  {
    hide Low, High;
    PartsStep(x, k);
    if k > 0 && x % 2 == 0 { ScanForwardHalves(x / 2, k - 1); }
  }

  /** The two-half version counts the trailing zeros of every 64-bit word. */
  lemma WideTrailingZeros(x: nat)
    requires x < WORD * WORD
    ensures CountTrailingZeroBits64(x) == TrailingZeros(x, 0, 64)
  {
    WordIsPow2();
    Pow2Sum(32, 32);
    TrailingZerosIs(x, 64);
    if x > 0 { ScanForwardHalves(x, 32); }
    hide ScanForward, Pow2, TrailingZeros;
  }

  // ---------------------------------------------------------------- logarithms

  /** 2^Log2Floor(n) <= n < 2^(Log2Floor(n) + 1) for every positive n, and -1 for 0. */
  lemma Log2FloorIs(n: nat)
    requires n < WORD
    ensures n == 0 ==> Log2Floor(n) == -1
    ensures n > 0 ==> 0 <= Log2Floor(n) < 32 && Pow2(Log2Floor(n)) <= n < Pow2(Log2Floor(n) + 1)
  {
    WordIsPow2();
    if n > 0 {
      hide Pow2, ScanReverse, Log2Floor;
      ScanReverseBounds(n);
      HighBitInWord(n, 32);
      Log2FloorScans(n);
    }
  }

  lemma Log2FloorScans(n: nat)
    requires n > 0 && ScanReverse(n) < 32
    ensures Log2Floor(n) == ScanReverse(n)
  {
    hide ScanReverse, AsInt;
    AsIntSmall(ScanReverse(n));
  }

  lemma Log2CeilingScans(n: nat)
    requires 1 < n < WORD && ScanReverse(n - 1) < 32
    ensures Log2Ceiling(n) == ScanReverse(n - 1) + 1
  {
    hide ScanReverse, AsInt;
    SmallMod(n - 1, WORD);
    AsIntSmall(ScanReverse(n - 1) + 1);
  }

  lemma AsIntSmall(x: nat)
    requires x < WORD / 2
    ensures AsInt(x) == x
  {}

  /** 2^(Log2Ceiling(n) - 1) < n <= 2^Log2Ceiling(n) for every n above 1; 0 for 1 and -1 for 0. */
  lemma Log2CeilingIs(n: nat)
    requires n < WORD
    ensures n == 0 ==> Log2Ceiling(n) == -1
    ensures n == 1 ==> Log2Ceiling(n) == 0
    ensures n > 1 ==> 0 < Log2Ceiling(n) <= 32 && Pow2(Log2Ceiling(n) - 1) < n <= Pow2(Log2Ceiling(n))
  {
    WordIsPow2();
    if n > 1 {
      hide Pow2, ScanReverse, Log2Ceiling;
      ScanReverseBounds(n - 1);
      HighBitInWord(n - 1, 32);
      Log2CeilingScans(n);
    } else if n == 0 {
      var top := WORD - 1;
      assert (n - 1) % WORD == top;
      ScanReverseBounds(top);
      HighBitInWord(top, 32);
      if ScanReverse(top) < 31 { Pow2Monotone(ScanReverse(top) + 1, 31); }
    }
  }
}
