/**
  ReadBigEndian and WriteBigEndian of webrtc/include/base/big_endian.h, for integers of any width of n
  bytes. The loops are proved against the positional value of a byte string.
 */
module BigEndian {

  type Byte = x: int | 0 <= x < 256

  function Modulus(n: nat): (m: int)
    ensures m > 0
  {
    if n == 0 then 1 else 256 * Modulus(n - 1)
  }

  /** The number whose base-256 digits are b, most significant first. */
  function Value(b: seq<Byte>): nat {
    if b == [] then 0 else 256 * Value(b[..|b| - 1]) + b[|b| - 1]
  }

  /** The n lowest base-256 digits of v, most significant first. */
  function Digits(v: nat, n: nat): (b: seq<Byte>)
    ensures |b| == n
  {
    if n == 0 then [] else Digits(v / 256, n - 1) + [v % 256]
  }

  /** An n-byte unsigned word read as two's complement, and back. */
  function Signed(u: nat, n: nat): int
    requires u < Modulus(n)
  {
    if 2 * u < Modulus(n) then u else u - Modulus(n)
  }

  function Unsigned(v: int, n: nat): nat {
    v % Modulus(n)
  }

  // ---------------------------------------------------------------- the codec on values

  lemma {:induction false} ValueBound(b: seq<Byte>)
    ensures Value(b) < Modulus(|b|)
  {
    if b != [] { ValueBound(b[..|b| - 1]); }
  }

  lemma {:induction false} ValueOfDigits(v: nat, n: nat)
    requires v < Modulus(n)
    ensures Value(Digits(v, n)) == v
  {
    if n > 0 {
      ValueOfDigits(v / 256, n - 1);
      assert Digits(v, n)[..n - 1] == Digits(v / 256, n - 1);
    }
  }

  lemma {:induction false} DigitsOfValue(b: seq<Byte>)
    ensures Digits(Value(b), |b|) == b
  {
    if b != [] {
      var front, last := b[..|b| - 1], b[|b| - 1];
      DigitsOfValue(front);
      assert Value(b) / 256 == Value(front) && Value(b) % 256 == last;
    }
  }

  lemma SignedOfUnsigned(v: int, n: nat)
    requires -Modulus(n) <= 2 * v < Modulus(n)
    ensures Unsigned(v, n) < Modulus(n) && Signed(Unsigned(v, n), n) == v
  {
    hide Modulus;
    if v < 0 { WrapsOnce(v, Modulus(n)); } else { SmallMod(v, Modulus(n)); }
  }

  lemma WrapsOnce(v: int, m: int)
    requires -m <= v < 0 < m
    ensures v % m == v + m
  {}

  /** Comparison of byte strings from the most significant byte down. */
  predicate LexLess(a: seq<Byte>, b: seq<Byte>)
    requires |a| == |b|
  {
    a != [] && (a[0] < b[0] || (a[0] == b[0] && LexLess(a[1..], b[1..])))
  }

  lemma {:induction false} ValueHead(b: seq<Byte>)
    requires b != []
    ensures Value(b) == b[0] * Modulus(|b| - 1) + Value(b[1..])
  {
    if |b| > 1 {
      var front := b[..|b| - 1];
      ValueHead(front);
      assert b[1..][..|b| - 2] == front[1..];
      assert Modulus(|b| - 1) == 256 * Modulus(|b| - 2);
      Scale(b[0], Modulus(|b| - 2));
    }
  }

  lemma Scale(x: int, m: int)
    ensures 256 * (x * m) == x * (256 * m)
  {}

  lemma Leading(x: Byte, y: Byte, m: int, v: nat, w: nat)
    requires x < y && v < m && w < m
    ensures x * m + v < y * m + w
  {
    assert x * m + m <= y * m by { Monotone(x + 1, y, m); }
  }

  lemma Monotone(x: int, y: int, m: int)
    requires x <= y && 0 <= m
    ensures x * m <= y * m
  {}

  /** Big-endian order is numeric order. */
  lemma {:induction false} LexIsNumeric(a: seq<Byte>, b: seq<Byte>)
    requires |a| == |b|
    ensures LexLess(a, b) <==> Value(a) < Value(b)
  {
    if a != [] {
      ValueHead(a);
      ValueHead(b);
      ValueBound(a[1..]);
      ValueBound(b[1..]);
      LexIsNumeric(a[1..], b[1..]);
      var m := Modulus(|a| - 1);
      if a[0] < b[0] { Leading(a[0], b[0], m, Value(a[1..]), Value(b[1..])); }
      if b[0] < a[0] { Leading(b[0], a[0], m, Value(b[1..]), Value(a[1..])); }
    }
  }

  // ---------------------------------------------------------------- the loops

  /** ReadBigEndian into an unsigned n-byte integer. `|=` of a byte into a shifted word is addition. */
  method ReadUnsigned(buf: array<Byte>, n: nat) returns (out: nat)
    requires 1 <= n <= buf.Length
    ensures out == Value(buf[..n]) < Modulus(n)
  {
    hide Modulus;
    out := buf[0];
    assert buf[..1][..0] == [];
    for i := 1 to n
      invariant out == Value(buf[..i])
    {
      assert buf[..i + 1][..i] == buf[..i];
      ValueBound(buf[..i + 1]);
      Grows(i + 1, n);
      SmallMod(out * 256, Modulus(n));
      out := (out * 256) % Modulus(n);
      out := out + buf[i];
    }
    ValueBound(buf[..n]);
  }

  lemma {:induction false} Grows(i: nat, n: nat)
    requires i <= n
    ensures Modulus(i) <= Modulus(n)
    decreases n - i
  {
    if i < n { Grows(i, n - 1); }
  }

  /** ReadBigEndian into a signed n-byte integer. */
  method ReadSigned(buf: array<Byte>, n: nat) returns (out: int)
    requires 1 <= n <= buf.Length
    ensures Value(buf[..n]) < Modulus(n) && out == Signed(Value(buf[..n]), n)
  {
    var u := ReadUnsigned(buf, n);
    out := Signed(u, n);
  }

  /** WriteBigEndian of a signed or unsigned value: the conversion to unsigned, then byte by byte. */
  method Write(buf: array<Byte>, n: nat, val: int)
    requires n <= buf.Length
    modifies buf
    ensures buf[..n] == Digits(Unsigned(val, n), n)
    ensures buf[n..] == old(buf[n..])
  {
    var rest: nat := Unsigned(val, n);
    for i := 0 to n
      invariant Digits(rest, n - i) + buf[n - i..n] == Digits(Unsigned(val, n), n)
      invariant buf[n..] == old(buf[n..])
    {
      var r := rest;
      assert Digits(r, n - i) == Digits(r / 256, n - i - 1) + [r % 256];
      buf[n - i - 1] := rest % 256;
      assert buf[n - i - 1..n] == [r % 256] + buf[n - i..n];
      rest := rest / 256;
    }
    assert buf[0..n] == buf[..n];
  }

  /** Reading back what was written gives the value, for every n-byte unsigned and every n-byte signed value. */
  method WriteThenRead(buf: array<Byte>, n: nat, val: int) returns (u: nat, s: int)
    requires 1 <= n <= buf.Length
    modifies buf
    ensures 0 <= val < Modulus(n) ==> u == val
    ensures -Modulus(n) <= 2 * val < Modulus(n) ==> s == val
  {
    Write(buf, n, val);
    ValueOfDigits(Unsigned(val, n), n);
    u := ReadUnsigned(buf, n);
    s := ReadSigned(buf, n);
    if -Modulus(n) <= 2 * val < Modulus(n) { SignedOfUnsigned(val, n); }
    if 0 <= val < Modulus(n) { SmallMod(val, Modulus(n)); }
  }

  lemma SmallMod(v: int, m: int)
    requires 0 <= v < m
    ensures v % m == v
  {}

  /** Writing back what was read leaves the buffer as it was. */
  method ReadThenWrite(buf: array<Byte>, n: nat)
    requires 1 <= n <= buf.Length
    modifies buf
    ensures buf[..] == old(buf[..])
  {
    var u := ReadUnsigned(buf, n);
    SmallMod(u, Modulus(n));
    DigitsOfValue(buf[..n]);
    ghost var before := buf[..];
    Write(buf, n, u);
    assert before == before[..n] + before[n..];
    assert buf[..] == buf[..n] + buf[n..];
  }
}
