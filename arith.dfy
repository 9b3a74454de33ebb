// Integer helpers shared by the model: the minimum of two counts, the sum of a
// sequence of counts, Rust's truncating signed division, and the
// reinterpretation of a signed value as an unsigned 32-bit word.
module Arith {

  /** 2^32: the number of values of Rust's `u32`. */
  const U32Modulus: nat := 0x1_0000_0000

  function Min(a: nat, b: nat): (r: nat)
    ensures r <= a && r <= b
    ensures r == a || r == b
  {
    if a <= b then a else b
  }

  /** Sum of a sequence, peeled from the back so that it grows with the loops that fill it. */
  function Sum(s: seq<nat>): nat
  {
    if s == [] then 0 else Sum(s[..|s| - 1]) + s[|s| - 1]
  }

  lemma SumSnoc(s: seq<nat>, x: nat)
    ensures Sum(s + [x]) == Sum(s) + x
  {
    assert (s + [x])[..|s|] == s;
  }

  /** Extending a prefix by one element adds that element to its sum. */
  lemma SumTake(s: seq<nat>, p: nat)
    requires p < |s|
    ensures Sum(s[..p + 1]) == Sum(s[..p]) + s[p]
  {
    assert s[..p + 1] == s[..p] + [s[p]];
    SumSnoc(s[..p], s[p]);
  }

  /** A prefix never sums to more than the whole sequence. */
  lemma {:induction false} SumPrefix(s: seq<nat>, p: nat)
    requires p <= |s|
    ensures Sum(s[..p]) <= Sum(s)
    decreases |s|
  {
    if p < |s| {
      var k := |s| - 1;
      assert s[..k][..p] == s[..p];
      SumPrefix(s[..k], p);
    } else {
      assert s[..p] == s;
    }
  }

  /** Truncating division of naturals: the quotient times the divisor stays within one divisor below the dividend. */
  lemma DivBounds(x: nat, d: nat)
    requires d > 0
    ensures (x / d) * d <= x < (x / d) * d + d
  {
  }

  lemma MulMonotone(a: int, b: int, d: nat)
    requires a <= b
    ensures a * d <= b * d
  {
    assert b * d - a * d == (b - a) * d;
  }

  /** A larger dividend never gives a smaller quotient. */
  lemma DivMonotone(x: nat, y: nat, d: nat)
    requires d > 0 && x <= y
    ensures x / d <= y / d
  {
    DivBounds(x, d);
    DivBounds(y, d);
    if y / d < x / d {
      MulMonotone(y / d + 1, x / d, d);
    }
  }

  /** Taking a percentage no greater than 100 of `x`, truncated, never exceeds `x`. */
  lemma PercentAtMost(x: nat, pct: nat)
    requires pct <= 100
    ensures x * pct / 100 <= x
  {
    assert x * pct <= x * 100;
    DivMonotone(x * pct, x * 100, 100);
  }

  /** Rust's `/` on signed integers: the quotient is truncated toward zero,
      unlike Dafny's Euclidean `/`, which rounds negative quotients down. */
  function TruncDiv(a: int, d: nat): (q: int)
    requires d > 0
    ensures 0 <= a ==> 0 <= q && q * d <= a < q * d + d
    ensures a <= 0 ==> q <= 0 && q * d - d < a <= q * d
  {
    if a >= 0 then a / d else -((-a) / d)
  }

  /** Rust's `x as u32` on a signed value, and `+` on `u32` as a release build computes it
      (overflow checks off, so the sum wraps): the value modulo 2^32. */
  function AsU32(x: int): (r: nat)
    ensures r < U32Modulus
    ensures 0 <= x < U32Modulus ==> r == x
    ensures x < 0 && 0 <= x + U32Modulus ==> r == x + U32Modulus
    ensures U32Modulus <= x < 2 * U32Modulus ==> r == x - U32Modulus
  {
    x % U32Modulus
  }
}
