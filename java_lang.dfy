/**
 * The parts of Java's integer and string semantics that the modelled code depends on:
 * 32-bit two's-complement wrap-around, Math.abs, the truncating `/` and `%` operators,
 * the truncating float-to-int cast and String.hashCode.
 */
module JavaLang {

  const TwoTo31: int := 0x8000_0000
  const TwoTo32: int := 0x1_0000_0000

  /** A Java `int`. */
  newtype int32 = x: int | -0x8000_0000 <= x < 0x8000_0000

  /** Integer.MIN_VALUE and Integer.MAX_VALUE. */
  const MinValue: int32 := -0x8000_0000
  const MaxValue: int32 := 0x7FFF_FFFF

  predicate InInt32Range(x: int) {
    -TwoTo31 <= x < TwoTo31
  }

  /** The Java `int` that an exact integer result wraps around to. */
  function Wrap(x: int): (r: int32)
    ensures (r as int - x) % TwoTo32 == 0
    ensures InInt32Range(x) ==> r as int == x
  {
    var u := x % TwoTo32;
    if u < TwoTo31 then u as int32 else (u - TwoTo32) as int32
  }

  /** Mathematical absolute value. */
  function IntAbs(x: int): (r: nat)
    ensures r == x || r == -x
  {
    if x < 0 then -x else x
  }

  /** Math.abs(int): the negation wraps, so the result is negative exactly for MIN_VALUE. */
  function Abs(x: int32): (r: int32)
    ensures r < 0 <==> x == MinValue
    ensures x != MinValue ==> r as int == IntAbs(x as int)
    ensures x == MinValue ==> r == MinValue
  {
    Wrap(IntAbs(x as int))
  }

  /** Java's `a % b` for a positive divisor: truncating division, so the remainder takes the sign of `a`. */
  function Rem(a: int, b: int): (r: int)
    requires b > 0
    ensures -b < r < b
    ensures a >= 0 ==> r == a % b
    ensures a <= 0 ==> r <= 0
  {
    if a >= 0 then a % b else -((-a) % b)
  }

  /** Java's `a / b` for a positive divisor: the quotient is rounded toward zero. */
  function Quot(a: int, b: int): (q: int)
    requires b > 0
    ensures q * b + Rem(a, b) == a
    ensures a >= 0 ==> q == a / b
  {
    if a >= 0 then a / b
    else
      var n := -a;
      assert n == (n / b) * b + n % b;
      -(n / b)
  }

  /** Java's `(int) f` cast of a float: the fraction is dropped, rounding toward zero. */
  function Truncate(f: real): (n: int)
    ensures IntAbs(n) as real <= (if f < 0.0 then -f else f)
    ensures (if f < 0.0 then -f else f) < IntAbs(n) as real + 1.0
    ensures f >= 0.0 ==> n >= 0
    ensures f <= 0.0 ==> n <= 0
  {
    if f >= 0.0 then f.Floor else -((-f).Floor)
  }

  /** The unsigned 32-bit word String.hashCode computes: h := 31 * h + c for each character, modulo 2^32. */
  function HashWord(s: string): (w: nat)
    ensures w < TwoTo32
  {
    if s == [] then 0 else (31 * HashWord(s[..|s| - 1]) + s[|s| - 1] as int) % TwoTo32
  }

  /** String.hashCode(). */
  function HashCode(s: string): int32 {
    Wrap(HashWord(s))
  }

  function Pow31(k: nat): (p: nat)
    ensures p >= 1
  {
    if k == 0 then 1 else 31 * Pow31(k - 1)
  }

  /** The documented value of String.hashCode before wrap-around: s[0]*31^(n-1) + ... + s[n-1]. */
  function Polynomial(s: string): int {
    if s == [] then 0 else s[0] as int * Pow31(|s| - 1) + Polynomial(s[1..])
  }

  lemma {:induction false} PolynomialAppend(s: string, c: char)
    ensures Polynomial(s + [c]) == 31 * Polynomial(s) + c as int
  {
    if s == [] {
      assert [c][1..] == [];
    } else {
      assert (s + [c])[1..] == s[1..] + [c];
      PolynomialAppend(s[1..], c);
      assert Pow31(|s|) == 31 * Pow31(|s| - 1);
      calc {
        Polynomial(s + [c]);
        s[0] as int * Pow31(|s|) + Polynomial(s[1..] + [c]);
        s[0] as int * (31 * Pow31(|s| - 1)) + 31 * Polynomial(s[1..]) + c as int;
        { assert s[0] as int * (31 * Pow31(|s| - 1)) == 31 * (s[0] as int * Pow31(|s| - 1)); }
        31 * (s[0] as int * Pow31(|s| - 1) + Polynomial(s[1..])) + c as int;
      }
    }
  }

  lemma ModOfLinear(p: int, c: int, m: int)
    requires m > 0
    ensures (31 * (p % m) + c) % m == (31 * p + c) % m
  {
    var q := p / m;
    assert p == q * m + p % m;
    assert 31 * p + c == (31 * (p % m) + c) + (31 * q) * m;
    ModAddMultiple(31 * (p % m) + c, 31 * q, m);
  }

  lemma ModAddMultiple(x: int, k: int, m: int)
    requires m > 0
    ensures (x + k * m) % m == x % m
  {
    var y := x + k * m;
    var d := (y / m) - (x / m + k);
    assert y == (y / m) * m + y % m;
    assert x == (x / m) * m + x % m;
    assert d * m == x % m - y % m by {
      assert (y / m) * m - (x / m + k) * m == d * m;
    }
    if d >= 1 {
      MulMonotone(d, m);
    } else if d <= -1 {
      MulMonotone(-d, m);
    }
  }

  lemma MulMonotone(d: int, m: int)
    requires d >= 1 && m > 0
    ensures d * m >= m
  {
    assert d * m - m == (d - 1) * m;
  }

  /** String.hashCode is the documented polynomial, reduced modulo 2^32. */
  lemma {:induction false} HashWordIsPolynomial(s: string)
    ensures HashWord(s) == Polynomial(s) % TwoTo32
  {
    if s != [] {
      var init, c := s[..|s| - 1], s[|s| - 1];
      assert s == init + [c];
      HashWordIsPolynomial(init);
      PolynomialAppend(init, c);
      ModOfLinear(Polynomial(init), c as int, TwoTo32);
    }
  }
}
