/**
 * Go's fixed-width integer semantics written out over Dafny's unbounded `int`:
 * two's-complement wrap-around of int64/uint64/uint32 arithmetic and conversions,
 * and Go's `/` and `%`, which truncate toward zero (Dafny's are Euclidean).
 */
module GoInt {
  const TwoTo32: int := 0x1_0000_0000
  const TwoTo63: int := 0x8000_0000_0000_0000
  const TwoTo64: int := 0x1_0000_0000_0000_0000
  const MinInt64: int := -TwoTo63
  const MaxInt64: int := TwoTo63 - 1

  predicate IsInt64(x: int) { MinInt64 <= x <= MaxInt64 }
  predicate IsUint64(x: int) { 0 <= x < TwoTo64 }

  function Abs(x: int): nat { if x < 0 then -x else x }

  /** The int64 value an int64 operation yields when its exact result is `x`. */
  function Wrap64(x: int): (r: int)
    ensures IsInt64(r)
    ensures IsInt64(x) ==> r == x
  {
    (x + 0x8000_0000_0000_0000) % 0x1_0000_0000_0000_0000 - 0x8000_0000_0000_0000
  }

  /** The uint64 value of a uint64 operation or an `uint64(x)` conversion. */
  function WrapU64(x: int): (r: int)
    ensures IsUint64(r)
    ensures IsUint64(x) ==> r == x
  {
    x % 0x1_0000_0000_0000_0000
  }

  /** `uint32(x)` */
  function WrapU32(x: int): (r: int)
    ensures 0 <= r < TwoTo32
    ensures 0 <= x < TwoTo32 ==> r == x
  {
    x % 0x1_0000_0000
  }

  /** Each wrap differs from the exact value by a whole number of turns of its width. */
  lemma WrapCongruent(x: int)
    ensures (x - Wrap64(x)) % TwoTo64 == 0
    ensures (x - WrapU64(x)) % TwoTo64 == 0
    ensures (x - WrapU32(x)) % TwoTo32 == 0
  {
    var k := (x + TwoTo63) / TwoTo64;
    assert x - Wrap64(x) == k * TwoTo64;
    MultipleMod(k, TwoTo64);
    var j := x / TwoTo64;
    assert x - WrapU64(x) == j * TwoTo64;
    MultipleMod(j, TwoTo64);
    var i := x / TwoTo32;
    assert x - WrapU32(x) == i * TwoTo32;
    MultipleMod(i, TwoTo32);
  }

  /** Wrapping after every step is the same as wrapping once at the end. */
  lemma Wrap64Add(a: int, b: int)
    ensures Wrap64(Wrap64(a) + b) == Wrap64(a + b)
  {
    var k := (a + TwoTo63) / TwoTo64;
    assert Wrap64(a) == a - k * TwoTo64;
    ModShift(a + b + TwoTo63, -k);
  }

  /** `int64(uint64(x))` gives back every int64. */
  lemma SignedUnsignedRoundTrip(x: int)
    requires IsInt64(x)
    ensures Wrap64(WrapU64(x)) == x
  {
    if x < 0 {
      assert WrapU64(x) == x + TwoTo64;
      ModShift(x + TwoTo63, 1);
    }
  }

  lemma ModShift(x: int, k: int)
    ensures (x + k * TwoTo64) % TwoTo64 == x % TwoTo64
  {
  }

  /** Go's `a / b` for a positive divisor: the quotient truncated toward zero. */
  function Quo(a: int, b: int): (q: int)
    requires b > 0
    ensures Abs(a - b * q) < b
    ensures a >= 0 ==> 0 <= a - b * q
    ensures a <= 0 ==> a - b * q <= 0
  {
    if a >= 0 then a / b else -((-a) / b)
  }

  /** Go's `a % b` for a positive divisor: the remainder takes the dividend's sign. */
  function Rem(a: int, b: int): (r: int)
    requires b > 0
    ensures r == a - b * Quo(a, b)
    ensures -b < r < b
  {
    if a >= 0 then a % b else -((-a) % b)
  }

  /** On non-negative operands Go's and Dafny's division agree. */
  lemma QuoNonNegative(a: int, b: int)
    requires a >= 0 && b > 0
    ensures Quo(a, b) == a / b && Rem(a, b) == a % b
  {
  }

  /** A multiple of a positive number leaves no Euclidean remainder. */
  lemma MultipleMod(k: int, m: int)
    requires m > 0
    ensures (m * k) % m == 0 && (m * k) / m == k
  {
    var x := m * k;
    var q, r := x / m, x % m;
    assert x == m * q + r && 0 <= r < m;
    assert m * (k - q) == r;
    if k - q >= 1 {
      MulAtLeast(m, k - q);
    } else if k - q <= -1 {
      MulAtLeast(m, q - k);
    }
  }

  lemma MulAtLeast(m: int, j: int)
    requires m > 0 && j >= 1
    ensures m * j >= m
  {
  }

  /** Products of non-negative factors grow with each factor. */
  lemma MulBounded(a: int, b: int, x: int, y: int)
    requires 0 <= a <= x && 0 <= b <= y
    ensures 0 <= a * b <= x * y
  {
    assert a * b <= a * y;
    assert a * y <= x * y;
  }

  /** Floored division by a positive number is monotone. */
  lemma DivMonotone(a: int, b: int, d: int)
    requires 0 <= a <= b && d > 0
    ensures a / d <= b / d
  {
    var qa, qb := a / d, b / d;
    if qa > qb {
      assert d * qa <= a;
      assert d * (qb + 1) <= d * qa by { MulBounded(d, qb + 1, d, qa); }
    }
  }

  /** The quotient of a number lying within one run of `d` multiples. */
  lemma DivRange(x: int, d: int, q: int)
    requires d > 0 && d * q <= x < d * (q + 1)
    ensures x / d == q
  {
    var p := x / d;
    assert d * p <= x < d * p + d;
    assert d * (p - q) == d * p - d * q;
    if p - q >= 1 {
      MulAtLeast(d, p - q);
    } else if q - p >= 1 {
      MulAtLeast(d, q - p);
    }
  }
}
