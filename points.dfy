/** Integer lattice points and the shift, multiply and remainder arithmetic
    that the chunk addressing uses, component by component. */
module Points {

  /** A point of the integer lattice. Points combined by one operation have
      the same dimension (the Rust code fixes it with the type parameter N). */
  type Point = seq<int>

  /** The range of a Rust `u8`, used for level indices and level deltas. */
  type U8 = x: int | 0 <= x < 256

  /** 2 to the power k. */
  function Pow2(k: nat): (r: int)
    ensures r >= 1
  {
    if k == 0 then 1 else 2 * Pow2(k - 1)
  }

  /** c is a positive power of two. */
  predicate IsPow2(c: int)
    ensures IsPow2(c) ==> c > 0
    decreases if c > 0 then c else 0
  {
    c == 1 || (c >= 2 && c % 2 == 0 && IsPow2(c / 2))
  }

  /** Division with remainder has only one answer. */
  lemma DivModUnique(x: int, m: int, q: int, r: int)
    requires m > 0 && 0 <= r < m && x == q * m + r
    ensures x / m == q && x % m == r
  {
    var q0, r0 := x / m, x % m;
    assert x == q0 * m + r0;
    if q > q0 {
      MulDistance(q, q0, m);
    } else if q < q0 {
      MulDistance(q0, q, m);
    }
  }

  lemma DivModIdentity(x: int, m: int)
    requires m > 0
    ensures x == (x / m) * m + x % m
  {
  }

  /** Two multiples of m that differ in the multiplier are at least m apart. */
  lemma MulDistance(a: int, b: int, m: int)
    requires a > b && m > 0
    ensures a * m - b * m >= m
  {
    MulAtLeast(a - b, m);
    assert a * m - b * m == (a - b) * m;
  }

  lemma {:induction false} MulAtLeast(d: int, m: int)
    requires d >= 1 && m > 0
    ensures d * m >= m
    decreases d
  {
    if d > 1 {
      MulAtLeast(d - 1, m);
      assert d * m == (d - 1) * m + m;
    }
  }

  /** Multiplying by a positive number keeps the order. */
  lemma MulMonotone(a: int, b: int, m: int)
    requires a <= b && m > 0
    ensures a * m <= b * m
  {
    if a < b {
      MulDistance(b, a, m);
    }
  }

  lemma {:induction false} Pow2Add(a: nat, b: nat)
    ensures Pow2(a + b) == Pow2(a) * Pow2(b)
  {
    if a > 0 {
      Pow2Add(a - 1, b);
    }
  }

  /** The number of trailing zero bits of a positive integer: the exponent of
      the largest power of two dividing it. */
  function TrailingZeros(c: int): (r: nat)
    requires c > 0
    ensures c % Pow2(r) == 0 && (c / Pow2(r)) % 2 == 1
  {
    if c % 2 == 1 then 0
    else
      var r' := TrailingZeros(c / 2);
      TrailingZerosStep(c, r');
      1 + r'
  }

  /** An even number has one more factor of two than its half. */
  lemma TrailingZerosStep(c: int, r: nat)
    requires c > 0 && c % 2 == 0
    requires (c / 2) % Pow2(r) == 0 && ((c / 2) / Pow2(r)) % 2 == 1
    ensures c % Pow2(r + 1) == 0 && (c / Pow2(r + 1)) % 2 == 1
  {
    var h, P := c / 2, Pow2(r);
    var m := h / P;
    DivModIdentity(h, P);
    DivModIdentity(c, 2);
    assert c == (m * P) * 2;
    assert (m * P) * 2 == m * (2 * P);
    DivModUnique(c, 2 * P, m, 0);
  }

  /** The trailing-zero count of a power of two is its base-2 logarithm. */
  lemma {:induction false} TrailingZerosOfPow2(c: int)
    requires IsPow2(c)
    ensures Pow2(TrailingZeros(c)) == c
  {
    if c != 1 {
      TrailingZerosOfPow2(c / 2);
    }
  }

  /** Arithmetic shift right: floor division by a power of two (Dafny's `/`
      floors for a positive divisor, as the sign-extending shift does). */
  function Shr(x: int, k: nat): int
  {
    x / Pow2(k)
  }

  /** Shift left: multiplication by a power of two (no 32-bit wrap-around). */
  function Shl(x: int, k: nat): int
  {
    x * Pow2(k)
  }

  predicate Positive(p: Point)
  {
    forall i :: 0 <= i < |p| ==> p[i] > 0
  }

  predicate NonNegative(p: Point)
  {
    forall i :: 0 <= i < |p| ==> p[i] >= 0
  }

  /** Every component is a positive power of two (the shape of a chunk). */
  predicate PowersOfTwo(p: Point)
    ensures PowersOfTwo(p) ==> Positive(p)
  {
    forall i :: 0 <= i < |p| ==> IsPow2(p[i])
  }

  /** Every component of `key` is a multiple of the matching component of
      `shape`: the key lies on the chunk grid. */
  predicate Aligned(key: Point, shape: Point)
    requires |key| == |shape| && Positive(shape)
  {
    forall i :: 0 <= i < |key| ==> key[i] % shape[i] == 0
  }

  /** The point with every component equal to c (`PointN::ONES * c`). */
  function Splat(n: nat, c: int): Point
  {
    seq(n, i => c)
  }

  function Add(p: Point, q: Point): Point
    requires |p| == |q|
  {
    seq(|p|, i requires 0 <= i < |p| => p[i] + q[i])
  }

  /** Component-wise `p >> k` with a point of shift amounts. */
  function ShrPoint(p: Point, k: Point): Point
    requires |p| == |k| && NonNegative(k)
  {
    seq(|p|, i requires 0 <= i < |p| => Shr(p[i], k[i]))
  }

  /** Component-wise `p << k` with a point of shift amounts. */
  function ShlPoint(p: Point, k: Point): Point
    requires |p| == |k| && NonNegative(k)
  {
    seq(|p|, i requires 0 <= i < |p| => Shl(p[i], k[i]))
  }

  /** `p >> k` with one shift amount for every component. */
  function ShrScalar(p: Point, k: nat): Point
  {
    seq(|p|, i requires 0 <= i < |p| => Shr(p[i], k))
  }

  /** `p << k` with one shift amount for every component. */
  function ShlScalar(p: Point, k: nat): Point
  {
    seq(|p|, i requires 0 <= i < |p| => Shl(p[i], k))
  }

  /** Component-wise remainder, taken as the non-negative (Euclidean) one. */
  function Rem(p: Point, m: Point): Point
    requires |p| == |m| && Positive(m)
  {
    seq(|p|, i requires 0 <= i < |p| => p[i] % m[i])
  }

  /** `map_components_unary(|c| c.trailing_zeros())` on a positive point. */
  function TrailingZerosPoint(p: Point): (r: Point)
    requires Positive(p)
    ensures |r| == |p| && NonNegative(r)
    ensures forall i :: 0 <= i < |p| ==> r[i] == TrailingZeros(p[i])
  {
    seq(|p|, i requires 0 <= i < |p| => TrailingZeros(p[i]) as int)
  }

  /** An axis-aligned box of lattice points: `minimum` up to, excluding,
      `minimum + shape` on every axis. */
  datatype Extent = Extent(minimum: Point, shape: Point)

  predicate Contains(e: Extent, p: Point)
  {
    |p| == |e.minimum| == |e.shape| &&
    forall i :: 0 <= i < |p| ==> e.minimum[i] <= p[i] < e.minimum[i] + e.shape[i]
  }
}
