/**
 * 64-bit floating point as far as programs can see it: the representable numbers, infinities and
 * NaN, with every operation rounded. The sign of zero is left out; how a number is printed and
 * divided are parameters.
 */
module ChimeraFloats {
  datatype F64 = Finite(r: real) | Infinite(negative: bool) | NaN

  /** What the hardware and the formatter do: `round` is the float nearest to a real. */
  datatype Floats = Floats(show: F64 -> string, round: real -> F64, div: (F64, F64) -> F64)

  const EPSILON: real := 1.0 / 4503599627370496.0

  function Size(x: real): real { if x < 0.0 then 0.0 - x else x }

  function Pow2(k: nat): (p: int)
    ensures p > 0
  {
    if k == 0 then 1 else 2 * Pow2(k - 1)
  }

  /** How many times `x` has a `p`-th. */
  function Units(x: real, p: int): real { x * p as real }

  /** `x` is `m` times the `k`-th power of two. */
  predicate Dyadic(x: real, m: int, k: int) {
    if k >= 0 then x == (m * Pow2(k)) as real else Units(x, Pow2(-k)) == m as real
  }

  /** 53 bits of mantissa, and the exponents of normal and subnormal numbers. */
  ghost predicate Representable(x: real) {
    exists m: int, k: int :: Dyadic(x, m, k) && -0x20_0000_0000_0000 < m < 0x20_0000_0000_0000 && -1074 <= k <= 971
  }

  predicate Leq(x: F64, y: F64) {
    match (x, y)
    case (Finite(a), Finite(b)) => a <= b
    case (Infinite(n), Infinite(m)) => n || !m
    case (Infinite(n), Finite(_)) => n
    case (Finite(_), Infinite(m)) => !m
    case _ => false
  }

  predicate LessThan(x: F64, y: F64) { Leq(x, y) && x != y }

  function Negated(x: F64): F64 {
    match x
    case Finite(a) => Finite(0.0 - a)
    case Infinite(n) => Infinite(!n)
    case NaN => NaN
  }

  /** Rounding keeps what is representable, never reverses an order, and treats both signs alike. */
  ghost predicate Rounds(fl: Floats) {
    && (forall x :: Representable(x) ==> fl.round(x) == Finite(x))
    && (forall x, y :: x <= y ==> Leq(fl.round(x), fl.round(y)))
    && (forall x, y :: y == 0.0 - x ==> fl.round(y) == Negated(fl.round(x)))
    && (forall x :: fl.round(x).Finite? ==> Representable(fl.round(x).r))
  }

  // ---------- operations ----------

  function Sum(x: F64, y: F64, fl: Floats): F64 {
    match (x, y)
    case (Finite(a), Finite(b)) => fl.round(a + b)
    case (Infinite(n), Infinite(m)) => if n == m then x else NaN
    case (Infinite(_), Finite(_)) => x
    case (Finite(_), Infinite(_)) => y
    case _ => NaN
  }

  function Difference(x: F64, y: F64, fl: Floats): F64 {
    match (x, y)
    case (Finite(a), Finite(b)) => fl.round(a - b)
    case _ => Sum(x, Negated(y), fl)
  }

  function Times(a: real, b: real): real { a * b }

  function Product(x: F64, y: F64, fl: Floats): F64 {
    match (x, y)
    case (Finite(a), Finite(b)) => fl.round(Times(a, b))
    case (Infinite(n), Infinite(m)) => Infinite(n != m)
    case (Infinite(n), Finite(b)) => if b == 0.0 then NaN else Infinite(n != (b < 0.0))
    case (Finite(a), Infinite(m)) => if a == 0.0 then NaN else Infinite(m != (a < 0.0))
    case _ => NaN
  }

  /** `(x - y).abs() < EPSILON`. */
  predicate Close(x: F64, y: F64, fl: Floats) {
    var d := Difference(x, y, fl);
    d.Finite? && Size(d.r) < EPSILON
  }

  // ---------- representable numbers ----------

  lemma {:induction false} Pow2Adds(a: nat, b: nat)
    ensures Pow2(a + b) == Pow2(a) * Pow2(b)
  {
    if a > 0 {
      Pow2Adds(a - 1, b);
      assert Pow2(a) * Pow2(b) == 2 * (Pow2(a - 1) * Pow2(b));
    }
  }

  predicate Whole(x: real) { x == x.Floor as real }

  /** A representable number of at least `2^52` units of `2^-n` is a whole number of them. */
  lemma OnGrid(x: real, n: nat)
    requires Representable(x) && Size(Units(x, Pow2(n))) >= 4503599627370496.0
    ensures Whole(Units(x, Pow2(n)))
  {
    var m: int, k: int :| Dyadic(x, m, k) && -0x20_0000_0000_0000 < m < 0x20_0000_0000_0000 && -1074 <= k <= 971;
    if k >= 0 {
      WholeProduct(x, m * Pow2(k), Pow2(n));
    } else if -k <= n {
      FinerGrid(x, m, -k, n);
    } else {
      CoarserGrid(x, m, -k, n);
    }
  }

  lemma FinerGrid(x: real, m: int, j: nat, n: nat)
    requires Units(x, Pow2(j)) == m as real && j <= n
    ensures Whole(Units(x, Pow2(n)))
  {
    Pow2Adds(j, n - j);
    Rescaled(x, Pow2(j), Pow2(n - j), Pow2(n), m);
  }

  lemma CoarserGrid(x: real, m: int, j: nat, n: nat)
    requires Units(x, Pow2(j)) == m as real && j > n && -0x20_0000_0000_0000 < m < 0x20_0000_0000_0000
    ensures Size(Units(x, Pow2(n))) < 4503599627370496.0
  {
    Pow2Adds(n, j - n);
    TooSmall(x, Pow2(n), Pow2(j - n), Pow2(j), m);
  }

  lemma WholeProduct(x: real, m: int, p: int)
    requires x == m as real
    ensures Whole(Units(x, p))
  {
    var w := m * p;
    assert Units(x, p) == w as real;
  }

  lemma Rescaled(x: real, p: int, q: int, r: int, m: int)
    requires Units(x, p) == m as real && r == p * q
    ensures Whole(Units(x, r))
  {
    var w := m * q;
    assert x * (p * q) as real == (x * p as real) * q as real;
    assert Units(x, r) == w as real;
  }

  lemma TooSmall(x: real, p: int, q: int, r: int, m: int)
    requires p > 0 && q > 1 && r == p * q && Units(x, r) == m as real && -0x20_0000_0000_0000 < m < 0x20_0000_0000_0000
    ensures Size(Units(x, p)) < 4503599627370496.0
  {
    var y := Units(x, p);
    assert x * (p * q) as real == y * q as real;
    Doubled(y, q, m);
  }

  lemma Doubled(y: real, q: int, m: int)
    requires q > 1 && y * q as real == m as real && -0x20_0000_0000_0000 < m < 0x20_0000_0000_0000
    ensures Size(y) < 4503599627370496.0
  {
    if y >= 0.0 {
      assert y * q as real >= y * 2.0;
    } else {
      assert (0.0 - y) * q as real >= (0.0 - y) * 2.0;
      assert (0.0 - y) * q as real == 0.0 - y * q as real;
    }
  }

  /** Fifty-three bits on any grid of unit `2^-n` are representable. */
  lemma GridRepresentable(x: real, m: int, n: nat)
    requires Units(x, Pow2(n)) == m as real && n <= 1074 && -0x20_0000_0000_0000 < m < 0x20_0000_0000_0000
    ensures Representable(x)
  {
    if n == 0 {
      assert Dyadic(x, m, 0);
    } else {
      assert Dyadic(x, m, 0 - n);
    }
  }

  /** So is one unit more, a power of two. */
  lemma GridEnd(x: real, m: int, n: nat)
    requires Units(x, Pow2(n)) == m as real && 0 < n <= 1074 && -0x20_0000_0000_0000 <= m <= 0x20_0000_0000_0000
    ensures Representable(x)
  {
    if m == 0x20_0000_0000_0000 || m == -0x20_0000_0000_0000 {
      var p := Pow2(n - 1);
      assert Units(x, Pow2(n)) == 2.0 * Units(x, p);
      GridRepresentable(x, m / 2, n - 1);
    } else {
      GridRepresentable(x, m, n);
    }
  }

  // ---------- what is close ----------

  const U53: real := 9007199254740992.0

  lemma Powers()
    ensures Pow2(52) == 4503599627370496 && Pow2(53) == 9007199254740992 && Pow2(54) == 18014398509481984
  {
    assert Pow2(4) == 16;
    Pow2Adds(4, 4);
    Pow2Adds(8, 8);
    Pow2Adds(16, 16);
    Pow2Adds(32, 16);
    Pow2Adds(48, 4);
  }

  /** A difference of `d` units of `2^-53`, if two is an epsilon. */
  lemma GridPoint(x: real, m: int)
    requires x * U53 == m as real && -0x20_0000_0000_0000 <= m <= 0x20_0000_0000_0000
    ensures Representable(x)
  {
    Powers();
    GridEnd(x, m, 53);
  }

  lemma RoundKeeps(x: real, m: int, fl: Floats)
    requires Rounds(fl) && x * U53 == m as real && -0x20_0000_0000_0000 <= m <= 0x20_0000_0000_0000
    ensures fl.round(x) == Finite(x)
  {
    GridPoint(x, m);
  }

  /** Close floats are less than an epsilon apart. */
  lemma CloseIsNear(x: real, y: real, fl: Floats)
    requires Rounds(fl) && Close(Finite(x), Finite(y), fl)
    ensures Size(x - y) < EPSILON
  {
    RoundKeeps(EPSILON, 2, fl);
    RoundKeeps(0.0 - EPSILON, -2, fl);
    var d := x - y;
    assert d >= EPSILON ==> Leq(fl.round(EPSILON), fl.round(d));
    assert d <= 0.0 - EPSILON ==> Leq(fl.round(d), fl.round(0.0 - EPSILON));
  }

  /** Floats no more than three quarters of an epsilon apart are close. */
  lemma NearIsClose(x: real, y: real, fl: Floats)
    requires Rounds(fl) && Size(x - y) <= 0.75 * EPSILON
    ensures Close(Finite(x), Finite(y), fl)
  {
    var e := 0.75 * EPSILON;
    Powers();
    GridRepresentable(e, 3, 54);
    GridRepresentable(0.0 - e, -3, 54);
    assert Leq(fl.round(x - y), fl.round(e)) && Leq(fl.round(0.0 - e), fl.round(x - y));
  }

  /** Numbers of at least a half are a whole number of half epsilons. */
  lemma HalfUnits(x: real) returns (w: int)
    requires Representable(x) && Size(x) >= 0.5
    ensures x * U53 == w as real
  {
    Powers();
    assert Units(x, Pow2(53)) == x * U53;
    OnGrid(x, 53);
    w := (x * U53).Floor;
  }

  /** And those of at least one a whole number of epsilons. */
  lemma WholeUnits(x: real) returns (v: int)
    requires Representable(x) && Size(x) >= 1.0
    ensures x * U53 == (2 * v) as real
  {
    Powers();
    assert Units(x, Pow2(52)) == x * U53 / 2.0;
    OnGrid(x, 52);
    v := (x * U53 / 2.0).Floor;
  }

  /** From one upward no two floats are less than an epsilon apart, but for one and its neighbour below. */
  lemma NearFromOne(x: real, y: real)
    requires Representable(x) && Representable(y) && Size(y) >= 1.0 && Size(x - y) < EPSILON
    ensures x == y || (Size(y) == 1.0 && x == y - y * EPSILON / 2.0)
  {
    NotSmall(x, y);
    var v := WholeUnits(y);
    if Size(x) >= 1.0 {
      var u := WholeUnits(x);
      SameUnits(x, y, u, v);
    } else {
      var w := HalfUnits(x);
      NextUnits(x, y, w, v);
    }
  }

  lemma NotSmall(x: real, y: real)
    requires Size(y) >= 1.0 && Size(x - y) < EPSILON
    ensures Size(x) >= 0.5
  {
  }

  lemma SameUnits(x: real, y: real, u: int, v: int)
    requires x * U53 == (2 * u) as real && y * U53 == (2 * v) as real && Size(x - y) < EPSILON
    ensures x == y
  {
    assert -1 < u - v < 1;
  }

  lemma NextUnits(x: real, y: real, w: int, v: int)
    requires x * U53 == w as real && y * U53 == (2 * v) as real && Size(x) < 1.0 <= Size(y) && Size(x - y) < EPSILON
    ensures Size(y) == 1.0 && x == y - y * EPSILON / 2.0
  {
    assert -2 < w - 2 * v < 2;
  }

  lemma EpsilonApart(x: real, y: real, m: int, fl: Floats)
    requires Rounds(fl) && x * U53 == m as real && y * U53 == (m + 2) as real
    ensures !Close(Finite(x), Finite(y), fl)
  {
    assert x - y == 0.0 - EPSILON;
    RoundKeeps(x - y, -2, fl);
  }

  /** Two whole numbers of half epsilons, two apart, no more than three quarters of an epsilon off on either side. */
  lemma UnitsAround(b: real) returns (m: int)
    requires Representable(b) && Size(b) < 1.0
    ensures -0x20_0000_0000_0000 <= m && m + 2 <= 0x20_0000_0000_0000
    ensures Size(m as real / U53 - b) <= 0.75 * EPSILON && Size(b - (m + 2) as real / U53) <= 0.75 * EPSILON
  {
    var k := (b * U53 * 2.0).Floor;
    if Size(b) >= 0.5 {
      var w := HalfUnits(b);
      assert b * U53 * 2.0 == (2 * w) as real && k == 2 * w;
    }
    m := if k % 2 == 0 then k / 2 - 1 else (k - 1) / 2;
  }

  /** Below one every float has two others close to it that are not close to each other. */
  lemma ApartAround(b: real, fl: Floats) returns (x: real, y: real)
    requires Rounds(fl) && Representable(b) && Size(b) < 1.0
    ensures Representable(x) && Representable(y)
    ensures Close(Finite(x), Finite(b), fl) && Close(Finite(b), Finite(y), fl) && !Close(Finite(x), Finite(y), fl)
  {
    var m := UnitsAround(b);
    x, y := m as real / U53, (m + 2) as real / U53;
    GridPoint(x, m);
    GridPoint(y, m + 2);
    NearIsClose(x, b, fl);
    NearIsClose(b, y, fl);
    EpsilonApart(x, y, m, fl);
  }

  // ---------- closeness ----------

  lemma CloseIsSymmetric(x: F64, y: F64, fl: Floats)
    requires Rounds(fl)
    ensures Close(x, y, fl) == Close(y, x, fl)
  {
    if x.Finite? && y.Finite? {
      var d, e := x.r - y.r, y.r - x.r;
      assert fl.round(e) == Negated(fl.round(d));
    }
  }

  /** Only finite numbers are close to any. */
  lemma CloseFinite(x: F64, y: F64, fl: Floats)
    requires Close(x, y, fl)
    ensures x.Finite? && y.Finite?
  {
  }

  lemma CloseToItself(x: F64, fl: Floats)
    requires Rounds(fl)
    ensures Close(x, x, fl) <==> x.Finite?
  {
    RoundKeeps(0.0, 0, fl);
    NoDifference(x, fl);
  }

  lemma NoDifference(x: F64, fl: Floats)
    ensures Difference(x, x, fl) == if x.Finite? then fl.round(0.0) else NaN
  {
    if x.Finite? { assert x.r - x.r == 0.0; }
  }

  /** An integer other than 0 is converted to a number of size at least 1, if to a finite one. */
  lemma RoundedInteger(n: int, fl: Floats)
    requires Rounds(fl)
    ensures n == 0 ==> fl.round(n as real) == Finite(0.0)
    ensures n != 0 && fl.round(n as real).Finite? ==> Size(fl.round(n as real).r) >= 1.0
  {
    RoundKeeps(0.0, 0, fl);
    RoundKeeps(1.0, 0x20_0000_0000_0000, fl);
    RoundKeeps(-1.0, -0x20_0000_0000_0000, fl);
    assert n >= 1 ==> Leq(fl.round(1.0), fl.round(n as real));
    assert n <= -1 ==> Leq(fl.round(n as real), fl.round(-1.0));
  }

  /** From one upward closeness is transitive. */
  lemma CloseThrough(x: F64, y: F64, z: F64, fl: Floats)
    requires Rounds(fl) && Close(x, y, fl) && Close(y, z, fl)
    requires x.Finite? ==> Representable(x.r)
    requires z.Finite? ==> Representable(z.r)
    requires y.Finite? ==> Representable(y.r) && Size(y.r) >= 1.0
    ensures Close(x, z, fl)
  {
    CloseFinite(x, y, fl);
    CloseFinite(y, z, fl);
    CloseIsNear(x.r, y.r, fl);
    CloseIsSymmetric(y, z, fl);
    CloseIsNear(z.r, y.r, fl);
    NearFromOne(x.r, y.r);
    NearFromOne(z.r, y.r);
    NearIsClose(x.r, z.r, fl);
  }
}
