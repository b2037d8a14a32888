/** Vectors and matrices over the reals as functions, finite sums, and the algebra the layers need. */
module Tensors {
  type Vec = nat -> real

  type Mat = (nat, nat) -> real

  function Sum(n: nat, f: Vec): real { if n == 0 then 0.0 else Sum(n - 1, f) + f(n - 1) }

  function Prod(a: Vec, b: Vec): Vec { (j: nat) => a(j) * b(j) }

  function Dot(n: nat, a: Vec, b: Vec): real { Sum(n, Prod(a, b)) }

  function Row(a: Mat, i: nat): Vec { (j: nat) => a(i, j) }

  function Col(a: Mat, j: nat): Vec { (i: nat) => a(i, j) }

  function Transposed(a: Mat): Mat { (i: nat, j: nat) => a(j, i) }

  function MatMul(n: nat, a: Mat, b: Mat): Mat { (i: nat, j: nat) => Dot(n, Row(a, i), Col(b, j)) }

  function Scaled(s: real, a: Mat): Mat { (i: nat, j: nat) => a(i, j) * s }

  function Minus(a: Mat, b: Mat): Mat { (i: nat, j: nat) => a(i, j) - b(i, j) }

  function Masked(a: Mat): Mat { (i: nat, j: nat) => if j <= i then a(i, j) else 0.0 }

  function Apply(n: nat, a: Mat, x: Vec): Vec { (i: nat) => Dot(n, Row(a, i), x) }

  ghost predicate Same(n: nat, a: Vec, b: Vec) { forall j | 0 <= j < n :: a(j) == b(j) }

  ghost predicate LowerTriangular(a: Mat) { forall i: nat, j: nat | i < j :: a(i, j) == 0.0 }

  ghost predicate SameMat(a: Mat, b: Mat) { forall i: nat, j: nat :: a(i, j) == b(i, j) }

  /** The matrices agree up to and including this row. */
  ghost predicate SameRows(a: Mat, b: Mat, i: nat) { forall r: nat, c: nat | r <= i :: a(r, c) == b(r, c) }

  // ---------- sums ----------

  lemma {:induction false} SumSame(n: nat, f: Vec, g: Vec)
    requires Same(n, f, g)
    ensures Sum(n, f) == Sum(n, g)
  {
    if n > 0 { SumSame(n - 1, f, g); }
  }

  /** A sum may stop where its terms have become zero. */
  lemma {:induction false} SumTail(m: nat, n: nat, f: Vec)
    requires m <= n && forall j: nat | m <= j < n :: f(j) == 0.0
    ensures Sum(n, f) == Sum(m, f)
  {
    if m < n { SumTail(m, n - 1, f); }
  }

  lemma {:induction false} SumZero(n: nat, f: Vec)
    requires forall j: nat | j < n :: f(j) == 0.0
    ensures Sum(n, f) == 0.0
  {
    SumTail(0, n, f);
  }

  /** Only one term counts. */
  lemma {:induction false} SumOne(n: nat, f: Vec, i: nat)
    requires i < n && forall j: nat | j < n && j != i :: f(j) == 0.0
    ensures Sum(n, f) == f(i)
  {
    SumTail(i + 1, n, f);
    SumZero(i, f);
  }

  /** A sum of a combination is the combination of the sums. */
  lemma {:induction false} SumLinear(n: nat, f: Vec, g: Vec, s: real, h: Vec)
    requires forall j: nat | j < n :: h(j) == f(j) + s * g(j)
    ensures Sum(n, h) == Sum(n, f) + s * Sum(n, g)
  {
    if n > 0 {
      SumLinear(n - 1, f, g, s, h);
      Distribute(s, Sum(n - 1, g), g(n - 1));
    }
  }

  lemma Distribute(s: real, x: real, y: real)
    ensures s * (x + y) == s * x + s * y
  {
  }

  lemma {:induction false} SumNonnegative(n: nat, f: Vec)
    requires forall j: nat | j < n :: f(j) >= 0.0
    ensures Sum(n, f) >= 0.0
    ensures Sum(n, f) == 0.0 ==> forall j: nat | j < n :: f(j) == 0.0
  {
    if n > 0 { SumNonnegative(n - 1, f); }
  }

  lemma DotSame(n: nat, a: Vec, b: Vec, c: Vec, d: Vec)
    requires Same(n, a, c) && Same(n, b, d)
    ensures Dot(n, a, b) == Dot(n, c, d)
  {
    SumSame(n, Prod(a, b), Prod(c, d));
  }

  // ---------- lower triangular matrices ----------

  lemma ProductIsTriangular(n: nat, a: Mat, b: Mat)
    requires LowerTriangular(a) && LowerTriangular(b)
    ensures LowerTriangular(MatMul(n, a, b))
  {
    forall i: nat, j: nat | i < j
      ensures MatMul(n, a, b)(i, j) == 0.0
    {
      SumZero(n, Prod(Row(a, i), Col(b, j)));
    }
  }

  /** Row i of a product with a lower triangular matrix needs only rows up to i of the other, whatever the size. */
  lemma TriangularRows(n: nat, n': nat, a: Mat, a': Mat, b: Mat, b': Mat, i: nat, c: nat)
    requires i < n && i < n' && LowerTriangular(a) && LowerTriangular(a') && SameRows(a, a', i) && SameRows(b, b', i)
    ensures MatMul(n, a, b)(i, c) == MatMul(n', a', b')(i, c)
  {
    TriangularEntry(n, a, b, i, c);
    TriangularEntry(n', a', b', i, c);
    var f, g := Prod(Row(a, i), Col(b, c)), Prod(Row(a', i), Col(b', c));
    forall j: nat | j < i + 1
      ensures f(j) == g(j)
    {
      assert a(i, j) == a'(i, j) && b(j, c) == b'(j, c);
    }
    SumSame(i + 1, f, g);
  }

  /** Nothing right of the diagonal contributes. */
  lemma TriangularEntry(n: nat, a: Mat, b: Mat, i: nat, c: nat)
    requires i < n && LowerTriangular(a)
    ensures MatMul(n, a, b)(i, c) == Sum(i + 1, Prod(Row(a, i), Col(b, c)))
  {
    var f := Prod(Row(a, i), Col(b, c));
    forall j: nat | i + 1 <= j < n
      ensures f(j) == 0.0
    {
      assert a(i, j) == 0.0;
    }
    SumTail(i + 1, n, f);
  }

  // ---------- products of products ----------

  lemma {:induction false} DotLinear(n: nat, a: Vec, f: Vec, g: Vec, s: real, h: Vec)
    requires forall j: nat | j < n :: h(j) == f(j) + s * g(j)
    ensures Dot(n, h, a) == Dot(n, f, a) + s * Dot(n, g, a)
  {
    forall j: nat | j < n
      ensures Prod(h, a)(j) == Prod(f, a)(j) + s * Prod(g, a)(j)
    {
      Spread(f(j), s, g(j), a(j));
    }
    SumLinear(n, Prod(f, a), Prod(g, a), s, Prod(h, a));
  }

  lemma Spread(f: real, s: real, g: real, a: real)
    ensures (f + s * g) * a == f * a + s * (g * a)
  {
  }

  /** The first `m` terms of row i of a product, as a row: sum over l below m of a(i, l) times row l of b. */
  function Partial(m: nat, a: Mat, b: Mat, i: nat): Vec { (j: nat) => Dot(m, Row(a, i), Col(b, j)) }

  /** (a b) v = a (b v), entry by entry. */
  lemma {:induction false} ProductAssociates(m: nat, n: nat, a: Mat, b: Mat, v: Mat, i: nat, c: nat)
    ensures Dot(n, Partial(m, a, b, i), Col(v, c)) == Dot(m, Row(a, i), Col(MatMul(n, b, v), c))
  {
    if m == 0 {
      SumZero(n, Prod(Partial(m, a, b, i), Col(v, c)));
    } else {
      ProductAssociates(m - 1, n, a, b, v, i, c);
      forall j: nat | j < n
        ensures Partial(m, a, b, i)(j) == Partial(m - 1, a, b, i)(j) + a(i, m - 1) * Row(b, m - 1)(j)
      {
      }
      DotLinear(n, Col(v, c), Partial(m - 1, a, b, i), Row(b, m - 1), a(i, m - 1), Partial(m, a, b, i));
    }
  }
}
