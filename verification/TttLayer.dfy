/**
 * The test-time-training layer over the reals: the parallel prefill is causal, and one decode step
 * contracts the reconstruction error by an exact factor.
 */
module TttLayer {
  import opened Blocks
  import opened Tensors

  // ---------- heads ----------

  /** Head-major view: column c of head h is column h * D + c. */
  function SplitHead(x: Mat, d: nat, h: nat): Mat { (t: nat, c: nat) => x(t, h * d + c) }

  function MergeHeads(heads: nat -> Mat, d: nat): Mat
    requires d > 0
  {
    (t: nat, c: nat) => heads(c / d)(t, c % d)
  }

  function Heads(x: Mat, d: nat): nat -> Mat { (h: nat) => SplitHead(x, d, h) }

  /** Splitting into heads and merging are inverse to each other, on every column of every head and on every column of the model. */
  lemma SplitMergeInverse(x: Mat, y: nat -> Mat, d: nat, t: nat)
    requires d > 0
    ensures forall h: nat, c: nat | c < d :: SplitHead(MergeHeads(y, d), d, h)(t, c) == y(h)(t, c)
    ensures forall c: nat :: MergeHeads(Heads(x, d), d)(t, c) == x(t, c)
  {
    forall h: nat, c: nat | c < d
      ensures SplitHead(MergeHeads(y, d), d, h)(t, c) == y(h)(t, c)
    {
      BlockOffset(d, h, c);
    }
    forall c: nat
      ensures MergeHeads(Heads(x, d), d)(t, c) == x(t, c)
    {
      ColumnOfItsHead(d, c);
    }
  }

  /** Every column is the one at its offset in its head. */
  lemma ColumnOfItsHead(d: nat, c: nat)
    requires d > 0
    ensures (c / d) * d + c % d == c
  {
  }

  // ---------- prefill ----------

  datatype Layer = Layer(dim: nat, heads: nat, wq: Mat, wk: Mat, wv: Mat, wo: Mat, eta: real)

  /** A linear layer without bias on each row. */
  function Project(n: nat, w: Mat, x: Mat): Mat { MatMul(n, x, Transposed(w)) }

  function Gram(d: nat, k: Mat, eta: real): Mat { Masked(Scaled(eta, MatMul(d, k, Transposed(k)))) }

  function Logits(d: nat, q: Mat, k: Mat): Mat { Masked(MatMul(d, q, Transposed(k))) }

  function Effective(t: nat, d: nat, q: Mat, k: Mat, eta: real): Mat {
    Minus(Logits(d, q, k), MatMul(t, Gram(d, k, eta), Logits(d, q, k)))
  }

  function HeadOutput(t: nat, d: nat, q: Mat, k: Mat, v: Mat, eta: real): Mat {
    MatMul(t, Effective(t, d, q, k, eta), v)
  }

  function HeadOf(l: Layer, t: nat, x: Mat, h: nat): Mat {
    var n := l.heads * l.dim;
    HeadOutput(t, l.dim, SplitHead(Project(n, l.wq, x), l.dim, h), SplitHead(Project(n, l.wk, x), l.dim, h),
               SplitHead(Project(n, l.wv, x), l.dim, h), l.eta)
  }

  function HeadsOf(l: Layer, t: nat, x: Mat): nat -> Mat { (h: nat) => HeadOf(l, t, x, h) }

  /** The prefill of the first `t` tokens of `x`. */
  function Prefill(l: Layer, t: nat, x: Mat): Mat
    requires l.dim > 0
  {
    Project(l.heads * l.dim, l.wo, MergeHeads(HeadsOf(l, t, x), l.dim))
  }

  lemma GramCausal(d: nat, k: Mat, k': Mat, eta: real, i: nat)
    requires SameRows(k, k', i)
    ensures LowerTriangular(Gram(d, k, eta)) && LowerTriangular(Gram(d, k', eta)) && SameRows(Gram(d, k, eta), Gram(d, k', eta), i)
  {
    forall r: nat, c: nat | r <= i
      ensures Gram(d, k, eta)(r, c) == Gram(d, k', eta)(r, c)
    {
      if c <= r { DotSame(d, Row(k, r), Col(Transposed(k), c), Row(k', r), Col(Transposed(k'), c)); }
    }
  }

  lemma LogitsCausal(d: nat, q: Mat, k: Mat, q': Mat, k': Mat, i: nat)
    requires SameRows(q, q', i) && SameRows(k, k', i)
    ensures LowerTriangular(Logits(d, q, k)) && LowerTriangular(Logits(d, q', k')) && SameRows(Logits(d, q, k), Logits(d, q', k'), i)
  {
    forall r: nat, c: nat | r <= i
      ensures Logits(d, q, k)(r, c) == Logits(d, q', k')(r, c)
    {
      if c <= r { DotSame(d, Row(q, r), Col(Transposed(k), c), Row(q', r), Col(Transposed(k'), c)); }
    }
  }

  /** The masked Gram matrix times the masked logits stays lower triangular, and so do the effective weights. */
  lemma EffectiveCausal(t: nat, t': nat, d: nat, q: Mat, k: Mat, q': Mat, k': Mat, eta: real, i: nat)
    requires i < t && i < t' && SameRows(q, q', i) && SameRows(k, k', i)
    ensures LowerTriangular(Effective(t, d, q, k, eta)) && LowerTriangular(Effective(t', d, q', k', eta))
    ensures SameRows(Effective(t, d, q, k, eta), Effective(t', d, q', k', eta), i)
  {
    var g, l, g', l' := Gram(d, k, eta), Logits(d, q, k), Gram(d, k', eta), Logits(d, q', k');
    GramCausal(d, k, k', eta, i);
    LogitsCausal(d, q, k, q', k', i);
    ProductIsTriangular(t, g, l);
    ProductIsTriangular(t', g', l');
    forall r: nat, c: nat | r <= i
      ensures MatMul(t, g, l)(r, c) == MatMul(t', g', l')(r, c)
    {
      TriangularRows(t, t', g, g', l, l', r, c);
    }
  }

  lemma ProjectRows(n: nat, w: Mat, x: Mat, x': Mat, i: nat)
    requires SameRows(x, x', i)
    ensures SameRows(Project(n, w, x), Project(n, w, x'), i)
  {
    forall r: nat, c: nat | r <= i
      ensures Project(n, w, x)(r, c) == Project(n, w, x')(r, c)
    {
      DotSame(n, Row(x, r), Col(Transposed(w), c), Row(x', r), Col(Transposed(w), c));
    }
  }

  lemma HeadCausal(t: nat, t': nat, d: nat, q: Mat, k: Mat, v: Mat, q': Mat, k': Mat, v': Mat, eta: real, i: nat, c: nat)
    requires i < t && i < t' && SameRows(q, q', i) && SameRows(k, k', i) && SameRows(v, v', i)
    ensures HeadOutput(t, d, q, k, v, eta)(i, c) == HeadOutput(t', d, q', k', v', eta)(i, c)
  {
    EffectiveCausal(t, t', d, q, k, q', k', eta, i);
    TriangularRows(t, t', Effective(t, d, q, k, eta), Effective(t', d, q', k', eta), v, v', i, c);
  }

  /**
   * What the effective weights compute: plain causal linear attention, minus the Gram-weighted
   * attention of the same and earlier positions.
   */
  lemma PrefillCorrectsAttention(t: nat, d: nat, q: Mat, k: Mat, v: Mat, eta: real, i: nat, c: nat)
    ensures var plain := MatMul(t, Logits(d, q, k), v);
      HeadOutput(t, d, q, k, v, eta)(i, c) == plain(i, c) - MatMul(t, Gram(d, k, eta), plain)(i, c)
  {
    var g, a := Gram(d, k, eta), Logits(d, q, k);
    ProductAssociates(t, t, g, a, v, i, c);
    forall j: nat | j < t
      ensures Row(Effective(t, d, q, k, eta), i)(j) == Row(a, i)(j) + -1.0 * Partial(t, g, a, i)(j)
    {
    }
    DotLinear(t, Col(v, c), Row(a, i), Partial(t, g, a, i), -1.0, Row(Effective(t, d, q, k, eta), i));
  }

  lemma HeadOfCausal(l: Layer, t: nat, t': nat, x: Mat, x': Mat, h: nat, i: nat, c: nat)
    requires i < t && i < t' && SameRows(x, x', i)
    ensures HeadOf(l, t, x, h)(i, c) == HeadOf(l, t', x', h)(i, c)
  {
    var n, d := l.heads * l.dim, l.dim;
    ProjectRows(n, l.wq, x, x', i);
    ProjectRows(n, l.wk, x, x', i);
    ProjectRows(n, l.wv, x, x', i);
    HeadCausal(t, t', d, SplitHead(Project(n, l.wq, x), d, h), SplitHead(Project(n, l.wk, x), d, h), SplitHead(Project(n, l.wv, x), d, h),
               SplitHead(Project(n, l.wq, x'), d, h), SplitHead(Project(n, l.wk, x'), d, h), SplitHead(Project(n, l.wv, x'), d, h),
               l.eta, i, c);
  }

  /**
   * The parallel form is causal: row i of the output depends on rows up to i of the input only,
   * for every layer and whatever follows. In particular the prefill of a prefix is the prefix of
   * the prefill.
   */
  lemma PrefillCausal(l: Layer, t: nat, t': nat, x: Mat, x': Mat, i: nat, c: nat)
    requires l.dim > 0 && i < t && i < t' && SameRows(x, x', i)
    ensures Prefill(l, t, x)(i, c) == Prefill(l, t', x')(i, c)
  {
    var n := l.heads * l.dim;
    var y, y' := MergeHeads(HeadsOf(l, t, x), l.dim), MergeHeads(HeadsOf(l, t', x'), l.dim);
    forall e: nat | e < n
      ensures y(i, e) == y'(i, e)
    {
      HeadOfCausal(l, t, t', x, x', e / l.dim, i, e % l.dim);
    }
    DotSame(n, Row(y, i), Col(Transposed(l.wo), c), Row(y', i), Col(Transposed(l.wo), c));
  }

  // ---------- a row of the prefill in full ----------

  /** Row `r` of `x` on a linear layer: column `e` is the row against row `e` of the weights. */
  function Through(n: nat, w: Mat, x: Mat): Mat { (r: nat, e: nat) => Sum(n, Prod(Row(x, r), Row(w, e))) }

  /** Rows `i` and `j`, on the columns of head `h` only. */
  function HeadDot(d: nat, h: nat, a: Mat, i: nat, b: Mat, j: nat): real {
    Sum(d, (o: nat) => a(i, h * d + o) * b(j, h * d + o))
  }

  /** Causal linear attention of row `i`, in the head of column `e`. */
  function Attended(d: nat, q: Mat, k: Mat, v: Mat, i: nat, e: nat): real
    requires d > 0
  {
    Sum(i + 1, (j: nat) => HeadDot(d, e / d, q, i, k, j) * v(j, e))
  }

  /** The same, less the attention of rows up to `i` as far as their keys overlap with that of row `i`. */
  function Corrected(d: nat, eta: real, q: Mat, k: Mat, v: Mat, i: nat, e: nat): real
    requires d > 0
  {
    Attended(d, q, k, v, i, e) - Sum(i + 1, (j: nat) => HeadDot(d, e / d, k, i, k, j) * eta * Attended(d, q, k, v, j, e))
  }

  /** The prefill, row by row and as finite sums of the three projections of the input. */
  lemma PrefillRow(l: Layer, t: nat, x: Mat, i: nat, c: nat)
    requires l.dim > 0 && i < t
    ensures var n := l.heads * l.dim;
      Prefill(l, t, x)(i, c) ==
        Sum(n, (e: nat) => Corrected(l.dim, l.eta, Through(n, l.wq, x), Through(n, l.wk, x), Through(n, l.wv, x), i, e) * l.wo(c, e))
  {
    var n := l.heads * l.dim;
    var q, k, v := Through(n, l.wq, x), Through(n, l.wk, x), Through(n, l.wv, x);
    var f := Prod(Row(MergeHeads(HeadsOf(l, t, x), l.dim), i), Col(Transposed(l.wo), c));
    var g: Vec := (e: nat) => Corrected(l.dim, l.eta, q, k, v, i, e) * l.wo(c, e);
    forall e: nat | e < n
      ensures f(e) == g(e)
    {
      WholeHeadRow(l, t, x, i, e);
    }
    SumSame(n, f, g);
  }

  lemma WholeHeadRow(l: Layer, t: nat, x: Mat, i: nat, e: nat)
    requires l.dim > 0 && i < t
    ensures var n := l.heads * l.dim;
      MergeHeads(HeadsOf(l, t, x), l.dim)(i, e) ==
        Corrected(l.dim, l.eta, Through(n, l.wq, x), Through(n, l.wk, x), Through(n, l.wv, x), i, e)
  {
    var n := l.heads * l.dim;
    ThroughProjects(n, l.wq, x);
    ThroughProjects(n, l.wk, x);
    ThroughProjects(n, l.wv, x);
    HeadRow(t, l.dim, Project(n, l.wq, x), Project(n, l.wk, x), Project(n, l.wv, x),
            Through(n, l.wq, x), Through(n, l.wk, x), Through(n, l.wv, x), l.eta, i, e);
  }

  lemma ThroughProjects(n: nat, w: Mat, x: Mat)
    ensures SameMat(Project(n, w, x), Through(n, w, x))
  {
    forall r: nat, e: nat
      ensures Project(n, w, x)(r, e) == Through(n, w, x)(r, e)
    {
      SumSame(n, Prod(Row(x, r), Col(Transposed(w), e)), Prod(Row(x, r), Row(w, e)));
    }
  }

  /** One column of one head, for projections `q`, `k`, `v` that are the same matrices as `p`, `m`, `u`. */
  lemma HeadRow(t: nat, d: nat, q: Mat, k: Mat, v: Mat, p: Mat, m: Mat, u: Mat, eta: real, i: nat, e: nat)
    requires d > 0 && i < t && SameMat(q, p) && SameMat(k, m) && SameMat(v, u)
    ensures HeadOutput(t, d, SplitHead(q, d, e / d), SplitHead(k, d, e / d), SplitHead(v, d, e / d), eta)(i, e % d) ==
      Corrected(d, eta, p, m, u, i, e)
  {
    var h, o := e / d, e % d;
    var q', k', v' := SplitHead(q, d, h), SplitHead(k, d, h), SplitHead(v, d, h);
    var plain := MatMul(t, Logits(d, q', k'), v');
    PrefillCorrectsAttention(t, d, q', k', v', eta, i, o);
    PlainRow(t, d, q, k, v, p, m, u, i, e);
    TriangularEntry(t, Gram(d, k', eta), plain, i, o);
    var f := Prod(Row(Gram(d, k', eta), i), Col(plain, o));
    var g: Vec := (j: nat) => HeadDot(d, e / d, m, i, m, j) * eta * Attended(d, p, m, u, j, e);
    forall j: nat | j < i + 1
      ensures f(j) == g(j)
    {
      PlainRow(t, d, q, k, v, p, m, u, j, e);
      SplitDot(d, h, k, i, k, j, m, m);
    }
    SumSame(i + 1, f, g);
  }

  lemma PlainRow(t: nat, d: nat, q: Mat, k: Mat, v: Mat, p: Mat, m: Mat, u: Mat, i: nat, e: nat)
    requires d > 0 && i < t && SameMat(q, p) && SameMat(k, m) && SameMat(v, u)
    ensures MatMul(t, Logits(d, SplitHead(q, d, e / d), SplitHead(k, d, e / d)), SplitHead(v, d, e / d))(i, e % d) == Attended(d, p, m, u, i, e)
  {
    var h, o := e / d, e % d;
    var a := Logits(d, SplitHead(q, d, h), SplitHead(k, d, h));
    TriangularEntry(t, a, SplitHead(v, d, h), i, o);
    var f := Prod(Row(a, i), Col(SplitHead(v, d, h), o));
    var g: Vec := (j: nat) => HeadDot(d, e / d, p, i, m, j) * u(j, e);
    ColumnOfItsHead(d, e);
    forall j: nat | j < i + 1
      ensures f(j) == g(j)
    {
      SplitDot(d, h, q, i, k, j, p, m);
    }
    SumSame(i + 1, f, g);
  }

  lemma SplitDot(d: nat, h: nat, a: Mat, i: nat, b: Mat, j: nat, a': Mat, b': Mat)
    requires SameMat(a, a') && SameMat(b, b')
    ensures Dot(d, Row(SplitHead(a, d, h), i), Col(Transposed(SplitHead(b, d, h)), j)) == HeadDot(d, h, a', i, b', j)
  {
    SumSame(d, Prod(Row(SplitHead(a, d, h), i), Col(Transposed(SplitHead(b, d, h)), j)), (o: nat) => a'(i, h * d + o) * b'(j, h * d + o));
  }

  // ---------- decode ----------

  const NORM_FLOOR: real := 0.000000000001

  function Divided(k: Vec, s: real): Vec
    requires s != 0.0
  {
    (j: nat) => k(j) / s
  }

  /** Division by the length, but never by less than 1e-12. */
  function Normalized(k: Vec, length: real): Vec { Divided(k, if length < NORM_FLOOR then NORM_FLOOR else length) }

  function Residual(d: nat, w: Mat, k: Vec, v: Vec): Vec { (i: nat) => Apply(d, w, k)(i) - v(i) }

  /** One gradient step on half the squared residual. */
  function Stepped(d: nat, w: Mat, k: Vec, v: Vec, eta: real): Mat {
    var r := Residual(d, w, k, v);
    (i: nat, j: nat) => w(i, j) - eta * (r(i) * k(j))
  }

  function SteppedTimes(n: nat, d: nat, w: Mat, k: Vec, v: Vec, eta: real): Mat {
    if n == 0 then w else Stepped(d, SteppedTimes(n - 1, d, w, k, v, eta), k, v, eta)
  }

  function Power(x: real, n: nat): real { if n == 0 then 1.0 else x * Power(x, n - 1) }

  /** What a step does to any direction: it moves by the residual, in proportion to the overlap with the key. */
  lemma StepMoves(d: nat, w: Mat, k: Vec, v: Vec, eta: real, u: Vec, i: nat)
    ensures Apply(d, Stepped(d, w, k, v, eta), u)(i) == Apply(d, w, u)(i) - eta * Residual(d, w, k, v)(i) * Dot(d, k, u)
  {
    var r := Residual(d, w, k, v)(i);
    var after := Row(Stepped(d, w, k, v, eta), i);
    forall j: nat | j < d
      ensures after(j) == Row(w, i)(j) + (0.0 - eta * r) * k(j)
    {
      Gathered(w(i, j), eta, r, k(j));
    }
    DotLinear(d, u, Row(w, i), k, 0.0 - eta * r, after);
    Negate(eta * r, Dot(d, k, u));
  }

  lemma Gathered(w: real, eta: real, r: real, k: real)
    ensures w - eta * (r * k) == w + (0.0 - eta * r) * k
  {
  }

  lemma Negate(x: real, y: real)
    ensures (0.0 - x) * y == 0.0 - x * y
  {
  }

  predicate IsTimes(y: real, factor: real, x: real) { y == factor * x }

  /** One step multiplies the residual by 1 - eta (k . k). */
  lemma StepContracts(d: nat, w: Mat, k: Vec, v: Vec, eta: real, i: nat)
    ensures IsTimes(Residual(d, Stepped(d, w, k, v, eta), k, v)(i), 1.0 - eta * Dot(d, k, k), Residual(d, w, k, v)(i))
  {
    StepMoves(d, w, k, v, eta, k, i);
    Factor(Apply(d, w, k)(i), v(i), eta, Dot(d, k, k));
  }

  lemma Factor(p: real, v: real, eta: real, kk: real)
    ensures p - eta * (p - v) * kk - v == (1.0 - eta * kk) * (p - v)
  {
    var r := p - v;
    assert eta * r * kk == (eta * kk) * r;
  }

  /** Directions orthogonal to the key are untouched. */
  lemma OrthogonalUntouched(d: nat, w: Mat, k: Vec, v: Vec, eta: real, u: Vec, i: nat)
    requires Dot(d, k, u) == 0.0
    ensures Apply(d, Stepped(d, w, k, v, eta), u)(i) == Apply(d, w, u)(i)
  {
    StepMoves(d, w, k, v, eta, u, i);
  }

  /** After n steps on one pair the residual is the first one times the n-th power of the factor. */
  lemma {:induction false} StepsContract(n: nat, d: nat, w: Mat, k: Vec, v: Vec, eta: real, i: nat)
    ensures IsTimes(Residual(d, SteppedTimes(n, d, w, k, v, eta), k, v)(i), Power(1.0 - eta * Dot(d, k, k), n), Residual(d, w, k, v)(i))
  {
    if n > 0 {
      StepsContract(n - 1, d, w, k, v, eta, i);
      StepContracts(d, SteppedTimes(n - 1, d, w, k, v, eta), k, v, eta, i);
      OneMore(Residual(d, SteppedTimes(n, d, w, k, v, eta), k, v)(i), Residual(d, SteppedTimes(n - 1, d, w, k, v, eta), k, v)(i),
              Residual(d, w, k, v)(i), 1.0 - eta * Dot(d, k, k), n);
    }
  }

  lemma OneMore(after: real, before: real, first: real, x: real, n: nat)
    requires n > 0 && IsTimes(after, x, before) && IsTimes(before, Power(x, n - 1), first)
    ensures IsTimes(after, Power(x, n), first)
  {
    Regroup(x, Power(x, n - 1), first);
  }

  lemma Regroup(x: real, y: real, z: real)
    ensures x * (y * z) == (x * y) * z
  {
  }

  /**
   * The key the layer uses: its square length is exactly 1 unless the raw key is shorter than
   * 1e-12, and a zero key gives zero.
   */
  lemma NormalizedLength(d: nat, k: Vec, length: real)
    requires length >= 0.0 && length * length == Dot(d, k, k)
    ensures length >= NORM_FLOOR ==> Dot(d, Normalized(k, length), Normalized(k, length)) == 1.0
    ensures length == 0.0 ==> Dot(d, Normalized(k, length), Normalized(k, length)) == 0.0
    ensures length == 0.0 ==> forall j: nat | j < d :: Normalized(k, length)(j) == 0.0
  {
    var kn := Normalized(k, length);
    if length >= NORM_FLOOR {
      DividedDot(d, k, length);
      PositiveSquare(length);
      Cancel(Dot(d, kn, kn), length * length);
    }
    if length == 0.0 {
      SquaresZero(d, k);
      SumZero(d, Prod(kn, kn));
    }
  }

  lemma PositiveSquare(x: real)
    requires x > 0.0
    ensures x * x > 0.0
  {
  }

  lemma SquaresZero(d: nat, k: Vec)
    requires Dot(d, k, k) == 0.0
    ensures forall j: nat | j < d :: k(j) == 0.0
  {
    forall j: nat | j < d
      ensures Prod(k, k)(j) >= 0.0 && (k(j) != 0.0 ==> Prod(k, k)(j) > 0.0)
    {
      SquareSign(k(j), Prod(k, k)(j));
    }
    SumNonnegative(d, Prod(k, k));
  }

  lemma SquareSign(x: real, y: real)
    requires y == x * x
    ensures y >= 0.0 && (x != 0.0 ==> y > 0.0)
  {
    if x > 0.0 { SameSigns(x, x, y); } else if x < 0.0 { SameSigns(x, x, y); }
  }

  lemma SameSigns(a: real, b: real, y: real)
    requires y == a * b && ((a > 0.0 && b > 0.0) || (a < 0.0 && b < 0.0))
    ensures y > 0.0
  {
  }

  lemma Cancel(x: real, y: real)
    requires y > 0.0 && x * y == y
    ensures x == 1.0
  {
    assert (x - 1.0) * y == 0.0;
  }

  lemma {:induction false} DividedDot(d: nat, k: Vec, s: real)
    requires s > 0.0
    ensures Dot(d, Divided(k, s), Divided(k, s)) * (s * s) == Dot(d, k, k)
  {
    if d > 0 {
      DividedDot(d - 1, k, s);
      DividedSquare(k(d - 1), s);
      Distribute(s * s, Dot(d - 1, Divided(k, s), Divided(k, s)), k(d - 1) / s * (k(d - 1) / s));
    }
  }

  lemma DividedSquare(x: real, s: real)
    requires s > 0.0
    ensures (s * s) * (x / s * (x / s)) == x * x
  {
    var q := x / s;
    assert q * s == x;
    assert (s * s) * (q * q) == (q * s) * (q * s);
  }

  /** One head's decode of a token: the step on the normalised key, then the query on the new matrix. */
  function DecodeHead(d: nat, w: Mat, q: Vec, k: Vec, length: real, v: Vec, eta: real): (Vec, Mat) {
    var next := Stepped(d, w, Normalized(k, length), v, eta);
    (Apply(d, next, q), next)
  }

  /** The answer is what the old matrix would say, moved by the residual in proportion to the overlap of query and key. */
  lemma DecodeReads(d: nat, w: Mat, q: Vec, k: Vec, length: real, v: Vec, eta: real, i: nat)
    ensures var kn := Normalized(k, length);
      DecodeHead(d, w, q, k, length, v, eta).0(i) == Apply(d, w, q)(i) - eta * Residual(d, w, kn, v)(i) * Dot(d, kn, q)
  {
    StepMoves(d, w, Normalized(k, length), v, eta, q, i);
  }

  /**
   * Decoding: on a key of length at least 1e-12 one step multiplies the error by exactly 1 - eta
   * and n steps by its n-th power; a zero key leaves every entry of the matrix as it is.
   */
  lemma DecodeContracts(n: nat, d: nat, w: Mat, k: Vec, length: real, v: Vec, eta: real, i: nat, j: nat)
    requires length >= 0.0 && length * length == Dot(d, k, k) && j < d
    ensures var kn := Normalized(k, length);
      && (length >= NORM_FLOOR ==>
            && IsTimes(Residual(d, Stepped(d, w, kn, v, eta), kn, v)(i), 1.0 - eta, Residual(d, w, kn, v)(i))
            && IsTimes(Residual(d, SteppedTimes(n, d, w, kn, v, eta), kn, v)(i), Power(1.0 - eta, n), Residual(d, w, kn, v)(i)))
      && (length == 0.0 ==> Stepped(d, w, kn, v, eta)(i, j) == w(i, j))
  {
    var kn := Normalized(k, length);
    NormalizedLength(d, k, length);
    StepContracts(d, w, kn, v, eta, i);
    StepsContract(n, d, w, kn, v, eta, i);
    ZeroMoves(eta, Residual(d, w, kn, v)(i));
  }

  lemma ZeroMoves(eta: real, r: real)
    ensures eta * (r * 0.0) == 0.0 && eta * 1.0 == eta
  {
  }
}
