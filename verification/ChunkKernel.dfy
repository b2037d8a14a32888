/**
 * The chunk-fused kernel: a loop over blocks with a carried weight, its closed form per block, and
 * exactly where its output is stable under cutting the sequence.
 */
module ChunkKernel {
  import opened Common
  import opened Blocks
  import opened Tensors

  /** Queries, keys and values of one head: `t` rows of width `d`; `scale` stands for 1 / sqrt(d). */
  datatype Input = Input(q: Mat, k: Mat, v: Mat, t: nat, d: nat, scale: real)

  function Shifted(a: Mat, start: nat): Mat { (i: nat, j: nat) => a(start + i, j) }

  /** The rows of the chunk that starts here: a whole block, or what is left. */
  function Length(t: nat, block: nat, start: nat): (len: nat)
    requires start < t && block > 0
    ensures 0 < len <= block && start + len <= t
  {
    if t - start < block then t - start else block
  }

  /** Causal weights inside a chunk. */
  function Local(x: Input, start: nat): Mat {
    Masked(Scaled(x.scale, MatMul(x.d, Shifted(x.q, start), Transposed(Shifted(x.k, start)))))
  }

  /** What a chunk adds to the carried weight. */
  function Gradient(x: Input, start: nat, len: nat): Mat
    requires len > 0
  {
    Scaled(1.0 / len as real, MatMul(len, Transposed(Shifted(x.v, start)), Shifted(x.k, start)))
  }

  /** The carried weight with all chunks up to and including the one that starts here. */
  function CarriedAt(x: Input, block: nat, start: nat, i: nat, j: nat): real
    requires block > 0 && start < x.t
    decreases start
  {
    (if start < block then 0.0 else CarriedAt(x, block, start - block, i, j))
    + Gradient(x, start, Length(x.t, block, start))(i, j)
  }

  function Carried(x: Input, block: nat, start: nat): Mat
    requires block > 0 && start < x.t
  {
    (i: nat, j: nat) => CarriedAt(x, block, start, i, j)
  }

  /** The closed form of one chunk: local causal context plus the queries on the carried weight. */
  function ChunkOut(x: Input, block: nat, start: nat, i: nat, c: nat): real
    requires block > 0 && start < x.t
  {
    MatMul(Length(x.t, block, start), Local(x, start), Shifted(x.v, start))(i, c)
    + MatMul(x.d, Shifted(x.q, start), Carried(x, block, start))(i, c)
  }

  /** Row r of the output. */
  function Output(x: Input, block: nat, r: nat, c: nat): real
    requires block > 0 && r < x.t
  {
    ChunkOut(x, block, BlockStart(r, block), r - BlockStart(r, block), c)
  }

  /** The carried weight before the chunk that starts here. */
  ghost predicate CarriedBefore(x: Input, block: nat, start: nat, w: Mat)
    requires block > 0
  {
    if start == 0 then forall i: nat, j: nat :: w(i, j) == 0.0
    else start >= block && start - block < x.t && SameMat(w, Carried(x, block, start - block))
  }

  ghost predicate RowsDone(x: Input, block: nat, out: seq<Vec>)
    requires block > 0 && |out| <= x.t
  {
    forall r, c: nat | 0 <= r < |out| :: out[r](c) == Output(x, block, r, c)
  }

  function Tril(): Mat { (i: nat, j: nat) => if j <= i then 1.0 else 0.0 }

  function Times(a: Mat, b: Mat): Mat { (i: nat, j: nat) => a(i, j) * b(i, j) }

  function Plus(a: Mat, b: Mat): Mat { (i: nat, j: nat) => a(i, j) + b(i, j) }

  /** The fused forward pass: the output rows and the final carried weight, or nothing on empty bounds. */
  method ForwardChunkFused(x: Input, block: nat) returns (r: Option<(seq<Vec>, Mat)>)
    ensures r.None? <==> block == 0 || x.t == 0 || x.d == 0
    ensures r.Some? ==> |r.value.0| == x.t && RowsDone(x, block, r.value.0)
    ensures r.Some? ==> SameMat(r.value.1, Carried(x, block, BlockStart(x.t - 1, block)))
  {
    if block == 0 || x.t == 0 || x.d == 0 { return None; }
    var w: Mat := (i: nat, j: nat) => 0.0;
    var cachedInv: Option<(nat, real)> := None;
    var out: seq<Vec> := [];
    var start := 0;
    ghost var last := 0;
    while start < x.t
      invariant 0 <= start <= x.t && |out| == start && RowsDone(x, block, out)
      invariant start < x.t ==> start % block == 0 && CarriedBefore(x, block, start, w)
      invariant start == x.t ==> SameMat(w, Carried(x, block, BlockStart(x.t - 1, block)))
      invariant cachedInv.Some? ==> cachedInv.value.0 > 0 && cachedInv.value.1 == 1.0 / cachedInv.value.0 as real
    {
      var len := Length(x.t, block, start);
      var invLen;
      if cachedInv.Some? && cachedInv.value.0 == len {
        invLen := cachedInv.value.1;
      } else {
        invLen := 1.0 / len as real;
        cachedInv := Some((len, invLen));
      }
      var rows, next := FuseChunk(x, block, start, len, invLen, w);
      ChunkRows(x, block, start, len, out, rows);
      NextStart(x.t, block, start);
      out, w, start := out + rows, next, start + len;
    }
    return Some((out, w));
  }

  /** One turn of the loop: the rows of a chunk and the weight carried on. */
  method FuseChunk(x: Input, block: nat, start: nat, len: nat, invLen: real, w: Mat) returns (rows: seq<Vec>, next: Mat)
    requires block > 0 && start < x.t && len == Length(x.t, block, start) && invLen == 1.0 / len as real
    requires start % block == 0 && CarriedBefore(x, block, start, w)
    ensures |rows| == len && forall i, c: nat | 0 <= i < len :: rows[i](c) == ChunkOut(x, block, start, i, c)
    ensures SameMat(next, Carried(x, block, start))
  {
    var q, k, v := Shifted(x.q, start), Shifted(x.k, start), Shifted(x.v, start);
    var gram := Scaled(x.scale, MatMul(x.d, q, Transposed(k)));
    var weights := Times(gram, Tril());
    var local := MatMul(len, weights, v);
    next := Plus(w, Scaled(invLen, MatMul(len, Transposed(v), k)));
    var carry := MatMul(x.d, q, next);
    var chunk := Plus(local, carry);
    rows := seq(len, i requires 0 <= i < len => Row(chunk, i));
    CarriesOn(x, block, start, w, next);
    forall i, c: nat | 0 <= i < len
      ensures rows[i](c) == ChunkOut(x, block, start, i, c)
    {
      MaskIsTril(gram);
      DotSame(len, Row(weights, i), Col(v, c), Row(Local(x, start), i), Col(v, c));
      DotSame(x.d, Row(q, i), Col(next, c), Row(q, i), Col(Carried(x, block, start), c));
    }
  }

  lemma MaskIsTril(a: Mat)
    ensures SameMat(Times(a, Tril()), Masked(a))
  {
  }

  lemma CarriesOn(x: Input, block: nat, start: nat, w: Mat, next: Mat)
    requires block > 0 && start < x.t && start % block == 0 && CarriedBefore(x, block, start, w)
    requires SameMat(next, Plus(w, Gradient(x, start, Length(x.t, block, start))))
    ensures SameMat(next, Carried(x, block, start))
  {
    if start > 0 { StartBefore(start, block); }
    forall i: nat, j: nat
      ensures next(i, j) == Carried(x, block, start)(i, j)
    {
    }
  }

  lemma ChunkRows(x: Input, block: nat, start: nat, len: nat, out: seq<Vec>, rows: seq<Vec>)
    requires block > 0 && start < x.t && start % block == 0 && len == Length(x.t, block, start)
    requires |out| == start && RowsDone(x, block, out)
    requires |rows| == len && forall i, c: nat | 0 <= i < len :: rows[i](c) == ChunkOut(x, block, start, i, c)
    ensures RowsDone(x, block, out + rows)
  {
    forall r, c: nat | 0 <= r < |out + rows|
      ensures (out + rows)[r](c) == Output(x, block, r, c)
    {
      if r >= start { InBlock(start, block, r - start); }
    }
  }

  lemma NextStart(t: nat, block: nat, start: nat)
    requires block > 0 && start < t && start % block == 0
    ensures var next := start + Length(t, block, start);
      && (next < t ==> next % block == 0 && next == start + block)
      && (next == t ==> BlockStart(t - 1, block) == start)
  {
    InBlock(start, block, Length(t, block, start) - 1);
    assert start + block == (start / block + 1) * block;
    BlockOffset(block, start / block + 1, 0);
  }

  // ---------- the output in full ----------

  /** What row `r` takes from the value of row `j`: causal attention. */
  function Attends(x: Input, r: nat, c: nat): Vec {
    (j: nat) => x.scale * Dot(x.d, Row(x.q, r), Row(x.k, j)) * x.v(j, c)
  }

  /** One over the length of the chunk that row `j` lies in. */
  function Share(t: nat, block: nat, j: nat): real
    requires block > 0
  {
    if j < t then 1.0 / Length(t, block, BlockStart(j, block)) as real else 0.0
  }

  /** What row `r` takes from the key of row `j`, by its value: the carried weight read by the query. */
  function Recalls(x: Input, block: nat, r: nat, c: nat): Vec
    requires block > 0
  {
    (j: nat) => Dot(x.d, Row(x.q, r), Row(x.v, j)) * (x.k(j, c) * Share(x.t, block, j))
  }

  function From(s: nat, f: Vec): Vec { (j: nat) => f(s + j) }

  /**
   * A row of the output as two sums over rows of the input: causal attention to the rows of its own
   * chunk up to itself, and a recall of the keys of all rows up to the end of that chunk.
   */
  lemma RowInFull(x: Input, block: nat, r: nat, c: nat)
    requires block > 0 && r < x.t
    ensures var s := BlockStart(r, block);
      Output(x, block, r, c) == Sum(r + 1 - s, From(s, Attends(x, r, c))) + Sum(s + Length(x.t, block, s), Recalls(x, block, r, c))
  {
    var s := BlockStart(r, block);
    StartAligned(r, block);
    LocalInFull(x, block, s, r - s, c);
    CarryInFull(x, block, s, r - s, c);
  }

  lemma LocalInFull(x: Input, block: nat, s: nat, i: nat, c: nat)
    requires block > 0 && s < x.t && i < Length(x.t, block, s)
    ensures MatMul(Length(x.t, block, s), Local(x, s), Shifted(x.v, s))(i, c) == Sum(i + 1, From(s, Attends(x, s + i, c)))
  {
    TriangularEntry(Length(x.t, block, s), Local(x, s), Shifted(x.v, s), i, c);
    var f := Prod(Row(Local(x, s), i), Col(Shifted(x.v, s), c));
    forall j | 0 <= j < i + 1
      ensures f(j) == From(s, Attends(x, s + i, c))(j)
    {
      DotSame(x.d, Row(Shifted(x.q, s), i), Col(Transposed(Shifted(x.k, s)), j), Row(x.q, s + i), Row(x.k, s + j));
    }
    SumSame(i + 1, f, From(s, Attends(x, s + i, c)));
  }

  function SharedKeys(x: Input, block: nat): Mat
    requires block > 0
  {
    (j: nat, c: nat) => x.k(j, c) * Share(x.t, block, j)
  }

  lemma CarryInFull(x: Input, block: nat, s: nat, i: nat, c: nat)
    requires block > 0 && s < x.t && s % block == 0
    ensures MatMul(x.d, Shifted(x.q, s), Carried(x, block, s))(i, c) == Sum(s + Length(x.t, block, s), Recalls(x, block, s + i, c))
  {
    var n := s + Length(x.t, block, s);
    var whole := MatMul(n, Transposed(x.v), SharedKeys(x, block));
    forall e | 0 <= e < x.d
      ensures Col(Carried(x, block, s), c)(e) == Col(whole, c)(e)
    {
      CarriedInFull(x, block, s, e, c);
    }
    DotSame(x.d, Row(Shifted(x.q, s), i), Col(Carried(x, block, s), c), Row(x.q, s + i), Col(whole, c));
    ProductAssociates(x.d, n, x.q, Transposed(x.v), SharedKeys(x, block), s + i, c);
    var f := Prod(Partial(x.d, x.q, Transposed(x.v), s + i), Col(SharedKeys(x, block), c));
    forall j | 0 <= j < n
      ensures f(j) == Recalls(x, block, s + i, c)(j)
    {
      DotSame(x.d, Row(x.q, s + i), Col(Transposed(x.v), j), Row(x.q, s + i), Row(x.v, j));
    }
    SumSame(n, f, Recalls(x, block, s + i, c));
  }

  /** The carried weight is one sum over all rows so far. */
  lemma {:induction false} CarriedInFull(x: Input, block: nat, s: nat, e: nat, c: nat)
    requires block > 0 && s < x.t && s % block == 0
    ensures CarriedAt(x, block, s, e, c) == MatMul(s + Length(x.t, block, s), Transposed(x.v), SharedKeys(x, block))(e, c)
    decreases s
  {
    var f := Prod(Row(Transposed(x.v), e), Col(SharedKeys(x, block), c));
    if s > 0 {
      StartBefore(s, block);
      CarriedInFull(x, block, s - block, e, c);
    }
    SumParts(s, Length(x.t, block, s), f);
    GradientInFull(x, block, s, e, c);
  }

  lemma ShareInChunk(t: nat, block: nat, s: nat, j: nat)
    requires block > 0 && s < t && s % block == 0 && j < Length(t, block, s)
    ensures Share(t, block, s + j) == 1.0 / Length(t, block, s) as real
  {
    InBlock(s, block, j);
  }

  lemma GradientInFull(x: Input, block: nat, s: nat, e: nat, c: nat)
    requires block > 0 && s < x.t && s % block == 0
    ensures var len := Length(x.t, block, s);
      Gradient(x, s, len)(e, c) == Sum(len, From(s, Prod(Row(Transposed(x.v), e), Col(SharedKeys(x, block), c))))
  {
    var len := Length(x.t, block, s);
    var f := From(s, Prod(Row(Transposed(x.v), e), Col(SharedKeys(x, block), c)));
    var g := Prod(Row(Transposed(Shifted(x.v, s)), e), Col(Shifted(x.k, s), c));
    forall j: nat | j < len
      ensures f(j) == g(j) * (1.0 / len as real)
    {
      ShareInChunk(x.t, block, s, j);
      Regroup(x.v(s + j, e), x.k(s + j, c), 1.0 / len as real);
    }
    SumScaled(len, g, 1.0 / len as real, f);
  }

  lemma {:induction false} SumScaled(n: nat, g: Vec, w: real, f: Vec)
    requires forall j: nat | j < n :: f(j) == g(j) * w
    ensures Sum(n, f) == Sum(n, g) * w
  {
    if n > 0 {
      SumScaled(n - 1, g, w, f);
      Distribute(w, Sum(n - 1, g), g(n - 1));
    }
  }

  lemma Regroup(a: real, b: real, w: real)
    ensures a * (b * w) == a * b * w
  {
  }

  lemma {:induction false} SumParts(s: nat, n: nat, f: Vec)
    ensures Sum(s + n, f) == Sum(s, f) + Sum(n, From(s, f))
  {
    if n > 0 { SumParts(s, n - 1, f); }
  }

  // ---------- cutting the sequence ----------

  lemma {:induction false} CarriedCausal(x: Input, y: Input, block: nat, start: nat, i: nat, j: nat)
    requires block > 0 && start < x.t && start < y.t && Length(x.t, block, start) == Length(y.t, block, start)
    requires SameRows(x.k, y.k, start + Length(x.t, block, start) - 1) && SameRows(x.v, y.v, start + Length(x.t, block, start) - 1)
    ensures CarriedAt(x, block, start, i, j) == CarriedAt(y, block, start, i, j)
    decreases start
  {
    var len := Length(x.t, block, start);
    if start >= block { CarriedCausal(x, y, block, start - block, i, j); }
    DotSame(len, Row(Transposed(Shifted(x.v, start)), i), Col(Shifted(x.k, start), j),
                 Row(Transposed(Shifted(y.v, start)), i), Col(Shifted(y.k, start), j));
  }

  /** The output of a chunk depends on the input up to the end of that chunk only. */
  lemma ChunkCausal(x: Input, y: Input, block: nat, start: nat, i: nat, c: nat)
    requires block > 0 && start < x.t && start < y.t && x.d == y.d && x.scale == y.scale
    requires Length(x.t, block, start) == Length(y.t, block, start) && i < Length(x.t, block, start)
    requires SameRows(x.q, y.q, start + Length(x.t, block, start) - 1)
    requires SameRows(x.k, y.k, start + Length(x.t, block, start) - 1) && SameRows(x.v, y.v, start + Length(x.t, block, start) - 1)
    ensures ChunkOut(x, block, start, i, c) == ChunkOut(y, block, start, i, c)
  {
    var len := Length(x.t, block, start);
    forall j: nat | j < len
      ensures Local(x, start)(i, j) == Local(y, start)(i, j)
    {
      DotSame(x.d, Row(Shifted(x.q, start), i), Col(Transposed(Shifted(x.k, start)), j),
                   Row(Shifted(y.q, start), i), Col(Transposed(Shifted(y.k, start)), j));
    }
    DotSame(len, Row(Local(x, start), i), Col(Shifted(x.v, start), c), Row(Local(y, start), i), Col(Shifted(y.v, start), c));
    forall e: nat | e < x.d
      ensures Carried(x, block, start)(e, c) == Carried(y, block, start)(e, c)
    {
      CarriedCausal(x, y, block, start, e, c);
    }
    DotSame(x.d, Row(Shifted(x.q, start), i), Col(Carried(x, block, start), c),
                 Row(Shifted(y.q, start), i), Col(Carried(y, block, start), c));
  }

  /** The kernel on the first `m` rows gives the first `m` rows of the kernel, for every input of this size and scale. */
  ghost predicate PrefixStable(block: nat, m: nat, t: nat, d: nat, scale: real)
    requires block > 0 && m <= t
  {
    forall x: Input, r: nat, c: nat {:trigger Output(x, block, r, c)} | x.t == t && x.d == d && x.scale == scale && r < m ::
      Output(x.(t := m), block, r, c) == Output(x, block, r, c)
  }

  lemma AlignedStable(x: Input, block: nat, m: nat, r: nat, c: nat)
    requires block > 0 && m <= x.t && m % block == 0 && r < m
    ensures Output(x.(t := m), block, r, c) == Output(x, block, r, c)
  {
    StartAligned(r, block);
    StartsApart(BlockStart(r, block), m, block);
    ChunkCausal(x.(t := m), x, block, BlockStart(r, block), r - BlockStart(r, block), c);
  }

  // ---------- a cut inside a block shows ----------

  /** All queries one; one key and value, at row `s`, column 0. */
  function Spike(s: nat, t: nat, d: nat, scale: real): Input {
    var only: Mat := (i: nat, j: nat) => if i == s && j == 0 then 1.0 else 0.0;
    Input((i: nat, j: nat) => 1.0, only, only, t, d, scale)
  }

  lemma SpikeGradient(s: nat, t: nat, d: nat, scale: real, start: nat, len: nat, i: nat)
    requires len > 0 && (start == s || start + len <= s)
    ensures Gradient(Spike(s, t, d, scale), start, len)(i, 0) == if start == s && i == 0 then 1.0 / len as real else 0.0
  {
    var x := Spike(s, t, d, scale);
    var f := Prod(Row(Transposed(Shifted(x.v, start)), i), Col(Shifted(x.k, start), 0));
    if start == s { SumOne(len, f, 0); } else { SumZero(len, f); }
  }

  lemma {:induction false} SpikeCarried(s: nat, t: nat, d: nat, scale: real, block: nat, start: nat, i: nat)
    requires block > 0 && s < t && start < t && start % block == 0 && (start == s || start + block <= s)
    ensures CarriedAt(Spike(s, t, d, scale), block, start, i, 0) ==
      if start == s && i == 0 then 1.0 / Length(t, block, s) as real else 0.0
    decreases start
  {
    if start > 0 {
      StartBefore(start, block);
      SpikeCarried(s, t, d, scale, block, start - block, i);
    }
    SpikeGradient(s, t, d, scale, start, Length(t, block, start), i);
  }

  lemma SpikeOutput(s: nat, t: nat, d: nat, scale: real, block: nat)
    requires block > 0 && d > 0 && s < t && s % block == 0
    ensures Output(Spike(s, t, d, scale), block, s, 0) ==
      MatMul(1, Local(Spike(s, t, d, scale), s), Shifted(Spike(s, t, d, scale).v, s))(0, 0) + 1.0 / Length(t, block, s) as real
  {
    var x := Spike(s, t, d, scale);
    InBlock(s, block, 0);
    SumTail(1, Length(t, block, s), Prod(Row(Local(x, s), 0), Col(Shifted(x.v, s), 0)));
    var f := Prod(Row(Shifted(x.q, s), 0), Col(Carried(x, block, s), 0));
    forall e: nat | e < d
      ensures f(e) == if e == 0 then 1.0 / Length(t, block, s) as real else 0.0
    {
      SpikeCarried(s, t, d, scale, block, s, e);
    }
    SumOne(d, f, 0);
  }

  lemma CutShows(block: nat, m: nat, t: nat, d: nat, scale: real)
    requires block > 0 && d > 0 && m < t && m % block != 0
    ensures var s := BlockStart(m, block); s < m && Output(Spike(s, t, d, scale).(t := m), block, s, 0) != Output(Spike(s, t, d, scale), block, s, 0)
  {
    var s := BlockStart(m, block);
    StartAligned(m, block);
    SpikeOutput(s, t, d, scale, block);
    SpikeOutput(s, m, d, scale, block);
    assert Spike(s, t, d, scale).(t := m) == Spike(s, m, d, scale);
    Reciprocal(Length(m, block, s), Length(t, block, s));
  }

  lemma Reciprocal(a: nat, b: nat)
    requires 0 < a < b
    ensures 1.0 / a as real != 1.0 / b as real
  {
    assert 1.0 / a as real * a as real == 1.0 && 1.0 / b as real * b as real == 1.0;
  }

  /** At any scale the kernel is prefix-stable exactly at block-aligned lengths and at the full length. */
  lemma StableIffAligned(block: nat, m: nat, t: nat, d: nat, scale: real)
    requires block > 0 && d > 0 && 0 < m <= t
    ensures PrefixStable(block, m, t, d, scale) <==> m % block == 0 || m == t
  {
    if m % block == 0 {
      forall x: Input, r: nat, c: nat {:trigger Output(x, block, r, c)} | x.t == t && x.d == d && x.scale == scale && r < m
        ensures Output(x.(t := m), block, r, c) == Output(x, block, r, c)
      {
        AlignedStable(x, block, m, r, c);
      }
    } else if m == t {
      forall x: Input, r: nat, c: nat {:trigger Output(x, block, r, c)} | x.t == t && x.d == d && x.scale == scale && r < m
        ensures Output(x.(t := m), block, r, c) == Output(x, block, r, c)
      {
        assert x.(t := m) == x;
      }
    } else {
      CutShows(block, m, t, d, scale);
    }
  }
}
