/**
 * The convolutional layer of src/convolutional_layer.c: the per-filter bias,
 * and the layer's forward, backward and update passes over a layer object
 * holding the weights `w`, their gradient `dw`, the biases `b`, their
 * gradient `db` and the cached input `x`.
 */
module ConvLayer {
  import opened Arith
  import opened Sums
  import opened Matrices
  import opened Windows
  import opened Patches
  import opened Scatter

  // ---------------------------------------------------------------------------
  // The bias: one value per filter, shared by that filter's block of columns

  /** `spatial`: the number of columns that share one bias entry. */
  function Spatial(cols: nat, n: nat): (s: nat)
    requires n > 0 && cols % n == 0
    ensures s * n == cols && (cols > 0 ==> s > 0)
  {
    cols / n
  }

  /** The bias entry `(k % cols) / spatial` that flat entry `k` of a `rows x cols` output uses. */
  function BlockMap(rows: nat, cols: nat, n: nat): (m: seq<int>)
    requires n > 0 && cols % n == 0
    ensures |m| == rows * cols
    ensures forall k :: 0 <= k < rows * cols ==> cols > 0 && m[k] == (k % cols) / Spatial(cols, n)
  {
    seq(rows * cols, (k: int) requires 0 <= k < rows * cols => BlockAt(rows, cols, n, k))
  }

  function BlockAt(rows: nat, cols: nat, n: nat, k: int): (f: int)
    requires n > 0 && cols % n == 0 && 0 <= k < rows * cols
    ensures cols > 0 && f == (k % cols) / Spatial(cols, n)
  {
    Unflatten(k, rows, cols);
    (k % cols) / Spatial(cols, n)
  }

  /** Every flat entry uses an existing bias entry. */
  lemma BlockBound(rows: nat, cols: nat, n: nat, k: int)
    requires n > 0 && cols % n == 0 && 0 <= k < rows * cols
    ensures 0 <= BlockMap(rows, cols, n)[k] < n
  {
    Unflatten(k, rows, cols);
    var s := Spatial(cols, n);
    var j := k % cols;
    DivMod(j / s, j % s, s);
    if j / s >= n {
      MulMono(n, j / s, s);
    }
  }

  /** The `rows x cols` matrix whose columns in filter `f`'s block all hold `b[f]`. */
  function Broadcast(b: seq<real>, rows: nat, cols: nat): (m: Mat)
    requires |b| > 0 && cols % |b| == 0
    ensures m.rows == rows && m.cols == cols
  {
    MatVal(rows, cols, Gather(b, BlockMap(rows, cols, |b|)))
  }

  /** forward_convolutional_bias's result: `xw` plus the broadcast bias. */
  function BiasAdded(xw: Mat, b: Mat): (y: Mat)
    requires b.rows == 1 && b.cols > 0 && xw.cols % b.cols == 0
    ensures y.rows == xw.rows && y.cols == xw.cols
  {
    Add(xw, Broadcast(b.data, xw.rows, xw.cols))
  }

  /** backward_convolutional_bias's result: each entry of `dy` added to the bias entry it used. */
  function BiasGrad(dy: Mat, n: nat): (db: Mat)
    requires n > 0 && dy.cols % n == 0
    ensures db.rows == 1 && db.cols == n
  {
    MatVal(1, n, ScatterAdd(dy.data, BlockMap(dy.rows, dy.cols, n), n))
  }

  /** Entry `(i, j)` of the output gets bias entry `j / spatial`, which exists. */
  lemma BiasAddedEntry(xw: Mat, b: Mat, i: nat, j: nat)
    requires b.rows == 1 && b.cols > 0 && xw.cols % b.cols == 0 && i < xw.rows && j < xw.cols
    ensures j / Spatial(xw.cols, b.cols) < b.cols
    ensures Get(BiasAdded(xw, b), i, j) == Get(xw, i, j) + b.data[j / Spatial(xw.cols, b.cols)]
  {
    GetAt(xw, i, j);
    GetAt(BiasAdded(xw, b), i, j);
    DivMod(i, j, xw.cols);
    BlockBound(xw.rows, xw.cols, b.cols, i * xw.cols + j);
  }

  /**
   * Column `f*spatial + s` of every row, for `s < spatial`, gets bias entry
   * `f`: filter `f` owns a contiguous block of `spatial` columns.
   */
  lemma BiasBlockEntry(xw: Mat, b: Mat, i: nat, f: nat, s: nat, sp: nat)
    requires b.rows == 1 && b.cols > 0 && xw.cols % b.cols == 0 && i < xw.rows
    requires sp == Spatial(xw.cols, b.cols) && f < b.cols && s < sp
    ensures f * sp + s < xw.cols
    ensures Get(BiasAdded(xw, b), i, f * sp + s) == Get(xw, i, f * sp + s) + b.data[f]
  {
    FlatBound(f, s, b.cols, sp);
    assert b.cols * sp == xw.cols;
    DivMod(f, s, sp);
    BiasAddedEntry(xw, b, i, f * sp + s);
  }

  /** The entries of row `i` of `dy` in filter `f`'s block. */
  function BlockTerms(dy: Mat, n: nat, f: nat, i: nat): nat -> real
    requires n > 0 && dy.cols % n == 0
  {
    (s: nat) => if i < dy.rows && f * Spatial(dy.cols, n) + s < dy.cols then Get(dy, i, f * Spatial(dy.cols, n) + s) else 0.0
  }

  /** The sums of filter `f`'s block in every row of `dy`. */
  function BlockRows(dy: Mat, n: nat, f: nat): nat -> real
    requires n > 0 && dy.cols % n == 0
  {
    (i: nat) => Sum(Spatial(dy.cols, n), BlockTerms(dy, n, f, i))
  }

  /** Row `x` of the values sent to bias entry `f`. */
  function RowSent(dy: Mat, n: nat, f: nat, x: nat): nat -> real
    requires n > 0 && dy.cols % n == 0
  {
    (y: nat) => Sent(dy.data, BlockMap(dy.rows, dy.cols, n), f)(x * dy.cols + y)
  }

  /** The block sums of row `x`: the block of `f` and nothing for the other filters. */
  function FilterSums(dy: Mat, n: nat, f: nat, x: nat): nat -> real
    requires n > 0 && dy.cols % n == 0
  {
    (u: nat) => if u == f then Sum(Spatial(dy.cols, n), BlockTerms(dy, n, f, x)) else 0.0
  }

  /** The sum of `dy` over all rows and over the columns of filter `f`'s block is `db[f]`. */
  lemma BiasGradBlock(dy: Mat, n: nat, f: nat)
    requires n > 0 && dy.cols % n == 0 && f < n
    ensures BiasGrad(dy, n).data[f] == Sum(dy.rows, BlockRows(dy, n, f))
  {
    var sent := Sent(dy.data, BlockMap(dy.rows, dy.cols, n), f);
    forall x: nat | x < dy.rows
      ensures BlockRows(dy, n, f)(x) == Sum(dy.cols, (y: nat) => sent(x * dy.cols + y))
    {
      BlockRowSum(dy, n, f, x);
    }
    SumRowsOf(dy.rows, dy.cols, sent, BlockRows(dy, n, f));
  }

  lemma BlockRowSum(dy: Mat, n: nat, f: nat, x: nat)
    requires n > 0 && dy.cols % n == 0 && f < n && x < dy.rows
    ensures Sum(Spatial(dy.cols, n), BlockTerms(dy, n, f, x)) == Sum(dy.cols, RowSent(dy, n, f, x))
  {
    var sp := Spatial(dy.cols, n);
    forall u: nat | u < n
      ensures FilterSums(dy, n, f, x)(u) == Sum(sp, (v: nat) => RowSent(dy, n, f, x)(u * sp + v))
    {
      UnitSum(dy, n, f, x, u);
    }
    assert n * sp == dy.cols;
    SumRowsOf(n, sp, RowSent(dy, n, f, x), FilterSums(dy, n, f, x));
    SumPoint(n, f, Sum(sp, BlockTerms(dy, n, f, x)), FilterSums(dy, n, f, x));
  }

  /** The values of row `x` in the block of filter `u`. */
  function UnitRow(dy: Mat, n: nat, f: nat, x: nat, u: nat): nat -> real
    requires n > 0 && dy.cols % n == 0
  {
    (v: nat) => RowSent(dy, n, f, x)(u * Spatial(dy.cols, n) + v)
  }

  /** Within row `x`, only filter `f`'s block sends anything to bias entry `f`. */
  lemma UnitSum(dy: Mat, n: nat, f: nat, x: nat, u: nat)
    requires n > 0 && dy.cols % n == 0 && f < n && x < dy.rows && u < n
    ensures FilterSums(dy, n, f, x)(u) == Sum(Spatial(dy.cols, n), UnitRow(dy, n, f, x, u))
  {
    var sp := Spatial(dy.cols, n);
    if u == f {
      forall v: nat | v < sp
        ensures UnitRow(dy, n, f, x, u)(v) == BlockTerms(dy, n, f, x)(v)
      {
        SentAt(dy, n, f, x, u, v);
      }
      SumExt(sp, UnitRow(dy, n, f, x, u), BlockTerms(dy, n, f, x));
    } else {
      forall v: nat | v < sp
        ensures UnitRow(dy, n, f, x, u)(v) == 0.0
      {
        SentAt(dy, n, f, x, u, v);
      }
      SumZero(sp, UnitRow(dy, n, f, x, u));
    }
  }

  /** The flat entry at column `u*spatial + v` of row `x` goes to bias entry `u`. */
  lemma SentAt(dy: Mat, n: nat, f: nat, x: nat, u: nat, v: nat)
    requires n > 0 && dy.cols % n == 0 && x < dy.rows && u < n && v < Spatial(dy.cols, n)
    ensures u * Spatial(dy.cols, n) + v < dy.cols
    ensures RowSent(dy, n, f, x)(u * Spatial(dy.cols, n) + v)
         == if u == f then Get(dy, x, u * Spatial(dy.cols, n) + v) else 0.0
  {
    var sp: int := Spatial(dy.cols, n);
    var j: int := u * sp + v;
    FlatBound(u, v, n, sp);
    assert n * sp == dy.cols;
    FlatBound(x, j, dy.rows, dy.cols);
    DivMod(x, j, dy.cols);
    DivMod(u, v, sp);
    assert BlockMap(dy.rows, dy.cols, n)[x * dy.cols + j] == u;
    GetAt(dy, x, j);
    assert RowSent(dy, n, f, x)(j) == Sent(dy.data, BlockMap(dy.rows, dy.cols, n), f)(x * dy.cols + j);
    assert Sent(dy.data, BlockMap(dy.rows, dy.cols, n), f)(x * dy.cols + j) == if u == f then dy.data[x * dy.cols + j] else 0.0;
  }

  /**
   * `<broadcast(b), dy> == <b, biasgrad(dy)>`: the bias gradient is the
   * transpose of the broadcast, so it is the gradient of the loss through
   * the bias.
   */
  lemma BiasAdjoint(dy: Mat, b: seq<real>)
    requires |b| > 0 && dy.cols % |b| == 0
    ensures Inner(Broadcast(b, dy.rows, dy.cols).data, dy.data) == Inner(b, BiasGrad(dy, |b|).data)
  {
    GatherScatterAdjoint(b, dy.data, BlockMap(dy.rows, dy.cols, |b|));
  }

  // ---------------------------------------------------------------------------
  // forward_convolutional_bias and backward_convolutional_bias

  /** forward_convolutional_bias (lines 11-25): a copy of `xw` with bias entry `j / spatial` added to column `j`. */
  method ForwardBias(xw: Matrix, b: Matrix, debug: bool) returns (y: Matrix)
    requires xw.Valid() && b.Valid() && b.rows == 1 && b.cols > 0 && xw.cols % b.cols == 0
    ensures y.Valid() && fresh(y.data)
    ensures y.Value() == BiasAdded(xw.Value(), b.Value())
  {
    y := CopyMatrix(xw, debug);
    var spatial := xw.cols / b.cols;
    ghost var X, B := xw.Value(), b.Value();
    ghost var Bc := Broadcast(B.data, X.rows, X.cols);
    ghost var n := y.rows * y.cols;
    for i := 0 to y.rows
      invariant forall k :: 0 <= k < n ==> y.data[k] == if k < i * y.cols then X.data[k] + Bc.data[k] else X.data[k]
    {
      for j := 0 to y.cols
        invariant forall k :: 0 <= k < n ==> y.data[k] == if k < i * y.cols + j then X.data[k] + Bc.data[k] else X.data[k]
      {
        BiasStep(X, B, i, j);
        y.data[i * y.cols + j] := y.data[i * y.cols + j] + b.data[j / spatial];
      }
      assert i * y.cols + y.cols == (i + 1) * y.cols;
    }
    assert y.data[..] == BiasAdded(X, B).data;
  }

  /** Flat entry `i*cols + j` of the broadcast bias is bias entry `j / spatial`. */
  lemma BiasStep(X: Mat, B: Mat, i: nat, j: nat)
    requires B.rows == 1 && B.cols > 0 && X.cols % B.cols == 0 && i < X.rows && j < X.cols
    ensures i * X.cols + j < X.rows * X.cols && j / Spatial(X.cols, B.cols) < B.cols
    ensures Broadcast(B.data, X.rows, X.cols).data[i * X.cols + j] == B.data[j / Spatial(X.cols, B.cols)]
  {
    FlatBound(i, j, X.rows, X.cols);
    DivMod(i, j, X.cols);
    BlockBound(X.rows, X.cols, B.cols, i * X.cols + j);
  }

  /**
   * backward_convolutional_bias (lines 30-42): a fresh zeroed `1 x n` matrix
   * to which every entry of `dy` is added at the bias entry it used, in
   * row-major order.
   */
  method BackwardBias(dy: Matrix, n: nat, debug: bool) returns (db: Matrix)
    requires dy.Valid() && n > 0 && dy.cols % n == 0
    ensures db.Valid() && fresh(db.data)
    ensures db.Value() == BiasGrad(dy.Value(), n)
  {
    db := MakeMatrix(1, n, debug);
    var spatial := dy.cols / n;
    ghost var D := dy.Value();
    ghost var dst := BlockMap(D.rows, D.cols, n);
    ghost var tm := InOrder(D.rows * D.cols);
    ScatteredStart(db.data[..], D.data, dst, tm);
    for i := 0 to dy.rows
      invariant Scattered(db.data[..], D.data, dst, tm, i * dy.cols)
    {
      for j := 0 to dy.cols
        invariant Scattered(db.data[..], D.data, dst, tm, i * dy.cols + j)
      {
        BackwardBiasCell(dy, n, db, D, spatial, i, j);
      }
      assert i * dy.cols + dy.cols == (i + 1) * dy.cols;
    }
    ScatteredAll(db.data[..], D.data, dst, tm, dy.rows * dy.cols);
  }

  /** The body of backward_convolutional_bias's inner loop: `db[j/spatial] += dy[i][j]`. */
  method BackwardBiasCell(dy: Matrix, n: nat, db: Matrix, ghost D: Mat, spatial: int, i: nat, j: nat)
    requires dy.Valid() && db.Valid() && db.data != dy.data && db.rows == 1 && db.cols == n
    requires n > 0 && dy.cols % n == 0 && D == dy.Value() && spatial == dy.cols / n && i < dy.rows && j < dy.cols
    requires Scattered(db.data[..], D.data, BlockMap(D.rows, D.cols, n), InOrder(D.rows * D.cols), i * dy.cols + j)
    modifies db.data
    ensures Scattered(db.data[..], D.data, BlockMap(D.rows, D.cols, n), InOrder(D.rows * D.cols), i * dy.cols + j + 1)
  {
    var k: int := i * dy.cols + j;
    BlockStep(D, n, i, j);
    ScatteredStep(db.data[..], D.data, BlockMap(D.rows, D.cols, n), InOrder(D.rows * D.cols), k, k);
    db.data[j / spatial] := db.data[j / spatial] + dy.data[k];
  }

  /** Flat entry `i*cols + j` of `dy` goes to bias entry `j / spatial`, and the loop reaches it at step `i*cols + j`. */
  lemma BlockStep(D: Mat, n: nat, i: nat, j: nat)
    requires n > 0 && D.cols % n == 0 && i < D.rows && j < D.cols
    ensures i * D.cols + j < D.rows * D.cols
    ensures BlockMap(D.rows, D.cols, n)[i * D.cols + j] == j / Spatial(D.cols, n) && 0 <= j / Spatial(D.cols, n) < n
  {
    FlatBound(i, j, D.rows, D.cols);
    DivMod(i, j, D.cols);
    BlockBound(D.rows, D.cols, n, i * D.cols + j);
  }

  // ---------------------------------------------------------------------------
  // The layer's passes, as functions of the matrix values

  /** `matmul(w, im2col(example))`: the allocator's contents plus the product. */
  ghost function Convolved(W: Mat, im: seq<real>, g: Geometry, mode: AllocMode): (m: Mat)
    requires Sound(g) && |im| == ImageSize(g) && W.cols == ColRows(g)
    ensures m.rows == W.rows && m.cols == ColCols(g)
  {
    Add(Alloc(mode, W.rows, ColCols(g)), Product(W, Im2col(im, g)))
  }

  /**
   * The output rows of the first `r` examples before the bias: each
   * example's `Convolved` buffer, example `i`'s product accumulated into an
   * allocation holding `modes[i]`.
   */
  ghost function Stacked(W: Mat, X: Mat, g: Geometry, modes: seq<AllocMode>, r: nat): (s: seq<real>)
    requires Sound(g) && X.cols == ImageSize(g) && W.cols == ColRows(g) && r <= X.rows && r <= |modes|
    ensures |s| == r * (W.rows * ColCols(g))
  {
    if r == 0 then [] else Stacked(W, X, g, modes, r - 1) + Convolved(W, Example(X, r - 1), g, modes[r - 1]).data
  }

  /** `Stacked` depends only on the allocations of the examples it covers. */
  lemma {:induction false} StackedPrefix(W: Mat, X: Mat, g: Geometry, modes: seq<AllocMode>, more: seq<AllocMode>, r: nat)
    requires Sound(g) && X.cols == ImageSize(g) && W.cols == ColRows(g) && r <= X.rows && r <= |modes|
    ensures Stacked(W, X, g, modes + more, r) == Stacked(W, X, g, modes, r)
  {
    if r > 0 {
      StackedPrefix(W, X, g, modes, more, r - 1);
      assert (modes + more)[r - 1] == modes[r - 1];
    }
  }

  /** A `Stacked` buffer as the `rows x filters*outw*outh` matrix `out`. */
  ghost function Unbiased(W: Mat, X: Mat, g: Geometry, modes: seq<AllocMode>): (m: Mat)
    requires Sound(g) && X.cols == ImageSize(g) && W.cols == ColRows(g) && X.rows <= |modes|
    ensures m.rows == X.rows && m.cols == W.rows * ColCols(g)
  {
    MatVal(X.rows, W.rows * ColCols(g), Stacked(W, X, g, modes, X.rows))
  }

  lemma FilterBlocks(f: nat, n: nat)
    requires f > 0
    ensures (f * n) % f == 0 && Spatial(f * n, f) == n
  {
    DivMod(n, 0, f);
    assert f * n == n * f;
  }

  /** forward_convolutional_layer's result. */
  ghost function ConvForward(W: Mat, B: Mat, X: Mat, g: Geometry, modes: seq<AllocMode>): (y: Mat)
    requires Sound(g) && X.cols == ImageSize(g) && W.cols == ColRows(g) && X.rows <= |modes|
    requires W.rows > 0 && B.rows == 1 && B.cols == W.rows
    ensures y.rows == X.rows && y.cols == W.rows * ColCols(g)
  {
    FilterBlocks(W.rows, ColCols(g));
    BiasAdded(Unbiased(W, X, g, modes), B)
  }

  /** Entry `i*filters*outw*outh + j` of `Stacked` is entry `j` of example `i`'s `Convolved` buffer. */
  lemma {:induction false} StackedAt(W: Mat, X: Mat, g: Geometry, modes: seq<AllocMode>, r: nat, i: nat, j: nat)
    requires Sound(g) && X.cols == ImageSize(g) && W.cols == ColRows(g) && r <= X.rows && r <= |modes|
    requires i < r && j < W.rows * ColCols(g)
    ensures i * (W.rows * ColCols(g)) + j < r * (W.rows * ColCols(g))
    ensures Stacked(W, X, g, modes, r)[i * (W.rows * ColCols(g)) + j] == Convolved(W, Example(X, i), g, modes[i]).data[j]
  {
    var n := W.rows * ColCols(g);
    FlatBound(i, j, r, n);
    var front, last := Stacked(W, X, g, modes, r - 1), Convolved(W, Example(X, r - 1), g, modes[r - 1]).data;
    assert Stacked(W, X, g, modes, r) == front + last;
    if i < r - 1 {
      StackedAt(W, X, g, modes, r - 1, i, j);
      assert i * n + j < |front|;
    } else {
      assert i * n + j == |front| + j;
    }
  }

  /**
   * With zeroed allocation, output `(i, f*outw*outh + q)` is the inner
   * product of filter `f`'s weights with column `q` of example `i`'s im2col
   * matrix, plus the bias of filter `f`: the convolution of example `i`
   * with filter `f` at window `q`.
   */
  lemma ForwardEntry(W: Mat, B: Mat, X: Mat, g: Geometry, modes: seq<AllocMode>, i: nat, f: nat, q: nat)
    requires Sound(g) && X.cols == ImageSize(g) && W.cols == ColRows(g) && X.rows <= |modes|
    requires W.rows > 0 && B.rows == 1 && B.cols == W.rows
    requires i < X.rows && f < W.rows && q < ColCols(g) && modes[i] == Zeroed
    ensures 0 <= f * ColCols(g) + q < W.rows * ColCols(g)
    ensures Get(ConvForward(W, B, X, g, modes), i, f * ColCols(g) + q)
         == Dot(W, Im2col(Example(X, i), g), f, q) + B.data[f]
  {
    var cc := ColCols(g);
    var U := Unbiased(W, X, g, modes);
    FlatBound(f, q, W.rows, cc);
    var j: nat := f * cc + q;
    FilterBlocks(W.rows, cc);
    BiasBlockEntry(U, B, i, f, q, cc);
    ConvolvedZeroedAt(W, Example(X, i), g, f, q);
    UnbiasedAt(W, X, g, modes, i, j);
  }

  /** Entry `(i, j)` of the output before the bias is entry `j` of example `i`'s convolution. */
  lemma UnbiasedAt(W: Mat, X: Mat, g: Geometry, modes: seq<AllocMode>, i: nat, j: nat)
    requires Sound(g) && X.cols == ImageSize(g) && W.cols == ColRows(g) && X.rows <= |modes|
    requires i < X.rows && j < W.rows * ColCols(g)
    ensures Get(Unbiased(W, X, g, modes), i, j) == Convolved(W, Example(X, i), g, modes[i]).data[j]
  {
    var U := Unbiased(W, X, g, modes);
    StackedAt(W, X, g, modes, X.rows, i, j);
    GetAt(U, i, j);
  }

  /** With zeroed allocation, entry `(f, q)` of an example's convolution is the product entry. */
  lemma ConvolvedZeroedAt(W: Mat, im: seq<real>, g: Geometry, f: nat, q: nat)
    requires Sound(g) && |im| == ImageSize(g) && W.cols == ColRows(g) && f < W.rows && q < ColCols(g)
    ensures f * ColCols(g) + q < |Convolved(W, im, g, Zeroed).data|
    ensures Convolved(W, im, g, Zeroed).data[f * ColCols(g) + q] == Dot(W, Im2col(im, g), f, q)
  {
    var C := Convolved(W, im, g, Zeroed);
    var P := Product(W, Im2col(im, g));
    var k: int := f * ColCols(g) + q;
    GetAtOffset(C, f, q, k);
    GetAtOffset(P, f, q, k);
  }

  /**
   * `dy_i`: the `filters x outw*outh` matrix backward reads at offset
   * `i * filters*outw*outh` of `dy`'s buffer once it has reshaped `dy`.
   */
  function DyBlock(DY: Mat, rows: nat, cols: nat, i: nat): (m: Mat)
    requires i * (rows * cols) + rows * cols <= |DY.data|
    ensures m.rows == rows && m.cols == cols
  {
    MatVal(rows, cols, DY.data[i * (rows * cols) .. i * (rows * cols) + rows * cols])
  }

  /** `matmul(dy_i, transpose(im2col(example)))`: example `i`'s contribution to `dw`. */
  ghost function WeightGrad(DYi: Mat, im: seq<real>, g: Geometry, mode: AllocMode): (m: Mat)
    requires Sound(g) && |im| == ImageSize(g) && DYi.cols == ColCols(g)
    ensures m.rows == DYi.rows && m.cols == ColRows(g)
  {
    Add(Alloc(mode, DYi.rows, ColRows(g)), Product(DYi, Transpose(Im2col(im, g))))
  }

  /** `col2im(matmul(transpose(w), dy_i))`: row `i` of `dx`. */
  ghost function InputGrad(W: Mat, DYi: Mat, g: Geometry, mode: AllocMode): (im: seq<real>)
    requires Sound(g) && W.cols == ColRows(g) && DYi.rows == W.rows && DYi.cols == ColCols(g)
    ensures |im| == ImageSize(g)
  {
    Col2im(Add(Alloc(mode, ColRows(g), ColCols(g)), Product(Transpose(W), DYi)).data, g)
  }

  /** The room in `dy` for the blocks of `r` examples. */
  predicate DyCovers(DY: Mat, filters: nat, g: Geometry, r: nat)
    requires Sound(g)
  {
    r * (filters * ColCols(g)) <= |DY.data|
  }

  lemma DyCoversBlock(DY: Mat, filters: nat, g: Geometry, r: nat, i: nat)
    requires Sound(g) && DyCovers(DY, filters, g, r) && i < r
    ensures i * (filters * ColCols(g)) + filters * ColCols(g) <= |DY.data|
  {
    MulMono(i + 1, r, filters * ColCols(g));
  }

  /**
   * `dw` after the first `r` examples have each added their `WeightGrad`,
   * example `i`'s product accumulated into an allocation holding `modes[i]`.
   */
  ghost function DwAfter(DW: Mat, DY: Mat, X: Mat, g: Geometry, modes: seq<AllocMode>, r: nat): (m: Mat)
    requires Sound(g) && X.cols == ImageSize(g) && DW.cols == ColRows(g) && r <= X.rows && r <= |modes|
    requires DyCovers(DY, DW.rows, g, r)
    ensures m.rows == DW.rows && m.cols == DW.cols
  {
    if r == 0 then DW
    else
      DyCoversBlock(DY, DW.rows, g, r, r - 1);
      assert DyCovers(DY, DW.rows, g, r - 1) by { MulMono(r - 1, r, DW.rows * ColCols(g)); }
      var dyi := DyBlock(DY, DW.rows, ColCols(g), r - 1);
      Axpy(1.0, WeightGrad(dyi, Example(X, r - 1), g, modes[r - 1]), DwAfter(DW, DY, X, g, modes, r - 1))
  }

  /** `DwAfter` depends only on the allocations of the examples it covers. */
  lemma {:induction false} DwAfterPrefix(DW: Mat, DY: Mat, X: Mat, g: Geometry, modes: seq<AllocMode>, more: seq<AllocMode>, r: nat)
    requires Sound(g) && X.cols == ImageSize(g) && DW.cols == ColRows(g) && r <= X.rows && r <= |modes|
    requires DyCovers(DY, DW.rows, g, r)
    ensures DwAfter(DW, DY, X, g, modes + more, r) == DwAfter(DW, DY, X, g, modes, r)
  {
    if r > 0 {
      assert DyCovers(DY, DW.rows, g, r - 1) by { MulMono(r - 1, r, DW.rows * ColCols(g)); }
      DwAfterPrefix(DW, DY, X, g, modes, more, r - 1);
      assert (modes + more)[r - 1] == modes[r - 1];
    }
  }

  /**
   * The rows of `dx` for the first `r` examples: each example's `InputGrad`,
   * example `i`'s product accumulated into an allocation holding `modes[i]`.
   */
  ghost function DxRows(W: Mat, DY: Mat, g: Geometry, modes: seq<AllocMode>, r: nat): (s: seq<real>)
    requires Sound(g) && W.cols == ColRows(g) && r <= |modes| && DyCovers(DY, W.rows, g, r)
    ensures |s| == r * ImageSize(g)
  {
    if r == 0 then []
    else
      DyCoversBlock(DY, W.rows, g, r, r - 1);
      assert DyCovers(DY, W.rows, g, r - 1) by { MulMono(r - 1, r, W.rows * ColCols(g)); }
      var n: int := ImageSize(g);
      assert (r - 1) * n + n == r * n;
      DxRows(W, DY, g, modes, r - 1) + InputGrad(W, DyBlock(DY, W.rows, ColCols(g), r - 1), g, modes[r - 1])
  }

  /** `DxRows` depends only on the allocations of the examples it covers. */
  lemma {:induction false} DxRowsPrefix(W: Mat, DY: Mat, g: Geometry, modes: seq<AllocMode>, more: seq<AllocMode>, r: nat)
    requires Sound(g) && W.cols == ColRows(g) && r <= |modes| && DyCovers(DY, W.rows, g, r)
    ensures DxRows(W, DY, g, modes + more, r) == DxRows(W, DY, g, modes, r)
  {
    if r > 0 {
      assert DyCovers(DY, W.rows, g, r - 1) by { MulMono(r - 1, r, W.rows * ColCols(g)); }
      DxRowsPrefix(W, DY, g, modes, more, r - 1);
      assert (modes + more)[r - 1] == modes[r - 1];
    }
  }

  /** `n` zeros. */
  function ZeroSeq(n: nat): (z: seq<real>)
    ensures |z| == n && forall k :: 0 <= k < n ==> z[k] == 0.0
  {
    seq(n, (k: int) => 0.0)
  }

  /** backward_convolutional_layer's `dx`: the examples' rows, and zeros in any further rows of `dy`. */
  ghost function ConvBackwardDx(W: Mat, DY: Mat, X: Mat, g: Geometry, modes: seq<AllocMode>): (dx: Mat)
    requires Sound(g) && W.cols == ColRows(g) && X.rows <= DY.rows && X.rows <= |modes| && DyCovers(DY, W.rows, g, X.rows)
    ensures dx.rows == DY.rows && dx.cols == ImageSize(g)
  {
    var extra: int := (DY.rows - X.rows) * ImageSize(g);
    assert extra >= 0 by { MulMono(0, DY.rows - X.rows, ImageSize(g)); }
    MulSplit(X.rows, DY.rows - X.rows, ImageSize(g));
    MatVal(DY.rows, ImageSize(g), DxRows(W, DY, g, modes, X.rows) + ZeroSeq(extra))
  }

  // ---------------------------------------------------------------------------
  // Copying between buffers

  /** `dst[at + j] = src[j]` for `j < n`: forward's copy of `wx` into its output row, and backward's `memcpy`. */
  method CopyInto(dst: array<real>, at: nat, src: array<real>, n: nat)
    requires at + n <= dst.Length && n <= src.Length && dst != src
    modifies dst
    ensures dst[..] == old(dst[..at]) + src[..n] + old(dst[at + n..])
  {
    ghost var D := dst[..];
    for j := 0 to n
      invariant forall q :: 0 <= q < dst.Length ==> dst[q] == if at <= q < at + j then src[q - at] else D[q]
    {
      dst[at + j] := src[j];
    }
    assert dst[..] == D[..at] + src[..n] + D[at + n..];
  }

  /** A fresh `rows x cols` matrix holding the `rows*cols` values at offset `at` of `src`. */
  method CopyBlock(src: array<real>, at: nat, rows: nat, cols: nat, debug: bool) returns (m: Matrix)
    requires at + rows * cols <= src.Length
    ensures m.Valid() && fresh(m.data)
    ensures m.Value() == MatVal(rows, cols, src[at .. at + rows * cols])
  {
    ghost var mode;
    m, mode := MakeMatrixGarbage(rows, cols, debug);
    for j := 0 to rows * cols
      invariant forall q :: 0 <= q < j ==> m.data[q] == src[at + q]
    {
      m.data[j] := src[at + j];
    }
    assert m.data[..] == src[at .. at + rows * cols];
  }

  // ---------------------------------------------------------------------------
  // The layer object

  class ConvolutionalLayer {
    const width: nat
    const height: nat
    const channels: nat
    const filters: nat
    const size: nat
    const stride: nat
    const w: Matrix
    const dw: Matrix
    const b: Matrix
    const db: Matrix
    /** The cached input, `*l.x`. */
    var x: Matrix

    /** The layer's geometry for im2col and col2im. */
    function Geom(): Geometry
    {
      Geometry(width, height, channels, size, stride)
    }

    /** The shapes make_convolutional_layer gives, and five separate buffers. */
    predicate Valid()
      reads this
    {
      && w.Valid() && dw.Valid() && b.Valid() && db.Valid() && x.Valid()
      && w.rows == filters && w.cols == ColRows(Geom())
      && dw.rows == filters && dw.cols == ColRows(Geom())
      && b.rows == 1 && b.cols == filters && db.rows == 1 && db.cols == filters
      && w.data != dw.data && w.data != b.data && w.data != db.data && w.data != x.data
      && dw.data != b.data && dw.data != db.data && dw.data != x.data
      && b.data != db.data && b.data != x.data && db.data != x.data
    }

    /**
     * make_convolutional_layer (lines 248-266): the given initial weights,
     * zero gradients and biases, and an empty cached input.
     */
    constructor (width: nat, height: nat, channels: nat, filters: nat, size: nat, stride: nat,
                 weights: seq<real>, debug: bool)
      requires |weights| == filters * (size * size * channels)
      ensures Valid() && fresh(w.data) && fresh(dw.data) && fresh(b.data) && fresh(db.data) && fresh(x.data)
      ensures this.width == width && this.height == height && this.channels == channels
      ensures this.filters == filters && this.size == size && this.stride == stride
      ensures w.Value() == MatVal(filters, ColRows(Geom()), weights)
      ensures dw.Value() == Zeros(filters, ColRows(Geom()))
      ensures b.Value() == Zeros(1, filters) && db.Value() == Zeros(1, filters)
      ensures x.rows == 0 && x.cols == 0
    {
      var n := size * size * channels;
      assert n == ColRows(Geometry(width, height, channels, size, stride));
      var wd := new real[filters * n](k requires 0 <= k < filters * n => weights[k]);
      assert wd[..] == weights;
      this.width, this.height, this.channels := width, height, channels;
      this.filters, this.size, this.stride := filters, size, stride;
      this.w := new Matrix(filters, n, wd);
      var dw0 := MakeMatrix(filters, n, debug);
      var b0 := MakeMatrix(1, filters, debug);
      var db0 := MakeMatrix(1, filters, debug);
      this.dw, this.b, this.db := dw0, b0, db0;
      var empty := new real[0];
      this.x := new Matrix(0, 0, empty);
    }

    /**
     * forward_convolutional_layer (lines 145-171): caches a copy of `input`
     * and returns, row by row, `matmul(w, im2col(example))` plus the bias.
     * `modes[i]` is the allocation example `i`'s product was accumulated into.
     */
    method Forward(input: Matrix, debug: bool) returns (y: Matrix, ghost modes: seq<AllocMode>)
      requires Valid() && Sound(Geom()) && filters > 0
      requires input.Valid() && input.cols == ImageSize(Geom())
      modifies this
      ensures Valid() && fresh(x.data) && x.Value() == input.Value()
      ensures |modes| == input.rows && (debug ==> AllZeroed(modes))
      ensures y.Valid() && fresh(y.data)
      ensures y.Value() == ConvForward(w.Value(), b.Value(), input.Value(), Geom(), modes)
    {
      x := CopyMatrix(input, debug);
      var out;
      out, modes := ConvolveRows(input, w, Geom(), debug);
      FilterBlocks(filters, ColCols(Geom()));
      y := ForwardBias(out, b, debug);
    }

    /**
     * backward_convolutional_layer (lines 177-221): adds the bias gradient to
     * `db`, then for every cached example `i` adds `matmul(dy_i, transpose(im2col))`
     * to `dw` and writes `col2im(matmul(transpose(w), dy_i))` as row `i` of the
     * returned `dx`; the rows of `dy` past the cached examples give zero rows.
     * `dwModes[i]` and `dxModes[i]` are the allocations example `i`'s two
     * products were accumulated into.
     */
    method Backward(dy: Matrix, debug: bool) returns (dx: Matrix, ghost dwModes: seq<AllocMode>, ghost dxModes: seq<AllocMode>)
      requires Valid() && Sound(Geom()) && filters > 0
      requires dy.Valid() && dy.cols % filters == 0 && dy.data != dw.data && dy.data != db.data
      requires x.cols == ImageSize(Geom()) && x.rows <= dy.rows && DyCovers(dy.Value(), filters, Geom(), x.rows)
      modifies dw.data, db.data
      ensures Valid() && dy.Value() == old(dy.Value()) && x.Value() == old(x.Value()) && w.Value() == old(w.Value())
      ensures db.Value() == Axpy(1.0, BiasGrad(dy.Value(), filters), old(db.Value()))
      ensures |dwModes| == |dxModes| == x.rows && (debug ==> AllZeroed(dwModes) && AllZeroed(dxModes))
      ensures dw.Value() == DwAfter(old(dw.Value()), dy.Value(), x.Value(), Geom(), dwModes, x.rows)
      ensures dx.Valid() && fresh(dx.data)
      ensures dx.Value() == ConvBackwardDx(w.Value(), dy.Value(), x.Value(), Geom(), dxModes)
    {
      var dbi := BackwardBias(dy, db.cols, debug);
      AxpyMatrix(1.0, dbi, db);
      dx, dwModes, dxModes := BackwardExamples(x, dy, w, dw, Geom(), debug);
    }

    /**
     * update_convolutional_layer (lines 228-240): adds `decay * w` to `dw`,
     * steps `w` by `-rate * dw`, and `b` by `-rate * db`, then scales both
     * gradients by `momentum`.
     */
    method Update(rate: real, momentum: real, decay: real)
      requires Valid()
      modifies w.data, dw.data, b.data, db.data
      ensures Valid()
      ensures w.Value() == Axpy(-rate, Axpy(decay, old(w.Value()), old(dw.Value())), old(w.Value()))
      ensures dw.Value() == Scale(momentum, Axpy(decay, old(w.Value()), old(dw.Value())))
      ensures b.Value() == Axpy(-rate, old(db.Value()), old(b.Value()))
      ensures db.Value() == Scale(momentum, old(db.Value()))
    {
      AxpyMatrix(decay, w, dw);
      AxpyMatrix(-rate, dw, w);
      ScalMatrix(momentum, dw);
      AxpyMatrix(-rate, db, b);
      ScalMatrix(momentum, db);
    }
  }

  /**
   * The rest of backward_convolutional_layer: a zeroed `dx`, `transpose(w)`,
   * and one `BackwardExample` per cached example.
   */
  method BackwardExamples(x: Matrix, dy: Matrix, w: Matrix, dw: Matrix, g: Geometry, debug: bool)
    returns (dx: Matrix, ghost dwModes: seq<AllocMode>, ghost dxModes: seq<AllocMode>)
    requires Sound(g) && x.Valid() && dy.Valid() && w.Valid() && dw.Valid()
    requires w.cols == ColRows(g) && dw.rows == w.rows && dw.cols == ColRows(g)
    requires dw.data != x.data && dw.data != dy.data && dw.data != w.data
    requires x.cols == ImageSize(g) && x.rows <= dy.rows && DyCovers(dy.Value(), w.rows, g, x.rows)
    modifies dw.data
    ensures |dwModes| == |dxModes| == x.rows && (debug ==> AllZeroed(dwModes) && AllZeroed(dxModes))
    ensures dw.Value() == DwAfter(old(dw.Value()), dy.Value(), x.Value(), g, dwModes, x.rows)
    ensures dx.Valid() && fresh(dx.data)
    ensures dx.Value() == ConvBackwardDx(w.Value(), dy.Value(), x.Value(), g, dxModes)
  {
    ghost var W, X, DY, DW := w.Value(), x.Value(), dy.Value(), dw.Value();
    dx := MakeMatrix(dy.rows, g.width * g.height * g.channels, debug);
    var wt := TransposeMatrix(w, debug);
    assert dx.data[..] == DxRows(W, DY, g, [], 0) + ZeroSeq(dx.data.Length - 0 * dx.cols);
    dwModes, dxModes := BackwardLoop(x, dy, wt, dw, dx, g, debug, W, DW, DY, X);
    MulSplit(X.rows, DY.rows - X.rows, ImageSize(g));
  }

  /** backward's loop over the cached examples, one `BackwardExample` each. */
  method BackwardLoop(x: Matrix, dy: Matrix, wt: Matrix, dw: Matrix, dx: Matrix, g: Geometry, debug: bool,
                      ghost W: Mat, ghost DW: Mat, ghost DY: Mat, ghost X: Mat)
    returns (ghost dwModes: seq<AllocMode>, ghost dxModes: seq<AllocMode>)
    requires ExamplesDone(x, dy, wt, dw, dx, g, [], [], W, DW, DY, X, 0, 0)
    requires dw.data != x.data && dw.data != dy.data && dw.data != wt.data && dw.data != dx.data
    requires dx.data != x.data && dx.data != dy.data && dx.data != wt.data
    modifies dw.data, dx.data
    ensures ExamplesDone(x, dy, wt, dw, dx, g, dwModes, dxModes, W, DW, DY, X, X.rows, X.rows)
    ensures debug ==> AllZeroed(dwModes) && AllZeroed(dxModes)
  {
    dwModes, dxModes := [], [];
    for i := 0 to x.rows
      invariant ExamplesDone(x, dy, wt, dw, dx, g, dwModes, dxModes, W, DW, DY, X, i, i)
      invariant debug ==> AllZeroed(dwModes) && AllZeroed(dxModes)
    {
      ghost var kw, kx := BackwardExample(x, dy, wt, dw, dx, g, debug, dwModes, dxModes, W, DW, DY, X, i);
      dwModes, dxModes := dwModes + [kw], dxModes + [kx];
    }
  }

  /**
   * The state of backward's example loop: `dw` holds the weight gradient of
   * the first `iw` examples added to its old value, and `dx` holds the input
   * gradients of the first `ix` examples, then zeros.
   */
  ghost predicate ExamplesDone(x: Matrix, dy: Matrix, wt: Matrix, dw: Matrix, dx: Matrix, g: Geometry,
                               dwModes: seq<AllocMode>, dxModes: seq<AllocMode>,
                               W: Mat, DW: Mat, DY: Mat, X: Mat, iw: nat, ix: nat)
    reads x.data, dy.data, wt.data, dw.data, dx.data
  {
    && Sound(g) && W.cols == ColRows(g) && W.rows == DW.rows && DW.cols == ColRows(g)
    && x.Valid() && dy.Valid() && wt.Valid() && dw.Valid() && dx.Valid()
    && x.Value() == X && dy.Value() == DY && wt.Value() == Transpose(W)
    && dx.rows == DY.rows && dx.cols == ImageSize(g) && X.cols == ImageSize(g) && X.rows <= DY.rows
    && iw <= X.rows && ix <= X.rows && |dwModes| == iw && |dxModes| == ix
    && DyCovers(DY, W.rows, g, X.rows) && DyCovers(DY, W.rows, g, iw) && DyCovers(DY, W.rows, g, ix)
    && dw.Value() == DwAfter(DW, DY, X, g, dwModes, iw)
    && ix * dx.cols <= dx.data.Length
    && dx.data[..] == DxRows(W, DY, g, dxModes, ix) + ZeroSeq(dx.data.Length - ix * dx.cols)
  }

  /**
   * The update is stochastic gradient descent with L2 weight decay and
   * momentum: each weight shrinks by `rate * decay` of itself and moves
   * `rate` against its gradient, and the gradient kept for the next step is
   * `momentum` times the decayed gradient.
   */
  lemma UpdateIsSgd(rate: real, momentum: real, decay: real, W: Mat, DW: Mat, k: nat)
    requires W.rows == DW.rows && W.cols == DW.cols && k < |W.data|
    ensures Axpy(-rate, Axpy(decay, W, DW), W).data[k] == (1.0 - rate * decay) * W.data[k] - rate * DW.data[k]
    ensures Scale(momentum, Axpy(decay, W, DW)).data[k] == momentum * DW.data[k] + momentum * decay * W.data[k]
  {
    var G := Axpy(decay, W, DW);
    assert G.data[k] == DW.data[k] + decay * W.data[k];
  }

  /** With zero momentum the update leaves no gradient behind; with zero rate it leaves the weights alone. */
  lemma UpdateEdges(decay: real, W: Mat, DW: Mat)
    requires W.rows == DW.rows && W.cols == DW.cols
    ensures Scale(0.0, Axpy(decay, W, DW)) == Zeros(W.rows, W.cols)
    ensures Axpy(-0.0, Axpy(decay, W, DW), W) == W
  {
    var Z := Scale(0.0, Axpy(decay, W, DW));
    assert Z.data == Zeros(W.rows, W.cols).data;
    var V := Axpy(-0.0, Axpy(decay, W, DW), W);
    assert V.data == W.data;
  }

  /** One iteration of backward's loop, for cached example `i`: its weight gradient, then its input gradient. */
  method BackwardExample(x: Matrix, dy: Matrix, wt: Matrix, dw: Matrix, dx: Matrix, g: Geometry, debug: bool,
                         ghost dwModes: seq<AllocMode>, ghost dxModes: seq<AllocMode>,
                         ghost W: Mat, ghost DW: Mat, ghost DY: Mat, ghost X: Mat, i: nat)
    returns (ghost kw: AllocMode, ghost kx: AllocMode)
    requires ExamplesDone(x, dy, wt, dw, dx, g, dwModes, dxModes, W, DW, DY, X, i, i) && i < X.rows
    requires dw.data != x.data && dw.data != dy.data && dw.data != wt.data && dw.data != dx.data
    requires dx.data != x.data && dx.data != dy.data && dx.data != wt.data
    modifies dw.data, dx.data
    ensures ExamplesDone(x, dy, wt, dw, dx, g, dwModes + [kw], dxModes + [kx], W, DW, DY, X, i + 1, i + 1)
    ensures debug ==> kw == Zeroed && kx == Zeroed
  {
    var dyi;
    dyi, kw := WeightStep(x, dy, wt, dw, dx, g, debug, dwModes, dxModes, W, DW, DY, X, i);
    kx := InputStep(x, dy, wt, dw, dx, dyi, g, debug, dwModes + [kw], dxModes, W, DW, DY, X, i);
  }

  /** The first half of iteration `i`: `dw += matmul(dy_i, transpose(im2col(example)))`; returns `dy_i`. */
  method WeightStep(x: Matrix, dy: Matrix, wt: Matrix, dw: Matrix, dx: Matrix, g: Geometry, debug: bool,
                    ghost dwModes: seq<AllocMode>, ghost dxModes: seq<AllocMode>,
                    ghost W: Mat, ghost DW: Mat, ghost DY: Mat, ghost X: Mat, i: nat)
    returns (dyi: Matrix, ghost kw: AllocMode)
    requires ExamplesDone(x, dy, wt, dw, dx, g, dwModes, dxModes, W, DW, DY, X, i, i) && i < X.rows
    requires dw.data != x.data && dw.data != dy.data && dw.data != wt.data && dw.data != dx.data
    modifies dw.data
    ensures ExamplesDone(x, dy, wt, dw, dx, g, dwModes + [kw], dxModes, W, DW, DY, X, i + 1, i)
    ensures debug ==> kw == Zeroed
    ensures dyi.Valid() && fresh(dyi.data) && i * (W.rows * ColCols(g)) + W.rows * ColCols(g) <= |DY.data|
    ensures dyi.Value() == DyBlock(DY, W.rows, ColCols(g), i)
  {
    DyCoversBlock(DY, DW.rows, g, X.rows, i);
    dyi := DyBlockMatrix(dy, dw.rows, g, debug, i);
    kw := AccumulateWeightGrad(dyi, x, dw, g, debug, i);
    ghost var modes := dwModes + [kw];
    DwAfterStep(DW, DY, X, g, modes, i);
    DwAfterPrefix(DW, DY, X, g, dwModes, [kw], i);
    assert modes[i] == kw;
    assert dw.Value() == DwAfter(DW, DY, X, g, modes, i + 1);
  }

  /** The second half of iteration `i`: row `i` of `dx` becomes `col2im(matmul(transpose(w), dy_i))`. */
  method InputStep(x: Matrix, dy: Matrix, wt: Matrix, dw: Matrix, dx: Matrix, dyi: Matrix, g: Geometry, debug: bool,
                   ghost dwModes: seq<AllocMode>, ghost dxModes: seq<AllocMode>,
                   ghost W: Mat, ghost DW: Mat, ghost DY: Mat, ghost X: Mat, i: nat)
    returns (ghost kx: AllocMode)
    requires ExamplesDone(x, dy, wt, dw, dx, g, dwModes, dxModes, W, DW, DY, X, i + 1, i) && i < X.rows
    requires dyi.Valid() && i * (W.rows * ColCols(g)) + W.rows * ColCols(g) <= |DY.data| && dyi.Value() == DyBlock(DY, W.rows, ColCols(g), i)
    requires dx.data != x.data && dx.data != dy.data && dx.data != wt.data && dx.data != dw.data && dx.data != dyi.data
    modifies dx.data
    ensures ExamplesDone(x, dy, wt, dw, dx, g, dwModes, dxModes + [kx], W, DW, DY, X, i + 1, i + 1)
    ensures debug ==> kx == Zeroed
  {
    var dxi;
    dxi, kx := InputGradImage(wt, dyi, g, debug, W);
    ghost var modes := dxModes + [kx];
    DxRowsStep(W, DY, g, modes, i, x.rows);
    DxRowsPrefix(W, DY, g, dxModes, [kx], i);
    var at: int := i * dx.cols;
    RowAt(dx.rows, dx.cols, i, at);
    ghost var rows, row := DxRows(W, DY, g, dxModes, i), dxi[..];
    assert dxi[..dx.cols] == row;
    WriteRow(dx.data, at, rows, dxi, dx.cols);
    assert rows + row == DxRows(W, DY, g, modes, i + 1);
    assert (i + 1) * dx.cols == at + dx.cols;
  }

  /** `dy` reshaped to `filters x outw*outh` at offset `i * filters*outw*outh`, as the loop sees it in iteration `i`. */
  method DyBlockMatrix(dy: Matrix, filters: nat, g: Geometry, debug: bool, i: nat) returns (dyi: Matrix)
    requires Sound(g) && dy.Valid() && i * (filters * ColCols(g)) + filters * ColCols(g) <= dy.data.Length
    ensures dyi.Valid() && fresh(dyi.data)
    ensures dyi.Value() == DyBlock(dy.Value(), filters, ColCols(g), i)
  {
    var n := ColCols(g);
    var block: int := filters * n;
    var at: int := i * block;
    MulMono(0, i, block);
    dyi := CopyBlock(dy.data, at, filters, n, debug);
  }

  /** `dw = matmul(dy_i, transpose(im2col(example i)))` followed by `axpy_matrix(1, dw, l.dw)`. */
  method AccumulateWeightGrad(dyi: Matrix, x: Matrix, dw: Matrix, g: Geometry, debug: bool, i: nat)
    returns (ghost mode: AllocMode)
    requires Sound(g) && dyi.Valid() && x.Valid() && dw.Valid() && dw.data != x.data && dw.data != dyi.data
    requires dyi.cols == ColCols(g) && x.cols == ImageSize(g) && i < x.rows && dw.rows == dyi.rows && dw.cols == ColRows(g)
    modifies dw.data
    ensures debug ==> mode == Zeroed
    ensures dw.Value() == Axpy(1.0, WeightGrad(dyi.Value(), Example(x.Value(), i), g, mode), old(dw.Value()))
  {
    ghost var D0 := dw.Value();
    var start: int := i * x.cols;
    RowAt(x.rows, x.cols, i, start);
    ghost var im := Example(x.Value(), i);
    assert im == x.data[start..start + ImageSize(g)];
    var col := Im2colMatrix(x.data, start, g, debug);
    var xt := TransposeMatrix(col, debug);
    assert xt.Value() == Transpose(Im2col(im, g));
    var dwi;
    dwi, mode := MatMul(dyi, xt, debug);
    ghost var G := WeightGrad(dyi.Value(), im, g, mode);
    assert dwi.Value() == G;
    assert dw.Value() == D0;
    AxpyMatrix(1.0, dwi, dw);
    assert dw.Value() == Axpy(1.0, G, D0);
  }

  /** `col2im(matmul(transpose(w), dy_i))`, example `i`'s row of `dx`. */
  method InputGradImage(wt: Matrix, dyi: Matrix, g: Geometry, debug: bool, ghost W: Mat)
    returns (dxi: array<real>, ghost mode: AllocMode)
    requires Sound(g) && wt.Valid() && dyi.Valid() && wt.Value() == Transpose(W)
    requires W.cols == ColRows(g) && dyi.rows == W.rows && dyi.cols == ColCols(g)
    ensures debug ==> mode == Zeroed
    ensures fresh(dxi) && dxi[..] == InputGrad(W, dyi.Value(), g, mode)
  {
    var c;
    c, mode := MatMul(wt, dyi, debug);
    assert c.data[..Patches.Entries(g)] == c.data[..];
    dxi := Col2imImage(g, c);
  }

  /** Example `i` adds its weight gradient to what the earlier examples added. */
  lemma DwAfterStep(DW: Mat, DY: Mat, X: Mat, g: Geometry, modes: seq<AllocMode>, i: nat)
    requires Sound(g) && X.cols == ImageSize(g) && DW.cols == ColRows(g) && i < X.rows && i < |modes|
    requires DyCovers(DY, DW.rows, g, X.rows)
    ensures DyCovers(DY, DW.rows, g, i) && DyCovers(DY, DW.rows, g, i + 1)
    ensures i * (DW.rows * ColCols(g)) + DW.rows * ColCols(g) <= |DY.data|
    ensures DwAfter(DW, DY, X, g, modes, i + 1)
         == Axpy(1.0, WeightGrad(DyBlock(DY, DW.rows, ColCols(g), i), Example(X, i), g, modes[i]), DwAfter(DW, DY, X, g, modes, i))
  {
    MulMono(i + 1, X.rows, DW.rows * ColCols(g));
    MulMono(i, i + 1, DW.rows * ColCols(g));
  }

  /** Example `i` appends its input gradient to the rows of the earlier examples. */
  lemma DxRowsStep(W: Mat, DY: Mat, g: Geometry, modes: seq<AllocMode>, i: nat, r: nat)
    requires Sound(g) && W.cols == ColRows(g) && i < r && i < |modes| && DyCovers(DY, W.rows, g, r)
    ensures DyCovers(DY, W.rows, g, i) && DyCovers(DY, W.rows, g, i + 1)
    ensures i * (W.rows * ColCols(g)) + W.rows * ColCols(g) <= |DY.data|
    ensures DxRows(W, DY, g, modes, i + 1) == DxRows(W, DY, g, modes, i) + InputGrad(W, DyBlock(DY, W.rows, ColCols(g), i), g, modes[i])
  {
    MulMono(i + 1, r, W.rows * ColCols(g));
    MulMono(i, i + 1, W.rows * ColCols(g));
  }

  /** The loop of forward_convolutional_layer: row `i` of `out` is `matmul(w, im2col(example i))`. */
  method ConvolveRows(input: Matrix, w: Matrix, g: Geometry, debug: bool) returns (out: Matrix, ghost modes: seq<AllocMode>)
    requires Sound(g) && input.Valid() && input.cols == ImageSize(g) && w.Valid() && w.cols == ColRows(g)
    ensures |modes| == input.rows && (debug ==> AllZeroed(modes))
    ensures out.Valid() && fresh(out.data)
    ensures out.Value() == Unbiased(w.Value(), input.Value(), g, modes)
  {
    ghost var W, X := w.Value(), input.Value();
    var outw := (g.width - 1) / g.stride + 1;
    var outh := (g.height - 1) / g.stride + 1;
    OutputWidth(g, w.rows, outw, outh);
    out := MakeMatrix(input.rows, outw * outh * w.rows, debug);
    modes := [];
    for i := 0 to input.rows
      invariant out.Valid() && fresh(out.data) && out.rows == input.rows && out.cols == w.rows * ColCols(g)
      invariant |modes| == i && (debug ==> AllZeroed(modes))
      invariant |Stacked(W, X, g, modes, i)| <= out.data.Length
      invariant out.data[..] == Stacked(W, X, g, modes, i) + ZeroSeq(out.data.Length - |Stacked(W, X, g, modes, i)|)
    {
      ghost var k := ConvolveRow(out, input, w, g, debug, modes, i);
      modes := modes + [k];
    }
  }

  /** One iteration of the loop: example `i` is convolved and written as row `i` of `out`. */
  method ConvolveRow(out: Matrix, input: Matrix, w: Matrix, g: Geometry, debug: bool, ghost modes: seq<AllocMode>, i: nat)
    returns (ghost k: AllocMode)
    requires Sound(g) && input.Valid() && input.cols == ImageSize(g) && w.Valid() && w.cols == ColRows(g)
    requires out.Valid() && out.rows == input.rows && out.cols == w.rows * ColCols(g) && i < input.rows
    requires out.data != input.data && out.data != w.data && |modes| == i
    requires |Stacked(w.Value(), input.Value(), g, modes, i)| <= out.data.Length
    requires out.data[..] == Stacked(w.Value(), input.Value(), g, modes, i)
      + ZeroSeq(out.data.Length - |Stacked(w.Value(), input.Value(), g, modes, i)|)
    modifies out.data
    ensures debug ==> k == Zeroed
    ensures |Stacked(w.Value(), input.Value(), g, modes + [k], i + 1)| <= out.data.Length
    ensures out.data[..] == Stacked(w.Value(), input.Value(), g, modes + [k], i + 1)
      + ZeroSeq(out.data.Length - |Stacked(w.Value(), input.Value(), g, modes + [k], i + 1)|)
  {
    ghost var W, X := w.Value(), input.Value();
    ghost var s := Stacked(W, X, g, modes, i);
    var at: int := i * out.cols;
    RowAt(out.rows, out.cols, i, at);
    var wx;
    wx, k := ConvolveExample(input, w, g, debug, i);
    StackedPrefix(W, X, g, modes, [k], i);
    ghost var row := wx.data[..];
    var n: int := wx.rows * wx.cols;
    assert n == |row| == out.cols;
    assert |s| == at;
    WriteRow(out.data, at, s, wx.data, n);
    assert Stacked(W, X, g, modes + [k], i + 1) == s + row;
  }

  /** `matmul(w, im2col(example i))`, the product for one example. */
  method ConvolveExample(input: Matrix, w: Matrix, g: Geometry, debug: bool, i: nat) returns (wx: Matrix, ghost mode: AllocMode)
    requires Sound(g) && input.Valid() && input.cols == ImageSize(g) && w.Valid() && w.cols == ColRows(g)
    requires i < input.rows
    ensures debug ==> mode == Zeroed
    ensures wx.Valid() && fresh(wx.data) && wx.rows == w.rows && wx.cols == ColCols(g)
    ensures wx.data[..] == Convolved(w.Value(), Example(input.Value(), i), g, mode).data
  {
    var start: int := i * input.cols;
    RowAt(input.rows, input.cols, i, start);
    var col := Im2colMatrix(input.data, start, g, debug);
    wx, mode := MatMul(w, col, debug);
  }

  /** Writes `src[..n]` over the zeros that follow the prefix `s` of `dst`. */
  method WriteRow(dst: array<real>, at: nat, ghost s: seq<real>, src: array<real>, n: nat)
    requires at == |s| && at + n <= dst.Length && n <= src.Length && dst != src
    requires dst[..] == s + ZeroSeq(dst.Length - at)
    modifies dst
    ensures dst[..] == s + src[..n] + ZeroSeq(dst.Length - at - n)
  {
    ghost var before := dst[..];
    CopyInto(dst, at, src, n);
    SpliceRow(before, src[..n], s, dst.Length, dst[..]);
  }

  /** Row `i` of a `rows x cols` buffer starts at `at == i * cols` and lies inside it. */
  lemma RowAt(rows: nat, cols: nat, i: nat, at: int)
    requires i < rows && at == i * cols
    ensures 0 <= at && at + cols <= rows * cols
  {
    MulMono(i + 1, rows, cols);
  }

  /** `outw * outh * filters`, the width of forward's output, is `filters` blocks of `outw * outh` columns. */
  lemma OutputWidth(g: Geometry, filters: nat, outw: int, outh: int)
    requires Sound(g) && outw == (g.width - 1) / g.stride + 1 && outh == (g.height - 1) / g.stride + 1
    ensures outw * outh * filters == filters * ColCols(g)
  {
  }

  /** Copying a row over the zeros that follow the rows already written. */
  lemma SpliceRow(before: seq<real>, row: seq<real>, s: seq<real>, n: nat, after: seq<real>)
    requires |s| + |row| <= n && before == s + ZeroSeq(n - |s|)
    requires after == before[..|s|] + row + before[|s| + |row|..]
    ensures after == (s + row) + ZeroSeq(n - |s + row|)
  {
    assert before[..|s|] == s;
    assert before[|s| + |row|..] == ZeroSeq(n - |s + row|);
  }
}
