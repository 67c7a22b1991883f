/**
 * Gauss-Jordan inversion with partial pivoting (matrix_invert in
 * src/matrix.c), its augmented starting matrix, and solve_system.
 *
 * The C code keeps an array `cdata` of row pointers into the augmented
 * buffer and swaps pointers instead of rows; here `cdata` holds row numbers,
 * and `View(C, P)` is the matrix seen through them.  Every step of the
 * elimination is shown to be a row operation on that view, and a ghost
 * matrix `E` records the product of those operations: the view is always
 * `E * A0`, where `A0` is the augmented matrix the elimination started from.
 */
module MatrixInvert {
  import opened Arith
  import opened Sums
  import opened Matrices

  /** fabs */
  function Abs(x: real): (r: real)
    ensures r >= 0.0 && (r == 0.0 <==> x == 0.0) && (r == x || r == -x)
  {
    if x < 0.0 then -x else x
  }

  // ---------------------------------------------------------------------------
  // Blocks of columns and the augmented matrix

  /** Columns `j0 .. j0+w-1` of `m`. */
  ghost function Block(m: Mat, j0: nat, w: nat): (b: Mat)
    requires j0 + w <= m.cols
    ensures b.rows == m.rows && b.cols == w
    ensures forall i: nat, j: nat :: i < m.rows && j < w ==> Get(b, i, j) == Get(m, i, j0 + j)
  {
    Build(m.rows, w, (i: nat, j: nat) => if i < m.rows && j < w then Get(m, i, j0 + j) else 0.0)
  }

  /** A block of columns of a product is the product with that block. */
  lemma BlockProduct(e: Mat, a: Mat, j0: nat, w: nat)
    requires e.cols == a.rows && j0 + w <= a.cols
    ensures Block(Product(e, a), j0, w) == Product(e, Block(a, j0, w))
  {
    var b := Block(a, j0, w);
    forall i: nat, j: nat | i < e.rows && j < w
      ensures Get(Block(Product(e, a), j0, w), i, j) == Get(Product(e, b), i, j)
    {
      SumExt(e.cols, Terms(e, a, i, j0 + j), Terms(e, b, i, j));
    }
    Ext(Block(Product(e, a), j0, w), Product(e, b));
  }

  /**
   * What augment_matrix leaves in its `rows x 2*cols` buffer: `m` on the
   * left, 1 at `(i, cols + i)`, and the allocator's contents everywhere else.
   */
  ghost function Augment(mode: AllocMode, m: Mat): (c: Mat)
    ensures c.rows == m.rows && c.cols == 2 * m.cols
  {
    Build(m.rows, 2 * m.cols, (i: nat, j: nat) =>
      if i < m.rows && j < m.cols then Get(m, i, j)
      else if j == m.cols + i then 1.0
      else Fill(mode, i * (2 * m.cols) + j))
  }

  /** On a zeroed allocation the augmented square matrix is `[m | I]`. */
  lemma AugmentZeroed(m: Mat)
    requires m.rows == m.cols
    ensures Block(Augment(Zeroed, m), 0, m.cols) == m
    ensures Block(Augment(Zeroed, m), m.cols, m.cols) == Identity(m.rows)
  {
    AugmentLeft(Zeroed, m);
    var r := Block(Augment(Zeroed, m), m.cols, m.cols);
    forall i: nat, j: nat | i < m.rows && j < m.cols
      ensures Get(r, i, j) == Get(Identity(m.rows), i, j)
    {
      AugmentRightEntry(m, i, j);
    }
    Ext(r, Identity(m.rows));
  }

  lemma AugmentRightEntry(m: Mat, i: nat, j: nat)
    requires m.rows == m.cols && i < m.rows && j < m.cols
    ensures Get(Block(Augment(Zeroed, m), m.cols, m.cols), i, j) == if i == j then 1.0 else 0.0
  {
    var c := Augment(Zeroed, m);
    assert Get(Block(c, m.cols, m.cols), i, j) == Get(c, i, m.cols + j);
    assert Get(c, i, m.cols + j) == if m.cols + j == m.cols + i then 1.0 else Fill(Zeroed, i * (2 * m.cols) + (m.cols + j));
  }

  /** However the buffer was allocated, the left half of the augmented matrix is `m`. */
  lemma AugmentLeft(mode: AllocMode, m: Mat)
    ensures Block(Augment(mode, m), 0, m.cols) == m
  {
    var l := Block(Augment(mode, m), 0, m.cols);
    forall i: nat, j: nat | i < m.rows && j < m.cols
      ensures Get(l, i, j) == Get(m, i, j)
    {
      assert Get(l, i, j) == Get(Augment(mode, m), i, j);
    }
    Ext(l, m);
  }

  // ---------------------------------------------------------------------------
  // Row operations on matrix values

  function Swapped(i: nat, a: nat, b: nat): nat
  {
    if i == a then b else if i == b then a else i
  }

  /** `v` with rows `a` and `b` exchanged. */
  ghost function SwapRows(v: Mat, a: nat, b: nat): (w: Mat)
    requires a < v.rows && b < v.rows
    ensures w.rows == v.rows && w.cols == v.cols
    ensures forall i: nat, j: nat :: i < v.rows && j < v.cols ==> Get(w, i, j) == Get(v, Swapped(i, a, b), j)
  {
    Build(v.rows, v.cols, (i: nat, j: nat) => if i < v.rows && j < v.cols then Get(v, Swapped(i, a, b), j) else 0.0)
  }

  /** `v` with row `k` multiplied by `s`. */
  ghost function ScaleRow(v: Mat, k: nat, s: real): (w: Mat)
    requires k < v.rows
    ensures w.rows == v.rows && w.cols == v.cols
    ensures forall i: nat, j: nat :: i < v.rows && j < v.cols ==>
      Get(w, i, j) == if i == k then s * Get(v, i, j) else Get(v, i, j)
  {
    Build(v.rows, v.cols, (i: nat, j: nat) =>
      if i < v.rows && j < v.cols then (if i == k then s * Get(v, i, j) else Get(v, i, j)) else 0.0)
  }

  /** `v` with `s` times row `k` added to row `i0`. */
  ghost function AddRow(v: Mat, i0: nat, k: nat, s: real): (w: Mat)
    requires i0 < v.rows && k < v.rows
    ensures w.rows == v.rows && w.cols == v.cols
    ensures forall i: nat, j: nat :: i < v.rows && j < v.cols ==>
      Get(w, i, j) == if i == i0 then Get(v, i, j) + s * Get(v, k, j) else Get(v, i, j)
  {
    Build(v.rows, v.cols, (i: nat, j: nat) =>
      if i < v.rows && j < v.cols then (if i == i0 then Get(v, i, j) + s * Get(v, k, j) else Get(v, i, j)) else 0.0)
  }

  /** Exchanging rows of `e` exchanges the same rows of `e * a`. */
  lemma ProductSwapRows(e: Mat, a: Mat, r: nat, q: nat)
    requires e.cols == a.rows && r < e.rows && q < e.rows
    ensures Product(SwapRows(e, r, q), a) == SwapRows(Product(e, a), r, q)
  {
    var e' := SwapRows(e, r, q);
    forall i: nat, j: nat | i < e.rows && j < a.cols
      ensures Get(Product(e', a), i, j) == Get(SwapRows(Product(e, a), r, q), i, j)
    {
      SumExt(e.cols, Terms(e', a, i, j), Terms(e, a, Swapped(i, r, q), j));
    }
    Ext(Product(e', a), SwapRows(Product(e, a), r, q));
  }

  /** Scaling a row of `e` scales the same row of `e * a`. */
  lemma ProductScaleRow(e: Mat, a: Mat, k: nat, s: real)
    requires e.cols == a.rows && k < e.rows
    ensures Product(ScaleRow(e, k, s), a) == ScaleRow(Product(e, a), k, s)
  {
    forall i: nat, j: nat | i < e.rows && j < a.cols
      ensures Get(Product(ScaleRow(e, k, s), a), i, j) == Get(ScaleRow(Product(e, a), k, s), i, j)
    {
      ProductScaleRowAt(e, a, k, s, i, j);
    }
    Ext(Product(ScaleRow(e, k, s), a), ScaleRow(Product(e, a), k, s));
  }

  lemma ProductScaleRowAt(e: Mat, a: Mat, k: nat, s: real, i: nat, j: nat)
    requires e.cols == a.rows && k < e.rows && i < e.rows && j < a.cols
    ensures Get(Product(ScaleRow(e, k, s), a), i, j) == Get(ScaleRow(Product(e, a), k, s), i, j)
  {
    if i == k {
      ProductScaleRowSame(e, a, k, s, j);
      ScaleRowGet(Product(e, a), k, s, j);
    } else {
      OtherRowTerms(e, ScaleRow(e, k, s), a, i, j);
    }
  }

  lemma ProductScaleRowSame(e: Mat, a: Mat, k: nat, s: real, j: nat)
    requires e.cols == a.rows && k < e.rows && j < a.cols
    ensures Get(Product(ScaleRow(e, k, s), a), k, j) == s * Get(Product(e, a), k, j)
  {
    var e' := ScaleRow(e, k, s);
    ScaleRowTerms(e, a, k, s, j);
    DotScale(e', e, a, k, k, j, s);
    SubstScale(Get(Product(e', a), k, j), Get(Product(e, a), k, j), s, Dot(e', a, k, j), Dot(e, a, k, j));
  }

  lemma ProductAddRowSame(e: Mat, a: Mat, i0: nat, k: nat, s: real, j: nat)
    requires e.cols == a.rows && i0 < e.rows && k < e.rows && j < a.cols
    ensures Get(Product(AddRow(e, i0, k, s), a), i0, j) == Get(Product(e, a), i0, j) + s * Get(Product(e, a), k, j)
  {
    var e' := AddRow(e, i0, k, s);
    assert Dot(e', a, i0, j) == Dot(e, a, i0, j) + s * Dot(e, a, k, j) by {
      AddRowTerms(e, a, i0, k, s, j);
      DotLinear(e', e, e, a, i0, i0, k, j, s);
    }
    SubstLinear(Get(Product(e', a), i0, j), Get(Product(e, a), i0, j), Get(Product(e, a), k, j), s,
      Dot(e', a, i0, j), Dot(e, a, i0, j), Dot(e, a, k, j));
  }

  /** Products with matrices that share row `i` share row `i`. */
  lemma OtherRowTerms(e: Mat, e': Mat, a: Mat, i: nat, j: nat)
    requires e.cols == a.rows && e'.rows == e.rows && e'.cols == e.cols && i < e.rows && j < a.cols
    requires forall r: nat :: r < e.cols ==> Get(e', i, r) == Get(e, i, r)
    ensures Get(Product(e', a), i, j) == Get(Product(e, a), i, j)
  {
    SumExt(e.cols, Terms(e', a, i, j), Terms(e, a, i, j));
  }

  lemma ScaleRowTerms(e: Mat, a: Mat, k: nat, s: real, j: nat)
    requires e.cols == a.rows && k < e.rows && j < a.cols
    ensures forall r: nat :: r < e.cols ==> Terms(ScaleRow(e, k, s), a, k, j)(r) == s * Terms(e, a, k, j)(r)
  {
    forall r: nat | r < e.cols
      ensures Terms(ScaleRow(e, k, s), a, k, j)(r) == s * Terms(e, a, k, j)(r)
    {
      ScaledTerm(s, Get(e, k, r), Get(a, r, j));
    }
  }

  lemma ScaleRowGet(v: Mat, k: nat, s: real, j: nat)
    requires k < v.rows && j < v.cols
    ensures Get(ScaleRow(v, k, s), k, j) == s * Get(v, k, j)
  {
  }

  /** Adding a multiple of a row of `e` to another does the same to `e * a`. */
  lemma ProductAddRow(e: Mat, a: Mat, i0: nat, k: nat, s: real)
    requires e.cols == a.rows && i0 < e.rows && k < e.rows
    ensures Product(AddRow(e, i0, k, s), a) == AddRow(Product(e, a), i0, k, s)
  {
    forall i: nat, j: nat | i < e.rows && j < a.cols
      ensures Get(Product(AddRow(e, i0, k, s), a), i, j) == Get(AddRow(Product(e, a), i0, k, s), i, j)
    {
      ProductAddRowAt(e, a, i0, k, s, i, j);
    }
    Ext(Product(AddRow(e, i0, k, s), a), AddRow(Product(e, a), i0, k, s));
  }

  lemma ProductAddRowAt(e: Mat, a: Mat, i0: nat, k: nat, s: real, i: nat, j: nat)
    requires e.cols == a.rows && i0 < e.rows && k < e.rows && i < e.rows && j < a.cols
    ensures Get(Product(AddRow(e, i0, k, s), a), i, j) == Get(AddRow(Product(e, a), i0, k, s), i, j)
  {
    if i == i0 {
      ProductAddRowSame(e, a, i0, k, s, j);
      AddRowGet(Product(e, a), i0, k, s, j);
    } else {
      OtherRowTerms(e, AddRow(e, i0, k, s), a, i, j);
    }
  }

  lemma AddRowGet(v: Mat, i0: nat, k: nat, s: real, j: nat)
    requires i0 < v.rows && k < v.rows && j < v.cols
    ensures Get(AddRow(v, i0, k, s), i0, j) == Get(v, i0, j) + s * Get(v, k, j)
  {
  }

  /** The terms of entry `(i0, j)` of `AddRow(e, i0, k, s) * a`. */
  lemma AddRowTerms(e: Mat, a: Mat, i0: nat, k: nat, s: real, j: nat)
    requires e.cols == a.rows && i0 < e.rows && k < e.rows && j < a.cols
    ensures forall r: nat :: r < e.cols ==>
      Terms(AddRow(e, i0, k, s), a, i0, j)(r) == Terms(e, a, i0, j)(r) + s * Terms(e, a, k, j)(r)
  {
    var e' := AddRow(e, i0, k, s);
    forall r: nat | r < e.cols
      ensures Terms(e', a, i0, j)(r) == Terms(e, a, i0, j)(r) + s * Terms(e, a, k, j)(r)
    {
      var x, z, y := Get(e, i0, r), Get(e, k, r), Get(a, r, j);
      assert Get(e', i0, r) == x + s * z;
      AddedTerm(s, x, z, y);
    }
  }

  lemma ScaledTerm(s: real, x: real, y: real)
    ensures (s * x) * y == s * (x * y)
  {
  }

  lemma AddedTerm(s: real, x: real, z: real, y: real)
    ensures (x + s * z) * y == x * y + s * (z * y)
  {
  }

  // ---------------------------------------------------------------------------
  // The matrix seen through the row table `cdata`

  /** `p` lists each of the rows `0 .. n-1` exactly once. */
  predicate IsPerm(p: seq<nat>, n: nat)
  {
    |p| == n && (forall i :: 0 <= i < n ==> p[i] < n) && (forall i, i' :: 0 <= i < i' < n ==> p[i] != p[i'])
  }

  /** Row `i` of the view is row `p[i]` of the buffer. */
  ghost function View(c: Mat, p: seq<nat>): (v: Mat)
    requires IsPerm(p, c.rows)
    ensures v.rows == c.rows && v.cols == c.cols
    ensures forall i: nat, j: nat :: i < c.rows && j < c.cols ==> Get(v, i, j) == Get(c, p[i], j)
  {
    Build(c.rows, c.cols, (i: nat, j: nat) => if i < |p| && j < c.cols && p[i] < c.rows then Get(c, p[i], j) else 0.0)
  }

  /** Entry `(i, j)` of the view is read at offset `p[i]*cols + j` of the buffer. */
  lemma ViewAt(c: Mat, p: seq<nat>, i: nat, j: nat, r: nat, w: nat)
    requires IsPerm(p, c.rows) && i < c.rows && j < c.cols && r == p[i] && w == c.cols
    ensures 0 <= r * w + j < |c.data| && Get(View(c, p), i, j) == c.data[r * w + j]
  {
    GetAt(c, r, j);
  }

  /** `ViewAt` for an offset the caller already has at hand. */
  lemma ViewAtOffset(c: Mat, p: seq<nat>, i: nat, j: nat, at: int)
    requires IsPerm(p, c.rows) && i < c.rows && j < c.cols && at == p[i] * c.cols + j
    ensures 0 <= at < |c.data| && Get(View(c, p), i, j) == c.data[at]
  {
    ViewAt(c, p, i, j, p[i], c.cols);
  }

  /** Swapping two entries of the row table swaps two rows of the view. */
  lemma ViewSwap(c: Mat, p: seq<nat>, a: nat, b: nat)
    requires IsPerm(p, c.rows) && a < c.rows && b < c.rows
    ensures IsPerm(p[a := p[b]][b := p[a]], c.rows)
    ensures View(c, p[a := p[b]][b := p[a]]) == SwapRows(View(c, p), a, b)
  {
    var p' := p[a := p[b]][b := p[a]];
    forall i, i' | 0 <= i < i' < c.rows
      ensures p'[i] != p'[i']
    {
      assert p'[i] == p[Swapped(i, a, b)] && p'[i'] == p[Swapped(i', a, b)];
    }
    forall i: nat, j: nat | i < c.rows && j < c.cols
      ensures Get(View(c, p'), i, j) == Get(SwapRows(View(c, p), a, b), i, j)
    {
      assert p'[i] == p[Swapped(i, a, b)];
    }
    Ext(View(c, p'), SwapRows(View(c, p), a, b));
  }

  // ---------------------------------------------------------------------------
  // The two in-place row steps of the elimination, as functions of the view

  /**
   * The pivot step: row `k` divided by its pivot `v[k][k]` from column `k + 1`
   * on, the pivot itself written as 1, and columns before `k` untouched.
   */
  ghost function NormRow(v: Mat, k: nat): (w: Mat)
    requires k < v.rows && k < v.cols && Get(v, k, k) != 0.0
    ensures w.rows == v.rows && w.cols == v.cols
  {
    Build(v.rows, v.cols, (i: nat, j: nat) =>
      if i < v.rows && j < v.cols then
        (if i != k || j < k then Get(v, i, j) else if j == k then 1.0 else Get(v, i, j) / Get(v, k, k))
      else 0.0)
  }

  /**
   * The elimination step: with `s = -v[i][k]`, entry `(i, k)` written as 0 and
   * `s` times row `k` added to row `i` from column `k + 1` on.
   */
  ghost function ElimRow(v: Mat, i0: nat, k: nat): (w: Mat)
    requires i0 < v.rows && k < v.rows && k < v.cols
    ensures w.rows == v.rows && w.cols == v.cols
  {
    Build(v.rows, v.cols, (i: nat, j: nat) =>
      if i < v.rows && j < v.cols then
        (if i != i0 || j < k then Get(v, i, j) else if j == k then 0.0 else Get(v, i, j) + -Get(v, i0, k) * Get(v, k, j))
      else 0.0)
  }

  /** When row `k` is zero before column `k`, the pivot step scales row `k` by `1 / v[k][k]`. */
  lemma NormIsScale(v: Mat, k: nat)
    requires k < v.rows && k < v.cols && Get(v, k, k) != 0.0
    requires forall j: nat :: j < k ==> Get(v, k, j) == 0.0
    ensures NormRow(v, k) == ScaleRow(v, k, 1.0 / Get(v, k, k))
  {
    Ext(NormRow(v, k), ScaleRow(v, k, 1.0 / Get(v, k, k)));
  }

  /**
   * When row `k` is zero before column `k` and 1 at column `k`, the
   * elimination step adds `-v[i][k]` times row `k` to row `i`.
   */
  lemma ElimIsAddRow(v: Mat, i0: nat, k: nat)
    requires i0 < v.rows && k < v.rows && k < v.cols && i0 != k
    requires Get(v, k, k) == 1.0 && forall j: nat :: j < k ==> Get(v, k, j) == 0.0
    ensures ElimRow(v, i0, k) == AddRow(v, i0, k, -Get(v, i0, k))
  {
    Ext(ElimRow(v, i0, k), AddRow(v, i0, k, -Get(v, i0, k)));
  }

  // ---------------------------------------------------------------------------
  // Shape of the left block during the elimination

  /**
   * Columns `0 .. k-1` of the left `n x n` block are done by forward
   * elimination: 1 on the diagonal and 0 below it.
   */
  predicate LowerCleared(v: Mat, n: nat, k: nat)
    requires n <= v.rows && n <= v.cols
  {
    forall i: nat, j: nat :: j < k && j <= i < n ==> Get(v, i, j) == if i == j then 1.0 else 0.0
  }

  /** Columns `k+1 .. n-1` of the left `n x n` block are 0 off the diagonal. */
  predicate UpperCleared(v: Mat, n: nat, k: int)
    requires n <= v.rows && n <= v.cols
  {
    forall i: nat, j: nat :: k < j < n && i < n && i != j ==> Get(v, i, j) == 0.0
  }

  /** A unit upper-triangular block whose columns past 0 are cleared is the identity. */
  lemma ClearedIsIdentity(v: Mat, n: nat)
    requires n == v.rows && n <= v.cols
    requires LowerCleared(v, n, n) && UpperCleared(v, n, 0)
    ensures Block(v, 0, n) == Identity(n)
  {
    var l := Block(v, 0, n);
    forall i: nat, j: nat | i < n && j < n
      ensures Get(l, i, j) == Get(Identity(n), i, j)
    {
      assert Get(l, i, j) == Get(v, i, j);
      if j > 0 && i != j {
        assert Get(v, i, j) == 0.0;
      } else if j <= i {
        assert Get(v, i, j) == if i == j then 1.0 else 0.0;
      }
    }
    Ext(l, Identity(n));
  }

  // ---------------------------------------------------------------------------
  // augment_matrix

  /**
   * augment_matrix: copies `m` into the left half of a fresh `rows x 2*cols`
   * buffer and writes 1 at `(j, cols + j)`; the rest keeps the allocator's
   * contents.  The diagonal writes stay inside the buffer only when
   * `rows <= cols`.
   */
  method AugmentMatrix(m: Matrix, debug: bool) returns (c: Matrix, ghost mode: AllocMode)
    requires m.Valid() && m.rows <= m.cols
    ensures c.Valid() && fresh(c.data)
    ensures debug ==> mode == Zeroed
    ensures c.Value() == Augment(mode, m.Value())
  {
    c, mode := MakeMatrixGarbage(m.rows, m.cols * 2, debug);
    ghost var M := m.Value();
    ghost var C0 := c.Value();
    for i := 0 to m.rows
      invariant c.data != m.data && m.Value() == M
      invariant CopiedUpTo(c.data[..], C0, M, mode, i, 0)
    {
      for j := 0 to m.cols
        invariant c.data != m.data && m.Value() == M
        invariant CopiedUpTo(c.data[..], C0, M, mode, i, j)
      {
        AugmentCell(m, c, M, C0, mode, i, j);
      }
      CopiedRow(c.data[..], C0, M, mode, i);
    }
    CopiedAll(c.data[..], C0, M, mode);
    for j := 0 to m.rows
      invariant DiagonalUpTo(c.data[..], C0, M, mode, j)
    {
      DiagonalCell(c, M, C0, mode, j, m.cols);
    }
    AugmentResult(M, mode, C0, c.Value());
  }

  /**
   * The buffer `s` holds `m` at the cells of the left half visited before
   * `(i, j)` in row-major order, and the allocator's value everywhere else.
   */
  ghost predicate CopiedUpTo(s: seq<real>, C0: Mat, M: Mat, mode: AllocMode, i: nat, j: nat)
    requires C0.rows == M.rows && C0.cols == 2 * M.cols
  {
    |s| == |C0.data| &&
    forall k :: 0 <= k < |s| ==>
      s[k] == if (RowOf(C0, k) < i || (RowOf(C0, k) == i && ColOf(C0, k) < j)) && ColOf(C0, k) < M.cols
              then Get(M, RowOf(C0, k), ColOf(C0, k)) else Fill(mode, k)
  }

  /**
   * The buffer `s` holds `m` in its left half, 1 at `(i, cols + i)` for the
   * rows `i < j`, and the allocator's value everywhere else.
   */
  ghost predicate DiagonalUpTo(s: seq<real>, C0: Mat, M: Mat, mode: AllocMode, j: nat)
    requires C0.rows == M.rows && C0.cols == 2 * M.cols
  {
    |s| == |C0.data| &&
    forall k :: 0 <= k < |s| ==>
      s[k] == if ColOf(C0, k) < M.cols then Get(M, RowOf(C0, k), ColOf(C0, k))
              else if ColOf(C0, k) == M.cols + RowOf(C0, k) && RowOf(C0, k) < j then 1.0
              else Fill(mode, k)
  }

  /** One assignment `c[i][j] := m[i][j]` of augment_matrix's copy loop. */
  method AugmentCell(m: Matrix, c: Matrix, ghost M: Mat, ghost C0: Mat, ghost mode: AllocMode, i: nat, j: nat)
    requires m.Valid() && c.Valid() && c.data != m.data && m.Value() == M
    requires C0.rows == c.rows == M.rows && C0.cols == c.cols == 2 * M.cols && i < M.rows && j < M.cols
    requires CopiedUpTo(c.data[..], C0, M, mode, i, j)
    modifies c.data
    ensures CopiedUpTo(c.data[..], C0, M, mode, i, j + 1)
  {
    FlatRowCol(C0, i, j);
    FlatRowCol(M, i, j);
    var dst: int := i * c.cols + j;
    var src: int := i * m.cols + j;
    forall k | 0 <= k < |C0.data|
      ensures RowOf(C0, k) == i && ColOf(C0, k) == j ==> k == dst
    {
      Unflatten(k, C0.rows, C0.cols);
    }
    c.data[dst] := m.data[src];
  }

  lemma CopiedRow(s: seq<real>, C0: Mat, M: Mat, mode: AllocMode, i: nat)
    requires C0.rows == M.rows && C0.cols == 2 * M.cols
    requires CopiedUpTo(s, C0, M, mode, i, M.cols)
    ensures CopiedUpTo(s, C0, M, mode, i + 1, 0)
  {
  }

  lemma CopiedAll(s: seq<real>, C0: Mat, M: Mat, mode: AllocMode)
    requires C0.rows == M.rows && C0.cols == 2 * M.cols
    requires CopiedUpTo(s, C0, M, mode, M.rows, 0)
    ensures DiagonalUpTo(s, C0, M, mode, 0)
  {
  }

  /** One assignment `c[j][cols + j] := 1` of augment_matrix's diagonal loop. */
  method DiagonalCell(c: Matrix, ghost M: Mat, ghost C0: Mat, ghost mode: AllocMode, j: nat, w: nat)
    requires c.Valid() && C0.rows == c.rows == M.rows && C0.cols == c.cols == 2 * M.cols && w == M.cols
    requires j < M.rows <= M.cols
    requires DiagonalUpTo(c.data[..], C0, M, mode, j)
    modifies c.data
    ensures DiagonalUpTo(c.data[..], C0, M, mode, j + 1)
  {
    FlatRowCol(C0, j, j + M.cols);
    var dst: int := j * c.cols + j + w;
    forall k | 0 <= k < |C0.data|
      ensures RowOf(C0, k) == j && ColOf(C0, k) == j + M.cols ==> k == dst
    {
      Unflatten(k, C0.rows, C0.cols);
    }
    c.data[dst] := 1.0;
  }

  lemma AugmentResult(m: Mat, mode: AllocMode, c0: Mat, c: Mat)
    requires c0.rows == c.rows == m.rows && c0.cols == c.cols == 2 * m.cols
    requires DiagonalUpTo(c.data, c0, m, mode, m.rows)
    ensures c == Augment(mode, m)
  {
    forall p: nat, q: nat | p < c.rows && q < c.cols
      ensures Get(c, p, q) == Get(Augment(mode, m), p, q)
    {
      AugmentEntry(m, mode, c0, c, p, q);
    }
    Ext(c, Augment(mode, m));
  }

  lemma AugmentEntry(m: Mat, mode: AllocMode, c0: Mat, c: Mat, p: nat, q: nat)
    requires c0.rows == c.rows == m.rows && c0.cols == c.cols == 2 * m.cols
    requires DiagonalUpTo(c.data, c0, m, mode, m.rows) && p < c.rows && q < c.cols
    ensures Get(c, p, q) == Get(Augment(mode, m), p, q)
  {
    FlatRowCol(c0, p, q);
    GetAt(c, p, q);
  }

  // ---------------------------------------------------------------------------
  // Pivot search

  /** Column `k` of `v` is zero from row `k` down. */
  predicate ColumnZeroBelow(v: Mat, k: nat)
    requires k < v.cols
  {
    forall i: nat :: k <= i < v.rows ==> Get(v, i, k) == 0.0
  }

  /**
   * Row `p` is the partial pivot for column `k`: its entry has the largest
   * magnitude among rows `k ..`, it is nonzero, and every row between `k`
   * and `p` is strictly smaller (the first maximum wins).
   */
  predicate IsPivot(v: Mat, k: nat, p: nat)
    requires k < v.cols
  {
    k <= p < v.rows && Get(v, p, k) != 0.0
    && (forall i: nat :: k <= i < v.rows ==> Abs(Get(v, i, k)) <= Abs(Get(v, p, k)))
    && (forall i: nat :: k <= i < p ==> Abs(Get(v, i, k)) < Abs(Get(v, p, k)))
  }

  /**
   * The pivot loop of matrix_invert: scans rows `k ..` of the view keeping
   * the first strictly largest `fabs`, starting from 0, so -1 means the
   * column is zero from row `k` down.
   */
  method FindPivot(c: Matrix, cdata: array<nat>, k: nat) returns (index: int)
    requires c.Valid() && IsPerm(cdata[..], c.rows) && k < c.rows && k < c.cols
    ensures index == -1 <==> ColumnZeroBelow(View(c.Value(), cdata[..]), k)
    ensures index != -1 ==> index >= 0 && IsPivot(View(c.Value(), cdata[..]), k, index)
  {
    ghost var v := View(c.Value(), cdata[..]);
    var p := 0.0;
    index := -1;
    for i := k to c.rows
      invariant index == -1 ==> p == 0.0
      invariant index != -1 ==> k <= index < i && p == Abs(Get(v, index, k)) && p > 0.0
      invariant forall i': nat :: k <= i' < i ==> Abs(Get(v, i', k)) <= p
      invariant forall i': nat :: k <= i' < index ==> Abs(Get(v, i', k)) < p
    {
      ViewAt(c.Value(), cdata[..], i, k, cdata[i], c.cols);
      var val := Abs(c.data[cdata[i] * c.cols + k]);
      if val > p {
        p := val;
        index := i;
      }
    }
  }

  // ---------------------------------------------------------------------------
  // The two row steps, in place on the buffer

  /**
   * The loop `for j in [from, to): row[j] += s * other[j]`, where the rows start
   * at offsets `base` and `src` and do not overlap.
   */
  method AddScaledRow(a: array<real>, base: nat, src: nat, from: nat, to: nat, s: real)
    requires from <= to && base + to <= a.Length && src + to <= a.Length
    requires src + to <= base + from || base + to <= src + from
    modifies a
    ensures forall q :: 0 <= q < a.Length && (q < base + from || base + to <= q) ==> a[q] == old(a[q])
    ensures forall q :: base + from <= q < base + to ==> a[q] == old(a[q]) + s * old(a[src + (q - base)])
  {
    for j := from to to
      invariant forall q :: 0 <= q < a.Length && (q < base + from || base + j <= q) ==> a[q] == old(a[q])
      invariant forall q :: base + from <= q < base + j ==> a[q] == old(a[q]) + s * old(a[src + (q - base)])
    {
      a[base + j] := a[base + j] + s * a[src + j];
    }
  }

  /**
   * The buffer after row `k` of width `w` at offset `base` is normalised by its
   * entry in column `k`: that entry becomes 1 and the ones right of it are divided by it.
   */
  function NormFlat(d: seq<real>, base: nat, k: nat, w: nat): (e: seq<real>)
    requires k < w && base + w <= |d| && d[base + k] != 0.0
    ensures |e| == |d|
  {
    seq(|d|, (q: int) requires 0 <= q < |d| =>
      if q == base + k then 1.0 else if base + k < q < base + w then d[q] / d[base + k] else d[q])
  }

  /**
   * The buffer after the row at offset `base` has its entry in column `k` cleared
   * and `-d[base + k]` times the row at offset `src` added right of column `k`.
   */
  function ElimFlat(d: seq<real>, base: nat, src: nat, k: nat, w: nat): (e: seq<real>)
    requires k < w && base + w <= |d| && src + w <= |d|
    ensures |e| == |d|
  {
    seq(|d|, (q: int) requires 0 <= q < |d| =>
      if q == base + k then 0.0
      else if base + k < q < base + w then d[q] + -d[base + k] * d[src + (q - base)]
      else d[q])
  }

  /** Lines 275-279 on the flat buffer: `val` read, the pivot written as 1, the rest divided by `val`. */
  method NormalizeFlat(a: array<real>, base: nat, k: nat, w: nat)
    requires k < w && base + w <= a.Length && a[base + k] != 0.0
    modifies a
    ensures a[..] == NormFlat(old(a[..]), base, k, w)
  {
    ghost var d := a[..];
    var val := a[base + k];
    a[base + k] := 1.0;
    DivideRow(a, base, k + 1, w, val);
    assert forall q :: 0 <= q < a.Length ==> a[q] == NormFlat(d, base, k, w)[q];
  }

  /** Lines 282-285 on the flat buffer: `s` read, the entry cleared, `s` times the other row added. */
  method EliminateFlat(a: array<real>, base: nat, src: nat, k: nat, w: nat)
    requires k < w && base + w <= a.Length && src + w <= a.Length
    requires src + w <= base || base + w <= src
    modifies a
    ensures a[..] == ElimFlat(old(a[..]), base, src, k, w)
  {
    ghost var d := a[..];
    var s := -a[base + k];
    a[base + k] := 0.0;
    AddScaledRow(a, base, src, k + 1, w, s);
    assert forall q :: 0 <= q < a.Length ==> a[q] == ElimFlat(d, base, src, k, w)[q];
  }

  /** Row `p[i]` of the buffer starts at offset `r * w` and ends inside it. */
  lemma RowBase(c: Mat, p: seq<nat>, i: nat, r: nat, w: nat)
    requires IsPerm(p, c.rows) && i < c.rows && r == p[i] && w == c.cols
    ensures 0 <= r * w && r * w + w <= |c.data|
  {
    MulMono(r + 1, c.rows, c.cols);
    MulMono(0, r, c.cols);
  }

  /** Lines 275-279: the pivot row of the view normalised. */
  method NormalizePivotRow(c: Matrix, cdata: array<nat>, k: nat)
    requires c.Valid() && IsPerm(cdata[..], c.rows) && k < c.rows && k < c.cols
    requires Get(View(c.Value(), cdata[..]), k, k) != 0.0
    modifies c.data
    ensures View(c.Value(), cdata[..]) == NormRow(old(View(c.Value(), cdata[..])), k)
  {
    ghost var C0 := c.Value();
    var r := cdata[k];
    ViewAt(C0, cdata[..], k, k, r, c.cols);
    RowBase(C0, cdata[..], k, r, c.cols);
    var base := r * c.cols;
    NormalizeFlat(c.data, base, k, c.cols);
    NormRowResult(C0, cdata[..], k, base);
  }

  lemma NormRowResult(c0: Mat, p: seq<nat>, k: nat, base: nat)
    requires IsPerm(p, c0.rows) && k < c0.rows && k < c0.cols && Get(View(c0, p), k, k) != 0.0
    requires base == p[k] * c0.cols && base + c0.cols <= |c0.data| && c0.data[base + k] != 0.0
    ensures View(MatVal(c0.rows, c0.cols, NormFlat(c0.data, base, k, c0.cols)), p) == NormRow(View(c0, p), k)
  {
    var c: Mat := MatVal(c0.rows, c0.cols, NormFlat(c0.data, base, k, c0.cols));
    forall i: nat, j: nat | i < c0.rows && j < c0.cols
      ensures Get(View(c, p), i, j) == Get(NormRow(View(c0, p), k), i, j)
    {
      NormRowEntry(c0, c, p, k, base, i, j);
    }
    Ext(View(c, p), NormRow(View(c0, p), k));
  }

  lemma NormRowEntry(c0: Mat, c: Mat, p: seq<nat>, k: nat, base: nat, i: nat, j: nat)
    requires IsPerm(p, c0.rows) && k < c0.rows && k < c0.cols && Get(View(c0, p), k, k) != 0.0
    requires base == p[k] * c0.cols && base + c0.cols <= |c0.data| && c0.data[base + k] != 0.0
    requires c == MatVal(c0.rows, c0.cols, NormFlat(c0.data, base, k, c0.cols))
    requires i < c0.rows && j < c0.cols
    ensures Get(View(c, p), i, j) == Get(NormRow(View(c0, p), k), i, j)
  {
    ViewAt(c, p, i, j, p[i], c0.cols);
    ViewAt(c0, p, i, j, p[i], c0.cols);
    ViewAt(c0, p, k, k, p[k], c0.cols);
    if i != k {
      OtherRow(p[i], p[k], j, c0.cols);
    }
  }

  /**
   * The elimination step of both phases (lines 281-285 and 290-294): entry
   * `(i, k)` of the view cleared by subtracting a multiple of row `k`.
   */
  method EliminateEntry(c: Matrix, cdata: array<nat>, i: nat, k: nat)
    requires c.Valid() && IsPerm(cdata[..], c.rows) && i < c.rows && k < c.rows && k < c.cols && i != k
    modifies c.data
    ensures View(c.Value(), cdata[..]) == ElimRow(old(View(c.Value(), cdata[..])), i, k)
  {
    ghost var C0 := c.Value();
    var r, rk := cdata[i], cdata[k];
    RowBase(C0, cdata[..], i, r, c.cols);
    RowBase(C0, cdata[..], k, rk, c.cols);
    var base, basek := r * c.cols, rk * c.cols;
    RowsApart(rk, r, c.cols);
    EliminateFlat(c.data, base, basek, k, c.cols);
    ElimRowResult(C0, cdata[..], i, k, base, basek);
  }

  lemma ElimRowResult(c0: Mat, p: seq<nat>, i0: nat, k: nat, base: nat, basek: nat)
    requires IsPerm(p, c0.rows) && i0 < c0.rows && k < c0.rows && k < c0.cols && i0 != k
    requires base == p[i0] * c0.cols && base + c0.cols <= |c0.data|
    requires basek == p[k] * c0.cols && basek + c0.cols <= |c0.data|
    ensures View(MatVal(c0.rows, c0.cols, ElimFlat(c0.data, base, basek, k, c0.cols)), p) == ElimRow(View(c0, p), i0, k)
  {
    var c: Mat := MatVal(c0.rows, c0.cols, ElimFlat(c0.data, base, basek, k, c0.cols));
    forall i: nat, j: nat | i < c0.rows && j < c0.cols
      ensures Get(View(c, p), i, j) == Get(ElimRow(View(c0, p), i0, k), i, j)
    {
      if i != i0 || j <= k {
        ElimKeptEntry(c0, c, p, i0, k, base, basek, i, j);
      } else {
        ElimFlatAt(c0.data, base, basek, k, c0.cols, j);
        ElimRowEntry(c0, c, p, i0, k, j, base, basek);
      }
    }
    Ext(View(c, p), ElimRow(View(c0, p), i0, k));
  }

  /** The entries elimination does not combine: other rows, and the eliminated row up to the pivot column. */
  lemma ElimKeptEntry(c0: Mat, c: Mat, p: seq<nat>, i0: nat, k: nat, base: nat, basek: nat, i: nat, j: nat)
    requires IsPerm(p, c0.rows) && i0 < c0.rows && k < c0.rows && k < c0.cols && i0 != k
    requires base == p[i0] * c0.cols && base + c0.cols <= |c0.data|
    requires basek == p[k] * c0.cols && basek + c0.cols <= |c0.data|
    requires c == MatVal(c0.rows, c0.cols, ElimFlat(c0.data, base, basek, k, c0.cols))
    requires i < c0.rows && j < c0.cols && (i != i0 || j <= k)
    ensures Get(View(c, p), i, j) == Get(ElimRow(View(c0, p), i0, k), i, j)
  {
    ViewAt(c, p, i, j, p[i], c0.cols);
    ViewAt(c0, p, i, j, p[i], c0.cols);
    if i != i0 {
      OtherRow(p[i], p[i0], j, c0.cols);
    }
  }

  /** One entry right of the pivot column in the eliminated row. */
  lemma ElimRowEntry(c0: Mat, c: Mat, p: seq<nat>, i0: nat, k: nat, j: nat, base: nat, basek: nat)
    requires IsPerm(p, c0.rows) && i0 < c0.rows && k < c0.rows && k < j < c0.cols && i0 != k
    requires base == p[i0] * c0.cols && base + c0.cols <= |c0.data|
    requires basek == p[k] * c0.cols && basek + c0.cols <= |c0.data|
    requires c.rows == c0.rows && c.cols == c0.cols
    requires c.data[base + j] == c0.data[base + j] + -c0.data[base + k] * c0.data[basek + j]
    ensures Get(View(c, p), i0, j) == Get(ElimRow(View(c0, p), i0, k), i0, j)
  {
    ViewAtOffset(c, p, i0, j, base + j);
    ElimRowAtData(c0, p, i0, k, j, base, basek);
  }

  /** The same entry of `ElimRow`, read off the buffer under the view. */
  lemma ElimRowAtData(c0: Mat, p: seq<nat>, i0: nat, k: nat, j: nat, base: nat, basek: nat)
    requires IsPerm(p, c0.rows) && i0 < c0.rows && k < c0.rows && k < j < c0.cols && i0 != k
    requires base == p[i0] * c0.cols && base + c0.cols <= |c0.data|
    requires basek == p[k] * c0.cols && basek + c0.cols <= |c0.data|
    ensures Get(ElimRow(View(c0, p), i0, k), i0, j) == c0.data[base + j] + -c0.data[base + k] * c0.data[basek + j]
  {
    var v0 := View(c0, p);
    ViewAtOffset(c0, p, k, j, basek + j);
    ViewAtOffset(c0, p, i0, j, base + j);
    ViewAtOffset(c0, p, i0, k, base + k);
    ElimRowAt(v0, i0, k, j);
    MulEq(-Get(v0, i0, k), -c0.data[base + k], Get(v0, k, j), c0.data[basek + j]);
  }

  lemma ElimRowAt(v: Mat, i0: nat, k: nat, j: nat)
    requires i0 < v.rows && k < v.rows && k < j < v.cols
    ensures Get(ElimRow(v, i0, k), i0, j) == Get(v, i0, j) + -Get(v, i0, k) * Get(v, k, j)
  {
  }

  lemma ElimFlatAt(d: seq<real>, base: nat, src: nat, k: nat, w: nat, j: nat)
    requires k < j < w && base + w <= |d| && src + w <= |d|
    ensures ElimFlat(d, base, src, k, w)[base + j] == d[base + j] + -d[base + k] * d[src + j]
  {
    var q := base + j;
    assert src + (q - base) == src + j;
    assert ElimFlat(d, base, src, k, w)[q] == d[q] + -d[base + k] * d[src + (q - base)];
  }

  // ---------------------------------------------------------------------------
  // How the row steps move the left block towards the identity

  /** The row table `0, 1, ..., n-1` of lines 249-252 shows the buffer as it is. */
  lemma ViewIdentity(c: Mat, p: seq<nat>)
    requires |p| == c.rows && forall i :: 0 <= i < |p| ==> p[i] == i
    ensures IsPerm(p, c.rows) && View(c, p) == c
  {
    Ext(View(c, p), c);
  }

  /** Bringing a pivot row up from below row `k` keeps the finished columns. */
  lemma SwapKeepsLower(v: Mat, n: nat, k: nat, a: nat)
    requires n == v.rows && n <= v.cols && k <= a < n
    requires LowerCleared(v, n, k)
    ensures LowerCleared(SwapRows(v, a, k), n, k)
  {
    var w := SwapRows(v, a, k);
    forall i: nat, j: nat | j < k && j <= i < n
      ensures Get(w, i, j) == if i == j then 1.0 else 0.0
    {
      assert Get(w, i, j) == Get(v, Swapped(i, a, k), j);
    }
  }

  /** Normalising the pivot row keeps the finished columns and puts 1 on the diagonal. */
  lemma NormKeepsLower(v: Mat, n: nat, k: nat)
    requires n == v.rows && n <= v.cols && k < n && Get(v, k, k) != 0.0
    requires LowerCleared(v, n, k)
    ensures LowerCleared(NormRow(v, k), n, k) && Get(NormRow(v, k), k, k) == 1.0
  {
    var w := NormRow(v, k);
    forall i: nat, j: nat | j < k && j <= i < n
      ensures Get(w, i, j) == if i == j then 1.0 else 0.0
    {
      assert Get(w, i, j) == Get(v, i, j);
    }
  }

  /**
   * Clearing entry `(i0, k)` changes row `i0` only, from column `k` on, and
   * leaves 0 there.
   */
  lemma ElimRowShape(v: Mat, i0: nat, k: nat)
    requires i0 < v.rows && k < v.rows && k < v.cols
    ensures forall i: nat, j: nat :: i < v.rows && j < v.cols && (i != i0 || j < k) ==> Get(ElimRow(v, i0, k), i, j) == Get(v, i, j)
    ensures Get(ElimRow(v, i0, k), i0, k) == 0.0
  {
  }

  /** Clearing below the pivot keeps the finished columns and the pivot. */
  lemma ElimBelowKeeps(v: Mat, n: nat, i0: nat, k: nat)
    requires n == v.rows && n <= v.cols && k < i0 < n
    requires LowerCleared(v, n, k)
    ensures LowerCleared(ElimRow(v, i0, k), n, k)
  {
    ElimRowShape(v, i0, k);
  }

  /** Column `k` with 1 on the diagonal and 0 below it extends the finished columns. */
  lemma LowerExtend(v: Mat, n: nat, k: nat)
    requires n == v.rows && n <= v.cols && k < n
    requires LowerCleared(v, n, k) && Get(v, k, k) == 1.0
    requires forall i: nat :: k < i < n ==> Get(v, i, k) == 0.0
    ensures LowerCleared(v, n, k + 1)
  {
  }

  /**
   * Clearing above the pivot of column `k` leaves the unit upper triangle and
   * the cleared columns right of `k` as they were.
   */
  lemma ElimAboveKeeps(v: Mat, n: nat, i0: nat, k: nat)
    requires n == v.rows && n <= v.cols && i0 < k < n
    requires LowerCleared(v, n, n) && UpperCleared(v, n, k)
    ensures LowerCleared(ElimRow(v, i0, k), n, n) && UpperCleared(ElimRow(v, i0, k), n, k)
  {
    var w := ElimRow(v, i0, k);
    ElimRowShape(v, i0, k);
    forall j: nat | k < j < n
      ensures Get(w, i0, j) == 0.0
    {
      assert Get(v, i0, j) == 0.0 && Get(v, k, j) == 0.0;
    }
  }

  /** Column `k` cleared above the diagonal joins the cleared columns. */
  lemma UpperExtend(v: Mat, n: nat, k: nat)
    requires n == v.rows && n <= v.cols && 0 < k < n
    requires LowerCleared(v, n, n) && UpperCleared(v, n, k)
    requires forall i: nat :: i < k ==> Get(v, i, k) == 0.0
    ensures UpperCleared(v, n, k - 1)
  {
    forall i: nat, j: nat | k - 1 < j < n && i < n && i != j
      ensures Get(v, i, j) == 0.0
    {
      if j == k && i > k {
        assert Get(v, i, j) == if i == j then 1.0 else 0.0;
      }
    }
  }

  // ---------------------------------------------------------------------------
  // The recorded operations are invertible, so a column without a pivot
  // means that `m` has no inverse

  /** `f` is a left inverse of `e`. */
  ghost predicate LeftInverse(f: Mat, e: Mat)
  {
    f.cols == e.rows && Product(f, e) == Identity(e.cols)
  }

  /** No matrix is a left inverse of `m`. */
  ghost predicate Singular(m: Mat)
  {
    forall x: Mat :: x.cols == m.rows ==> Product(x, m) != Identity(m.rows)
  }

  /** `e` has a left inverse. */
  ghost predicate Invertible(e: Mat)
  {
    exists f: Mat :: LeftInverse(f, e)
  }

  lemma IdentityInvertible(n: nat)
    ensures Invertible(Identity(n))
  {
    ProductIdentityLeft(Identity(n));
    assert LeftInverse(Identity(n), Identity(n));
  }

  /** If `u` undoes the step from `e` to `e'`, `e'` is invertible whenever `e` is. */
  lemma UndoInvertible(e: Mat, e': Mat, u: Mat)
    requires Invertible(e) && e'.cols == e.cols && u.cols == e'.rows && Product(u, e') == e
    ensures Invertible(e')
  {
    var f: Mat :| LeftInverse(f, e);
    ProductAssoc(f, u, e');
    assert LeftInverse(Product(f, u), e');
  }

  /** A row swap is undone by the same swap. */
  lemma SwapInvertible(e: Mat, a: nat, b: nat)
    requires a < e.rows && b < e.rows && Invertible(e)
    ensures Invertible(SwapRows(e, a, b))
  {
    var s := SwapRows(e, a, b);
    var id := Identity(e.rows);
    ProductSwapRows(id, s, a, b);
    ProductIdentityLeft(s);
    Ext(SwapRows(s, a, b), e);
    UndoInvertible(e, s, SwapRows(id, a, b));
  }

  /** Scaling a row by a nonzero `s` is undone by scaling it by `1/s`. */
  lemma ScaleInvertible(e: Mat, k: nat, s: real)
    requires k < e.rows && s != 0.0 && Invertible(e)
    ensures Invertible(ScaleRow(e, k, s))
  {
    var w := ScaleRow(e, k, s);
    var id := Identity(e.rows);
    ProductScaleRow(id, w, k, 1.0 / s);
    ProductIdentityLeft(w);
    ScaleRowUndo(e, k, s);
    UndoInvertible(e, w, ScaleRow(id, k, 1.0 / s));
  }

  lemma ScaleRowUndo(e: Mat, k: nat, s: real)
    requires k < e.rows && s != 0.0
    ensures ScaleRow(ScaleRow(e, k, s), k, 1.0 / s) == e
  {
    var w := ScaleRow(e, k, s);
    forall i: nat, j: nat | i < e.rows && j < e.cols
      ensures Get(ScaleRow(w, k, 1.0 / s), i, j) == Get(e, i, j)
    {
      if i == k {
        Unscale(s, Get(e, i, j));
      }
    }
    Ext(ScaleRow(w, k, 1.0 / s), e);
  }

  lemma Unscale(s: real, x: real)
    requires s != 0.0
    ensures (1.0 / s) * (s * x) == x
  {
  }

  /** Adding `s` times row `k` to another row is undone by adding `-s` times it. */
  lemma AddInvertible(e: Mat, i0: nat, k: nat, s: real)
    requires i0 < e.rows && k < e.rows && i0 != k && Invertible(e)
    ensures Invertible(AddRow(e, i0, k, s))
  {
    var w := AddRow(e, i0, k, s);
    var id := Identity(e.rows);
    ProductAddRow(id, w, i0, k, -s);
    ProductIdentityLeft(w);
    AddRowUndo(e, i0, k, s);
    UndoInvertible(e, w, AddRow(id, i0, k, -s));
  }

  lemma AddRowUndo(e: Mat, i0: nat, k: nat, s: real)
    requires i0 < e.rows && k < e.rows && i0 != k
    ensures AddRow(AddRow(e, i0, k, s), i0, k, -s) == e
  {
    var w := AddRow(e, i0, k, s);
    var u := AddRow(w, i0, k, -s);
    forall i: nat, j: nat | i < e.rows && j < e.cols
      ensures Get(u, i, j) == Get(e, i, j)
    {
      if i == i0 {
        assert Get(w, k, j) == Get(e, k, j);
      }
    }
    Ext(u, e);
  }

  /** `a[0] * L[r][0] + ... + a[|a|-1] * L[r][|a|-1]`, term by term. */
  function Combo(L: Mat, a: seq<real>, r: nat): nat -> real
  {
    (j: nat) => if j < |a| && r < L.rows && j < L.cols then a[j] * Get(L, r, j) else 0.0
  }

  /** `L` with column `j` replaced by column `k` minus `c` times column `j`. */
  ghost function ReduceColumn(L: Mat, j: nat, k: nat, c: real): (r: Mat)
    requires j < L.cols && k < L.cols
    ensures r.rows == L.rows && r.cols == L.cols
    ensures forall i: nat, q: nat :: i < L.rows && q < L.cols ==>
      Get(r, i, q) == if q == j then Get(L, i, k) - c * Get(L, i, j) else Get(L, i, q)
  {
    Build(L.rows, L.cols, (i: nat, q: nat) =>
      if i < L.rows && q < L.cols then (if q == j then Get(L, i, k) - c * Get(L, i, j) else Get(L, i, q)) else 0.0)
  }

  /**
   * When columns `0 .. k-1` of the `n x n` matrix `L` have 1 on the diagonal
   * and 0 below it, and column `k` is 0 from the diagonal down, column `k` is
   * a combination of the columns before it.
   */
  lemma {:induction false} DependentColumn(L: Mat, n: nat, k: nat) returns (a: seq<real>)
    requires L.rows == n && L.cols == n && k < n
    requires LowerCleared(L, n, k) && ColumnZeroBelow(L, k)
    ensures |a| == k
    ensures forall r: nat :: r < n ==> Get(L, r, k) == Sum(k, Combo(L, a, r))
    decreases k
  {
    if k == 0 {
      a := [];
    } else {
      var j := k - 1;
      var c := Get(L, j, k);
      var L' := ReduceColumn(L, j, k, c);
      ReducedCleared(L, n, j, k, c);
      var a' := DependentColumn(L', n, j);
      a := a' + [c];
      DependentRows(L, L', n, a', c, k);
    }
  }

  /** Reducing column `k-1` by `c = L[k-1][k]` leaves it zero from row `k-1` down. */
  lemma ReducedCleared(L: Mat, n: nat, j: nat, k: nat, c: real)
    requires L.rows == n && L.cols == n && k == j + 1 && k < n && c == Get(L, j, k)
    requires LowerCleared(L, n, k) && ColumnZeroBelow(L, k)
    ensures LowerCleared(ReduceColumn(L, j, k, c), n, j) && ColumnZeroBelow(ReduceColumn(L, j, k, c), j)
  {
    var L' := ReduceColumn(L, j, k, c);
    forall i: nat | j <= i < n
      ensures Get(L', i, j) == 0.0
    {
      assert Get(L, i, j) == if i == j then 1.0 else 0.0;
    }
  }

  /** `DependentStep` for every row. */
  lemma DependentRows(L: Mat, L': Mat, n: nat, a': seq<real>, c: real, k: nat)
    requires L.rows == n && L.cols == n && 0 < k < n && |a'| == k - 1 && L' == ReduceColumn(L, k - 1, k, c)
    requires forall r: nat :: r < n ==> Get(L', r, k - 1) == Sum(k - 1, Combo(L', a', r))
    ensures forall r: nat :: r < n ==> Get(L, r, k) == Sum(k, Combo(L, a' + [c], r))
  {
    forall r: nat | r < n
      ensures Get(L, r, k) == Sum(k, Combo(L, a' + [c], r))
    {
      DependentStep(L, L', a', c, k - 1, k, r);
    }
  }

  /** One step of `DependentColumn`: undo the column reduction in row `r`. */
  lemma DependentStep(L: Mat, L': Mat, a': seq<real>, c: real, j: nat, k: nat, r: nat)
    requires k == j + 1 && k < L.cols && r < L.rows && |a'| == j && L'.rows == L.rows && L'.cols == L.cols
    requires forall q: nat :: q < j ==> Get(L', r, q) == Get(L, r, q)
    requires Get(L', r, j) == Get(L, r, k) - c * Get(L, r, j)
    requires Get(L', r, j) == Sum(j, Combo(L', a', r))
    ensures Get(L, r, k) == Sum(k, Combo(L, a' + [c], r))
  {
    var a := a' + [c];
    var f, f', t := Combo(L, a, r), Combo(L', a', r), c * Get(L, r, j);
    ComboAgrees(L, L', a', c, r);
    SumExt(j, f, f');
    ComboLast(L, a', c, r);
    SumStep(f, j, t);
    assert Sum(k, f) == Sum(j, f') + t;
  }

  lemma ComboLast(L: Mat, a': seq<real>, c: real, r: nat)
    requires r < L.rows && |a'| < L.cols
    ensures Combo(L, a' + [c], r)(|a'|) == c * Get(L, r, |a'|)
  {
    assert (a' + [c])[|a'|] == c;
  }

  lemma ComboAgrees(L: Mat, L': Mat, a': seq<real>, c: real, r: nat)
    requires r < L.rows && |a'| < L.cols && L'.rows == L.rows && L'.cols == L.cols
    requires forall q: nat :: q < |a'| ==> Get(L', r, q) == Get(L, r, q)
    ensures forall q: nat :: q < |a'| ==> Combo(L, a' + [c], r)(q) == Combo(L', a', r)(q)
  {
    var a := a' + [c];
    forall q: nat | q < |a'|
      ensures Combo(L, a, r)(q) == Combo(L', a', r)(q)
    {
      assert a[q] == a'[q];
    }
  }

  /** The terms `y[k][i] * (a[j] * L[i][j])` of the double sum behind `NoLeftInverse`. */
  function Spread(y: Mat, L: Mat, a: seq<real>, k: nat): (nat, nat) -> real
  {
    (i: nat, j: nat) => if k < y.rows && i < y.cols then Get(y, k, i) * Combo(L, a, i)(j) else 0.0
  }

  /** `a[j] * (y * L)[k][j]`, term by term. */
  function Weighted(y: Mat, L: Mat, a: seq<real>, k: nat): nat -> real
  {
    (j: nat) => if j < |a| then a[j] * Dot(y, L, k, j) else 0.0
  }

  /** Summing `Spread` along row `i` gives one term of `(y * L)[k][k]`. */
  lemma SpreadRow(y: Mat, L: Mat, a: seq<real>, n: nat, k: nat, i: nat)
    requires L.rows == n && L.cols == n && k < n && y.cols == n && k < y.rows && i < n && |a| == k
    requires Get(L, i, k) == Sum(k, Combo(L, a, i))
    ensures RowSums(k, Spread(y, L, a, k))(i) == Terms(y, L, k, k)(i)
  {
    var c, f, g := Get(y, k, i), Combo(L, a, i), Across(Spread(y, L, a, k), i);
    var t := Terms(y, L, k, k)(i);
    assert t == c * Get(L, i, k);
    SpreadAcross(y, L, a, k, i);
    SumScaleAt(k, c, f, g, t, Get(L, i, k));
  }

  lemma SpreadAcross(y: Mat, L: Mat, a: seq<real>, k: nat, i: nat)
    requires k < y.rows && i < y.cols
    ensures forall j: nat :: j < k ==> Across(Spread(y, L, a, k), i)(j) == Get(y, k, i) * Combo(L, a, i)(j)
  {
  }

  /** Summing `Spread` down column `j` gives `a[j] * (y * L)[k][j]`. */
  lemma SpreadColumn(y: Mat, L: Mat, a: seq<real>, n: nat, k: nat, j: nat)
    requires L.rows == n && L.cols == n && k < n && y.cols == n && k < y.rows && j < |a| == k
    ensures ColSums(n, Spread(y, L, a, k))(j) == Weighted(y, L, a, k)(j)
  {
    var F := Spread(y, L, a, k);
    forall i: nat | i < n
      ensures Down(F, j)(i) == a[j] * Terms(y, L, k, j)(i)
    {
      assert Combo(L, a, i)(j) == a[j] * Get(L, i, j);
      Regroup(Get(y, k, i), a[j], Get(L, i, j));
    }
    SumScale(n, a[j], Terms(y, L, k, j), Down(F, j));
  }

  lemma Regroup(x: real, s: real, z: real)
    ensures x * (s * z) == s * (x * z)
  {
  }

  /**
   * When column `k` of `L` is the combination `a` of the columns before it,
   * entry `(k, k)` of `y * L` is the same combination of the entries
   * `(k, j)`, `j < k`.
   */
  lemma RowCombination(y: Mat, L: Mat, a: seq<real>, n: nat, k: nat)
    requires L.rows == n && L.cols == n && k < n && y.cols == n && k < y.rows && |a| == k
    requires forall r: nat :: r < n ==> Get(L, r, k) == Sum(k, Combo(L, a, r))
    ensures Dot(y, L, k, k) == Sum(k, Weighted(y, L, a, k))
  {
    var F := Spread(y, L, a, k);
    forall i: nat | i < n
      ensures RowSums(k, F)(i) == Terms(y, L, k, k)(i)
    {
      SpreadRow(y, L, a, n, k, i);
    }
    SumExt(n, RowSums(k, F), Terms(y, L, k, k));
    forall j: nat | j < k
      ensures ColSums(n, F)(j) == Weighted(y, L, a, k)(j)
    {
      SpreadColumn(y, L, a, n, k, j);
    }
    SumExt(k, ColSums(n, F), Weighted(y, L, a, k));
    SumSwap(n, k, F);
  }

  /**
   * Such an `L` has no left inverse: in `y * L`, entry `(k, k)` is a
   * combination of the entries `(k, j)`, `j < k`, so they cannot be 1 and
   * all 0.
   */
  lemma NoLeftInverse(y: Mat, L: Mat, n: nat, k: nat)
    requires L.rows == n && L.cols == n && k < n && y.cols == n
    requires LowerCleared(L, n, k) && ColumnZeroBelow(L, k)
    ensures Product(y, L) != Identity(n)
  {
    if y.rows == n {
      var a := DependentColumn(L, n, k);
      RowCombination(y, L, a, n, k);
      var P := Product(y, L);
      if forall j: nat :: j < k ==> Dot(y, L, k, j) == 0.0 {
        SumZero(k, Weighted(y, L, a, k));
        assert Get(P, k, k) != Get(Identity(n), k, k);
      } else {
        var j: nat :| j < k && Dot(y, L, k, j) != 0.0;
        assert Get(P, k, j) != Get(Identity(n), k, j);
      }
    } else {
      assert Product(y, L).rows != n;
    }
  }

  /**
   * A failed elimination proves `m` singular: the view is `e` times the
   * augmented matrix, `e` is invertible, and the left block of the view has a
   * column without a pivot, so no `x` has `x * m == I`.
   */
  lemma NoPivotNoInverse(m: Mat, e: Mat, a0: Mat, v: Mat, k: nat)
    requires m.rows == m.cols && e.rows == e.cols == m.rows && a0.rows == m.rows && m.cols <= a0.cols
    requires Block(a0, 0, m.cols) == m && v == Product(e, a0) && Invertible(e)
    requires k < m.rows && LowerCleared(v, m.rows, k) && ColumnZeroBelow(v, k)
    ensures Singular(m)
  {
    var n := m.rows;
    var L := Block(v, 0, n);
    BlockProduct(e, a0, 0, n);
    assert L == Product(e, m);
    BlockCleared(v, n, k);
    var f: Mat :| LeftInverse(f, e);
    ProductAssoc(f, e, m);
    ProductIdentityLeft(m);
    forall x: Mat | x.cols == n
      ensures Product(x, m) != Identity(n)
    {
      var y := Product(x, f);
      ProductAssoc(x, f, L);
      NoLeftInverse(y, L, n, k);
    }
  }

  /** The outcome of a forward elimination that stopped early. */
  lemma FailedElimination(m: Mat, mode: AllocMode, e: Mat, a0: Mat, v: Mat)
    requires m.rows == m.cols && e.rows == e.cols == m.rows && a0 == Augment(mode, m)
    requires v == Product(e, a0) && Invertible(e)
    requires exists k: nat :: k < m.rows && LowerCleared(v, m.rows, k) && ColumnZeroBelow(v, k)
    ensures Singular(m)
  {
    var k: nat :| k < m.rows && LowerCleared(v, m.rows, k) && ColumnZeroBelow(v, k);
    AugmentLeft(mode, m);
    NoPivotNoInverse(m, e, a0, v, k);
  }

  /** The left `n x n` block keeps the cleared columns and the missing pivot. */
  lemma BlockCleared(v: Mat, n: nat, k: nat)
    requires n <= v.rows && n <= v.cols && k < n && LowerCleared(v, n, k) && ColumnZeroBelow(v, k) && v.rows == n
    ensures LowerCleared(Block(v, 0, n), n, k) && ColumnZeroBelow(Block(v, 0, n), k)
  {
  }

  // ---------------------------------------------------------------------------
  // The phases of matrix_invert

  /**
   * The view of the buffer through the row table is the product of the
   * recorded row operations `e` with the starting matrix `a0`.
   */
  ghost predicate Tracks(c: Mat, p: seq<nat>, e: Mat, a0: Mat)
  {
    IsPerm(p, c.rows) && a0.rows == c.rows && a0.cols == c.cols && e.rows == c.rows && e.cols == c.rows
    && View(c, p) == Product(e, a0)
  }

  /** Lines 249-252: the row table starts as `0, 1, ..., n-1`. */
  method InitRowTable(n: nat) returns (cdata: array<nat>)
    ensures fresh(cdata) && cdata.Length == n
    ensures forall i :: 0 <= i < n ==> cdata[i] == i
  {
    cdata := new nat[n];
    for i := 0 to n
      invariant forall i' :: 0 <= i' < i ==> cdata[i'] == i'
    {
      cdata[i] := i;
    }
  }

  /**
   * Lines 270-279: the pivot row is swapped into place in the row table and
   * normalised.  The row operations recorded are a swap and a scaling.
   */
  method PivotStep(c: Matrix, cdata: array<nat>, k: nat, index: nat, ghost a0: Mat, ghost e: Mat) returns (ghost e': Mat)
    requires c.Valid() && c.rows <= c.cols && Tracks(c.Value(), cdata[..], e, a0)
    requires k <= index < c.rows
    requires Get(View(c.Value(), cdata[..]), index, k) != 0.0
    requires LowerCleared(View(c.Value(), cdata[..]), c.rows, k) && Invertible(e)
    modifies c.data, cdata
    ensures Tracks(c.Value(), cdata[..], e', a0) && Invertible(e')
    ensures LowerCleared(View(c.Value(), cdata[..]), c.rows, k) && Get(View(c.Value(), cdata[..]), k, k) == 1.0
  {
    ghost var C := c.Value();
    ghost var p := cdata[..];
    ghost var v := View(C, p);
    var swap := cdata[index];
    cdata[index] := cdata[k];
    cdata[k] := swap;
    assert cdata[..] == p[index := p[k]][k := p[index]];
    ViewSwap(C, p, index, k);
    ghost var v1 := SwapRows(v, index, k);
    ProductSwapRows(e, a0, index, k);
    SwapKeepsLower(v, c.rows, k, index);
    assert Get(v1, k, k) == Get(v, index, k);
    NormalizePivotRow(c, cdata, k);
    assert forall j: nat :: j < k ==> Get(v1, k, j) == 0.0;
    NormIsScale(v1, k);
    NormKeepsLower(v1, c.rows, k);
    ProductScaleRow(SwapRows(e, index, k), a0, k, 1.0 / Get(v1, k, k));
    e' := ScaleRow(SwapRows(e, index, k), k, 1.0 / Get(v1, k, k));
    SwapInvertible(e, index, k);
    ScaleInvertible(SwapRows(e, index, k), k, 1.0 / Get(v1, k, k));
  }

  /**
   * Lines 280-286: every row below the pivot gets its entry in column `k`
   * cleared.  Each step is recorded as adding a multiple of row `k`.
   */
  method EliminateBelow(c: Matrix, cdata: array<nat>, k: nat, ghost a0: Mat, ghost e: Mat) returns (ghost e': Mat)
    requires c.Valid() && c.rows <= c.cols && Tracks(c.Value(), cdata[..], e, a0) && k < c.rows && Invertible(e)
    requires LowerCleared(View(c.Value(), cdata[..]), c.rows, k) && Get(View(c.Value(), cdata[..]), k, k) == 1.0
    modifies c.data
    ensures Tracks(c.Value(), cdata[..], e', a0) && Invertible(e')
    ensures LowerCleared(View(c.Value(), cdata[..]), c.rows, k + 1)
  {
    e' := e;
    for i := k + 1 to c.rows
      invariant Tracks(c.Value(), cdata[..], e', a0) && Invertible(e')
      invariant LowerCleared(View(c.Value(), cdata[..]), c.rows, k) && Get(View(c.Value(), cdata[..]), k, k) == 1.0
      invariant forall i': nat :: k < i' < i ==> Get(View(c.Value(), cdata[..]), i', k) == 0.0
    {
      e' := EliminateRow(c, cdata, i, k, a0, e');
    }
    LowerExtend(View(c.Value(), cdata[..]), c.rows, k);
  }

  /** Line 284 for row `i` below the pivot: its entry in column `k` is cleared by adding a multiple of row `k`. */
  method EliminateRow(c: Matrix, cdata: array<nat>, i: nat, k: nat, ghost a0: Mat, ghost e: Mat) returns (ghost e': Mat)
    requires c.Valid() && c.rows <= c.cols && Tracks(c.Value(), cdata[..], e, a0) && k < i < c.rows && Invertible(e)
    requires LowerCleared(View(c.Value(), cdata[..]), c.rows, k) && Get(View(c.Value(), cdata[..]), k, k) == 1.0
    requires forall i': nat :: k < i' < i ==> Get(View(c.Value(), cdata[..]), i', k) == 0.0
    modifies c.data
    ensures Tracks(c.Value(), cdata[..], e', a0) && Invertible(e')
    ensures LowerCleared(View(c.Value(), cdata[..]), c.rows, k) && Get(View(c.Value(), cdata[..]), k, k) == 1.0
    ensures forall i': nat :: k < i' <= i ==> Get(View(c.Value(), cdata[..]), i', k) == 0.0
  {
    ghost var v := View(c.Value(), cdata[..]);
    EliminateEntry(c, cdata, i, k);
    assert forall j: nat :: j < k ==> Get(v, k, j) == 0.0;
    ElimIsAddRow(v, i, k);
    ElimRowShape(v, i, k);
    ElimBelowKeeps(v, c.rows, i, k);
    ProductAddRow(e, a0, i, k, -Get(v, i, k));
    e' := AddRow(e, i, k, -Get(v, i, k));
    AddInvertible(e, i, k, -Get(v, i, k));
  }

  /**
   * Lines 254-287, forward elimination with partial pivoting.  It stops with
   * `false` at the first column that is zero from the diagonal down; the view
   * then shows that column with the unit columns before it.
   */
  method ForwardEliminate(c: Matrix, cdata: array<nat>, ghost a0: Mat, ghost e0: Mat) returns (ok: bool, ghost e: Mat)
    requires c.Valid() && c.rows <= c.cols && Tracks(c.Value(), cdata[..], e0, a0) && Invertible(e0)
    modifies c.data, cdata
    ensures Tracks(c.Value(), cdata[..], e, a0) && Invertible(e)
    ensures ok ==> LowerCleared(View(c.Value(), cdata[..]), c.rows, c.rows)
    ensures !ok ==> exists k: nat :: k < c.rows && LowerCleared(View(c.Value(), cdata[..]), c.rows, k)
                                     && ColumnZeroBelow(View(c.Value(), cdata[..]), k)
  {
    e := e0;
    for k := 0 to c.rows
      invariant Tracks(c.Value(), cdata[..], e, a0) && Invertible(e)
      invariant LowerCleared(View(c.Value(), cdata[..]), c.rows, k)
    {
      var index := FindPivot(c, cdata, k);
      if index == -1 {
        return false, e;
      }
      e := PivotStep(c, cdata, k, index, a0, e);
      e := EliminateBelow(c, cdata, k, a0, e);
    }
    ok := true;
  }

  /**
   * Lines 289-296: entries above the diagonal in column `k` cleared.  Each
   * step is recorded as adding a multiple of row `k`.
   */
  method EliminateAbove(c: Matrix, cdata: array<nat>, k: nat, ghost a0: Mat, ghost e: Mat) returns (ghost e': Mat)
    requires c.Valid() && c.rows <= c.cols && Tracks(c.Value(), cdata[..], e, a0) && 0 < k < c.rows
    requires LowerCleared(View(c.Value(), cdata[..]), c.rows, c.rows) && UpperCleared(View(c.Value(), cdata[..]), c.rows, k)
    modifies c.data
    ensures Tracks(c.Value(), cdata[..], e', a0)
    ensures LowerCleared(View(c.Value(), cdata[..]), c.rows, c.rows) && UpperCleared(View(c.Value(), cdata[..]), c.rows, k - 1)
  {
    e' := e;
    for i := 0 to k
      invariant Tracks(c.Value(), cdata[..], e', a0)
      invariant LowerCleared(View(c.Value(), cdata[..]), c.rows, c.rows) && UpperCleared(View(c.Value(), cdata[..]), c.rows, k)
      invariant forall i': nat :: i' < i ==> Get(View(c.Value(), cdata[..]), i', k) == 0.0
    {
      e' := EliminateRowAbove(c, cdata, i, k, a0, e');
    }
    UpperExtend(View(c.Value(), cdata[..]), c.rows, k);
  }

  /** Line 294 for row `i` above the pivot: its entry in column `k` is cleared by adding a multiple of row `k`. */
  method EliminateRowAbove(c: Matrix, cdata: array<nat>, i: nat, k: nat, ghost a0: Mat, ghost e: Mat) returns (ghost e': Mat)
    requires c.Valid() && c.rows <= c.cols && Tracks(c.Value(), cdata[..], e, a0) && i < k < c.rows
    requires LowerCleared(View(c.Value(), cdata[..]), c.rows, c.rows) && UpperCleared(View(c.Value(), cdata[..]), c.rows, k)
    requires forall i': nat :: i' < i ==> Get(View(c.Value(), cdata[..]), i', k) == 0.0
    modifies c.data
    ensures Tracks(c.Value(), cdata[..], e', a0)
    ensures LowerCleared(View(c.Value(), cdata[..]), c.rows, c.rows) && UpperCleared(View(c.Value(), cdata[..]), c.rows, k)
    ensures forall i': nat :: i' <= i ==> Get(View(c.Value(), cdata[..]), i', k) == 0.0
  {
    ghost var v := View(c.Value(), cdata[..]);
    EliminateEntry(c, cdata, i, k);
    assert Get(v, k, k) == 1.0 && forall j: nat :: j < k ==> Get(v, k, j) == 0.0;
    ElimIsAddRow(v, i, k);
    ElimRowShape(v, i, k);
    ElimAboveKeeps(v, c.rows, i, k);
    ProductAddRow(e, a0, i, k, -Get(v, i, k));
    e' := AddRow(e, i, k, -Get(v, i, k));
  }

  /** Lines 288-297, back substitution from the last column down to column 1. */
  method BackSubstitute(c: Matrix, cdata: array<nat>, ghost a0: Mat, ghost e: Mat) returns (ghost e': Mat)
    requires c.Valid() && c.rows <= c.cols && Tracks(c.Value(), cdata[..], e, a0)
    requires LowerCleared(View(c.Value(), cdata[..]), c.rows, c.rows)
    modifies c.data
    ensures Tracks(c.Value(), cdata[..], e', a0)
    ensures LowerCleared(View(c.Value(), cdata[..]), c.rows, c.rows) && UpperCleared(View(c.Value(), cdata[..]), c.rows, 0)
  {
    e' := e;
    var k: int := c.rows - 1;
    while k > 0
      invariant -1 <= k < c.rows
      invariant Tracks(c.Value(), cdata[..], e', a0)
      invariant LowerCleared(View(c.Value(), cdata[..]), c.rows, c.rows) && UpperCleared(View(c.Value(), cdata[..]), c.rows, k)
    {
      e' := EliminateAbove(c, cdata, k, a0, e');
      k := k - 1;
    }
  }

  /**
   * Lines 298-306: the right `n x n` half of the view, read through the row
   * table, copied into a fresh matrix.
   */
  method CopyInverse(c: Matrix, cdata: array<nat>, debug: bool) returns (inv: Matrix)
    requires c.Valid() && IsPerm(cdata[..], c.rows) && c.cols == 2 * c.rows
    ensures inv.Valid() && fresh(inv.data) && inv.rows == inv.cols == c.rows
    ensures inv.Value() == Block(View(c.Value(), cdata[..]), c.rows, c.rows)
  {
    var n := c.rows;
    ghost var mode;
    inv, mode := MakeMatrixGarbage(n, n, debug);
    ghost var I0 := inv.Value();
    ghost var B := Block(View(c.Value(), cdata[..]), n, n);
    for i := 0 to n
      modifies inv.data
      invariant CopiedBlockUpTo(inv.data[..], I0, B, mode, i, 0)
    {
      for j := 0 to n
        modifies inv.data
        invariant CopiedBlockUpTo(inv.data[..], I0, B, mode, i, j)
      {
        CopyInverseCell(c, cdata, inv, I0, B, mode, i, j);
      }
      assert CopiedBlockUpTo(inv.data[..], I0, B, mode, i + 1, 0);
    }
    CopyInverseResult(B, I0, inv.Value(), mode);
  }

  /**
   * The buffer `s` holds `b` at the cells visited before `(i, j)` in row-major
   * order, and the allocator's value everywhere else.
   */
  ghost predicate CopiedBlockUpTo(s: seq<real>, I0: Mat, B: Mat, mode: AllocMode, i: nat, j: nat)
    requires I0.rows == B.rows && I0.cols == B.cols
  {
    |s| == |I0.data| &&
    forall q :: 0 <= q < |s| ==>
      s[q] == if RowOf(I0, q) < i || (RowOf(I0, q) == i && ColOf(I0, q) < j)
              then Get(B, RowOf(I0, q), ColOf(I0, q)) else Fill(mode, q)
  }

  /** One assignment `inv[i][j] := cdata[i][j + n]` of lines 298-306. */
  method CopyInverseCell(c: Matrix, cdata: array<nat>, inv: Matrix, ghost I0: Mat, ghost B: Mat, ghost mode: AllocMode, i: nat, j: nat)
    requires c.Valid() && IsPerm(cdata[..], c.rows) && c.cols == 2 * c.rows
    requires inv.Valid() && inv.data != c.data && I0.rows == I0.cols == inv.rows == inv.cols == c.rows
    requires B == Block(View(c.Value(), cdata[..]), c.rows, c.rows) && i < c.rows && j < c.rows
    requires CopiedBlockUpTo(inv.data[..], I0, B, mode, i, j)
    modifies inv.data
    ensures CopiedBlockUpTo(inv.data[..], I0, B, mode, i, j + 1)
  {
    var n := c.rows;
    var dst: int := i * n + j;
    CellOnly(I0, i, j, dst);
    var r := cdata[i];
    ViewAt(c.Value(), cdata[..], i, j + n, r, c.cols);
    ghost var before := inv.data[..];
    inv.data[dst] := c.data[r * c.cols + (j + n)];
    CopiedBlockStep(before, inv.data[..], I0, B, mode, i, j, dst);
  }

  /** Writing `b[i][j]` at the offset of `(i, j)` extends the copied prefix by one cell. */
  lemma CopiedBlockStep(before: seq<real>, after: seq<real>, I0: Mat, B: Mat, mode: AllocMode, i: nat, j: nat, dst: int)
    requires I0.rows == B.rows && I0.cols == B.cols && i < I0.rows && j < I0.cols
    requires CopiedBlockUpTo(before, I0, B, mode, i, j)
    requires 0 <= dst < |before| && RowOf(I0, dst) == i && ColOf(I0, dst) == j
    requires forall q :: 0 <= q < |I0.data| && RowOf(I0, q) == i && ColOf(I0, q) == j ==> q == dst
    requires after == before[dst := Get(B, i, j)]
    ensures CopiedBlockUpTo(after, I0, B, mode, i, j + 1)
  {
  }

  lemma CopyInverseResult(b: Mat, i0: Mat, inv: Mat, mode: AllocMode)
    requires i0.rows == inv.rows == b.rows && i0.cols == inv.cols == b.cols
    requires CopiedBlockUpTo(inv.data, i0, b, mode, b.rows, 0)
    ensures inv == b
  {
    forall i: nat, j: nat | i < b.rows && j < b.cols
      ensures Get(inv, i, j) == Get(b, i, j)
    {
      FlatRowCol(i0, i, j);
      GetAt(inv, i, j);
    }
    Ext(inv, b);
  }

  /**
   * What the finished elimination gives: the recorded operations `e` turn `m`
   * into the identity, the copied half is `e` applied to the starting right
   * half, and with a zeroed allocation that half was the identity, so the copy
   * is `e` itself.
   */
  lemma InvertResult(m: Mat, mode: AllocMode, e: Mat, v: Mat)
    requires m.rows == m.cols && e.rows == e.cols == m.rows
    requires v == Product(e, Augment(mode, m))
    requires LowerCleared(v, m.rows, m.rows) && UpperCleared(v, m.rows, 0)
    ensures Product(e, m) == Identity(m.rows)
    ensures Block(v, m.cols, m.cols) == Product(e, Block(Augment(mode, m), m.cols, m.cols))
    ensures mode == Zeroed ==> Block(v, m.cols, m.cols) == e && Product(Block(v, m.cols, m.cols), m) == Identity(m.rows)
  {
    var a0 := Augment(mode, m);
    ClearedIsIdentity(v, m.rows);
    BlockProduct(e, a0, 0, m.cols);
    AugmentLeft(mode, m);
    BlockProduct(e, a0, m.cols, m.cols);
    if mode == Zeroed {
      AugmentZeroed(m);
      ProductIdentityRight(e);
    }
  }

  /**
   * matrix_invert (lines 233-311).  A non-square input gives `null`.  A
   * column without a pivot gives `null`, and then `m` has no left inverse.
   * Otherwise the ghost `e`, the product of the row operations performed,
   * turns `m` into the identity and the result is `e` applied to the right
   * half of the augmented matrix; when that half starts as the identity
   * (zeroed allocation) the result is a left inverse of `m`.  `v` is the view
   * of the augmented buffer when the elimination ended, and `mode` the
   * contents that buffer was allocated with.
   */
  method MatrixInvert(m: Matrix, debug: bool) returns (inv: Matrix?, ghost e: Mat, ghost v: Mat, ghost mode: AllocMode)
    requires m.Valid()
    ensures debug ==> mode == Zeroed
    ensures m.rows != m.cols ==> inv == null
    ensures m.rows == m.cols ==> e.rows == e.cols == m.rows && v == Product(e, Augment(mode, m.Value()))
    ensures m.rows == m.cols && inv == null ==>
      exists k: nat :: k < m.rows && LowerCleared(v, m.rows, k) && ColumnZeroBelow(v, k)
    ensures m.rows == m.cols && inv == null ==> Singular(m.Value())
    ensures inv != null ==>
      m.rows == m.cols && inv.Valid() && fresh(inv.data) && inv.rows == inv.cols == m.rows
      && Product(e, m.Value()) == Identity(m.rows)
      && inv.Value() == Product(e, Block(Augment(mode, m.Value()), m.cols, m.cols))
    ensures inv != null && mode == Zeroed ==> Product(inv.Value(), m.Value()) == Identity(m.rows)
  {
    if m.rows != m.cols {
      return null, Identity(0), Identity(0), Zeroed;
    }
    var c;
    c, mode := AugmentMatrix(m, debug);
    var cdata := InitRowTable(c.rows);
    ghost var A0 := c.Value();
    ViewIdentity(A0, cdata[..]);
    ProductIdentityLeft(A0);
    e := Identity(c.rows);
    IdentityInvertible(c.rows);
    var ok;
    ok, e := ForwardEliminate(c, cdata, A0, e);
    if !ok {
      v := View(c.Value(), cdata[..]);
      FailedElimination(m.Value(), mode, e, A0, v);
      return null, e, v, mode;
    }
    e := BackSubstitute(c, cdata, A0, e);
    v := View(c.Value(), cdata[..]);
    inv := CopyInverse(c, cdata, debug);
    InvertResult(m.Value(), mode, e, v);
  }

  /**
   * With an uninitialised augmented buffer the result need not be an inverse:
   * for the 2 x 2 identity the operations `e` must be the identity, so the
   * result is the starting right half, whose off-diagonal entry `(0, 1)` is the
   * allocator's leftover value at flat offset 3.
   */
  lemma InvertGarbageIdentity(junk: nat -> real, e: Mat)
    requires junk(3) != 0.0
    requires e.rows == e.cols == 2 && Product(e, Identity(2)) == Identity(2)
    ensures Product(e, Block(Augment(Garbage(junk), Identity(2)), 2, 2)) != Identity(2)
  {
    var r := Block(Augment(Garbage(junk), Identity(2)), 2, 2);
    ProductIdentityRight(e);
    ProductIdentityLeft(r);
    var i2 := Identity(2);
    assert Get(r, 0, 1) == Get(Augment(Garbage(junk), i2), 0, 3);
    assert Get(Augment(Garbage(junk), i2), 0, 3) == Fill(Garbage(junk), 0 * (2 * i2.cols) + 3);
    assert Get(r, 0, 1) != Get(i2, 0, 1);
  }

  /**
   * solve_system (lines 313-324): `a = (inverse(Mt*M) * Mt) * b` with
   * `Mt = transpose(M)`, each product accumulated into a fresh buffer as
   * matmul does.  `mtm` is the computed `Mt*M`, `e` and `inv` the operations
   * and the result of inverting it, and `kMtM`, `kAug`, `kDag`, `kA` the
   * contents of the buffers of `Mt*M`, of the augmented matrix, of `Mdag` and
   * of `a`.  The result is `null` exactly when `mtm` has no left inverse.
   */
  method SolveSystem(m: Matrix, b: Matrix, debug: bool)
    returns (a: Matrix?, ghost mtm: Mat, ghost e: Mat, ghost inv: Mat,
             ghost kMtM: AllocMode, ghost kAug: AllocMode, ghost kDag: AllocMode, ghost kA: AllocMode)
    requires m.Valid() && b.Valid() && m.rows == b.rows
    ensures debug ==> kMtM == kAug == kDag == kA == Zeroed
    ensures mtm == Add(Alloc(kMtM, m.cols, m.cols), Product(Transpose(m.Value()), m.Value()))
    ensures a == null ==> Singular(mtm)
    ensures a != null ==> (a.Valid() && fresh(a.data) && a.rows == m.cols && a.cols == b.cols
      && e.rows == e.cols == m.cols && Product(e, mtm) == Identity(m.cols)
      && inv == Product(e, Block(Augment(kAug, mtm), m.cols, m.cols))
      && a.Value() == Add(Alloc(kA, m.cols, b.cols),
                          Product(Add(Alloc(kDag, m.cols, m.rows), Product(inv, Transpose(m.Value()))), b.Value())))
    ensures a != null && debug ==>
      (Product(inv, Product(Transpose(m.Value()), m.Value())) == Identity(m.cols)
       && a.Value() == Product(Product(inv, Transpose(m.Value())), b.Value()))
  {
    var mt := TransposeMatrix(m, debug);
    var mtmM;
    mtmM, kMtM := MatMul(mt, m, debug);
    mtm := mtmM.Value();
    var mtmInv;
    ghost var v;
    mtmInv, e, v, kAug := MatrixInvert(mtmM, debug);
    if mtmInv == null {
      return null, mtm, e, Identity(0), kMtM, kAug, Zeroed, Zeroed;
    }
    inv := mtmInv.Value();
    var mdag;
    mdag, kDag := MatMul(mtmInv, mt, debug);
    a, kA := MatMul(mdag, b, debug);
    if debug {
      ghost var M, Mt := m.Value(), mt.Value();
      AllocZeroed(m.cols, m.cols);
      AddZeros(Product(Mt, M));
      AllocZeroed(m.cols, m.rows);
      AddZeros(Product(inv, Mt));
      AllocZeroed(m.cols, b.cols);
      AddZeros(Product(mdag.Value(), b.Value()));
    }
  }

  /**
   * The least-squares solution of a consistent system is its solution: when
   * `inv` is a left inverse of `Mt*M` and `b = M*x`, `(inv * Mt) * b == x`.
   */
  lemma SolveRecovers(m: Mat, inv: Mat, x: Mat)
    requires m.cols == x.rows && inv.rows == inv.cols == m.cols
    requires Product(inv, Product(Transpose(m), m)) == Identity(m.cols)
    ensures Product(Product(inv, Transpose(m)), Product(m, x)) == x
  {
    var mt := Transpose(m);
    ProductAssoc(inv, mt, Product(m, x));
    ProductAssoc(mt, m, x);
    ProductAssoc(inv, Product(mt, m), x);
    ProductIdentityLeft(x);
  }
}
