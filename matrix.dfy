/**
 * The dense matrix library of src/matrix.c: a matrix is a shape and a flat
 * row-major buffer of `rows * cols` values.  `Mat` is the value a buffer
 * holds; `Matrix` is the record the C code passes around, whose buffer the
 * in-place routines update.
 */
module Matrices {
  import opened Arith
  import opened Sums

  // ---------------------------------------------------------------------------
  // Matrix values

  datatype MatVal = MatVal(rows: nat, cols: nat, data: seq<real>)

  /** A matrix value whose buffer has exactly `rows * cols` entries. */
  type Mat = m: MatVal | |m.data| == m.rows * m.cols witness MatVal(0, 0, [])

  /** `i * cols + j`, written as repeated addition. */
  function Offset(cols: nat, i: nat, j: nat): nat
  {
    if i == 0 then j else cols + Offset(cols, i - 1, j)
  }

  lemma {:induction false} OffsetIs(cols: nat, i: nat, j: nat)
    ensures Offset(cols, i, j) == i * cols + j
  {
    if i > 0 {
      OffsetIs(cols, i - 1, j);
      assert (i - 1) * cols + cols == i * cols;
    }
  }

  /** Entry `(i, j)`, stored at flat offset `i * cols + j`. */
  function Get(m: Mat, i: nat, j: nat): real
    requires i < m.rows && j < m.cols
  {
    OffsetIs(m.cols, i, j);
    FlatBound(i, j, m.rows, m.cols);
    m.data[Offset(m.cols, i, j)]
  }

  /** Where entry `(i, j)` sits in the buffer. */
  lemma GetAt(m: Mat, i: nat, j: nat)
    requires i < m.rows && j < m.cols
    ensures 0 <= i * m.cols + j < |m.data| && Get(m, i, j) == m.data[i * m.cols + j]
  {
    OffsetIs(m.cols, i, j);
    FlatBound(i, j, m.rows, m.cols);
  }

  /** `GetAt` for an offset the caller already has at hand. */
  lemma GetAtOffset(m: Mat, i: nat, j: nat, at: int)
    requires i < m.rows && j < m.cols && at == i * m.cols + j
    ensures 0 <= at < |m.data| && Get(m, i, j) == m.data[at]
  {
    GetAt(m, i, j);
  }

  /** Row, column of a flat offset. */
  function RowOf(m: Mat, k: nat): (i: nat)
    requires k < m.rows * m.cols
    ensures i < m.rows
  {
    Unflatten(k, m.rows, m.cols);
    k / m.cols
  }

  function ColOf(m: Mat, k: nat): (j: nat)
    requires k < m.rows * m.cols
    ensures j < m.cols
  {
    Unflatten(k, m.rows, m.cols);
    k % m.cols
  }

  lemma GetFlat(m: Mat, k: nat)
    requires k < m.rows * m.cols
    ensures Get(m, RowOf(m, k), ColOf(m, k)) == m.data[k]
  {
    Unflatten(k, m.rows, m.cols);
    GetAt(m, RowOf(m, k), ColOf(m, k));
  }

  /** Offset `at` of cell `(i, j)` is the only offset whose row is `i` and whose column is `j`. */
  lemma CellOnly(m: Mat, i: nat, j: nat, at: int)
    requires i < m.rows && j < m.cols && at == i * m.cols + j
    ensures 0 <= at < |m.data| && RowOf(m, at) == i && ColOf(m, at) == j
    ensures forall q :: 0 <= q < |m.data| && RowOf(m, q) == i && ColOf(m, q) == j ==> q == at
  {
    FlatRowCol(m, i, j);
    forall q | 0 <= q < |m.data| && RowOf(m, q) == i && ColOf(m, q) == j
      ensures q == at
    {
      Unflatten(q, m.rows, m.cols);
    }
  }

  lemma FlatRowCol(m: Mat, i: nat, j: nat)
    requires i < m.rows && j < m.cols
    ensures i * m.cols + j < m.rows * m.cols
    ensures RowOf(m, i * m.cols + j) == i && ColOf(m, i * m.cols + j) == j
    ensures Get(m, i, j) == m.data[i * m.cols + j]
  {
    GetAt(m, i, j);
    DivMod(i, j, m.cols);
  }

  /** Two matrices of one shape that agree at every entry are the same matrix. */
  lemma {:induction false} Ext(a: Mat, b: Mat)
    requires a.rows == b.rows && a.cols == b.cols
    requires forall i: nat, j: nat :: i < a.rows && j < a.cols ==> Get(a, i, j) == Get(b, i, j)
    ensures a == b
  {
    forall k | 0 <= k < |a.data|
      ensures a.data[k] == b.data[k]
    {
      GetFlat(a, k);
      GetFlat(b, k);
    }
  }

  /** The `r x c` matrix whose entry `(i, j)` is `f(i, j)`. */
  ghost function Build(r: nat, c: nat, f: (nat, nat) -> real): (m: Mat)
    ensures m.rows == r && m.cols == c
    ensures forall i: nat, j: nat :: i < r && j < c ==> Get(m, i, j) == f(i, j)
  {
    var rows: Mat := MatVal(r, c, Rows(r, c, f));
    forall i: nat, j: nat | i < r && j < c
      ensures Get(rows, i, j) == f(i, j)
    {
      RowsAt(r, c, f, i, j);
      GetAt(rows, i, j);
    }
    var m: Mat :| m.rows == r && m.cols == c && forall i: nat, j: nat :: i < r && j < c ==> Get(m, i, j) == f(i, j);
    m
  }

  /** Row `i` of `X`: one example of a batch, the values at offsets `i*cols` to `i*cols + cols`. */
  function Example(X: Mat, i: nat): (e: seq<real>)
    requires i < X.rows
    ensures i * X.cols + X.cols <= |X.data| && |e| == X.cols
  {
    MulMono(i + 1, X.rows, X.cols);
    X.data[i * X.cols .. i * X.cols + X.cols]
  }

  /** Rows `0 .. r-1` of `Build(r, c, f)`, laid out one after the other. */
  function Rows(r: nat, c: nat, f: (nat, nat) -> real): (s: seq<real>)
    ensures |s| == r * c
  {
    if r == 0 then [] else Rows(r - 1, c, f) + seq(c, (j: int) requires 0 <= j => f(r - 1, j))
  }

  lemma {:induction false} RowsAt(r: nat, c: nat, f: (nat, nat) -> real, i: nat, j: nat)
    requires i < r && j < c
    ensures i * c + j < r * c && Rows(r, c, f)[i * c + j] == f(i, j)
  {
    FlatBound(i, j, r, c);
    if i < r - 1 {
      RowsAt(r - 1, c, f, i, j);
    }
  }

  function Zeros(r: nat, c: nat): (z: Mat)
    ensures z.rows == r && z.cols == c
    ensures forall k :: 0 <= k < |z.data| ==> z.data[k] == 0.0
  {
    MatVal(r, c, seq(r * c, k => 0.0))
  }

  /** The `n x n` identity matrix. */
  ghost function Identity(n: nat): (e: Mat)
    ensures e.rows == n && e.cols == n
    ensures forall i: nat, j: nat :: i < n && j < n ==> Get(e, i, j) == if i == j then 1.0 else 0.0
  {
    Build(n, n, (i: nat, j: nat) => if i == j then 1.0 else 0.0)
  }

  // ---------------------------------------------------------------------------
  // Allocation.  `debug_mode` (src/matrix.c:8) chooses between `calloc`, whose
  // buffer is zeroed, and `malloc`, whose buffer holds whatever was there.
  // The contents of one allocation are an `AllocMode`: `Zeroed`, or
  // `Garbage(junk)`, which holds `junk(k)` at flat offset `k`.  Every
  // allocation has its own contents.

  datatype AllocMode = Zeroed | Garbage(junk: nat -> real)

  function Fill(mode: AllocMode, k: nat): real
  {
    match mode
    case Zeroed => 0.0
    case Garbage(junk) => junk(k)
  }

  /** The contents of a freshly allocated `r x c` buffer. */
  function Alloc(mode: AllocMode, r: nat, c: nat): (m: Mat)
    ensures m.rows == r && m.cols == c
    ensures forall k :: 0 <= k < |m.data| ==> m.data[k] == Fill(mode, k)
  {
    MatVal(r, c, seq(r * c, (k: int) requires 0 <= k => Fill(mode, k)))
  }

  /** Every allocation in `modes` was zeroed. */
  predicate AllZeroed(modes: seq<AllocMode>)
  {
    forall k :: 0 <= k < |modes| ==> modes[k] == Zeroed
  }

  lemma AllocZeroed(r: nat, c: nat)
    ensures Alloc(Zeroed, r, c) == Zeros(r, c)
  {
  }

  // ---------------------------------------------------------------------------
  // Specifications of the arithmetic routines

  /** `t[j][i] == m[i][j]`. */
  ghost function Transpose(m: Mat): (t: Mat)
    ensures t.rows == m.cols && t.cols == m.rows
    ensures forall i: nat, j: nat :: i < m.rows && j < m.cols ==> Get(t, j, i) == Get(m, i, j)
  {
    Build(m.cols, m.rows, (j: nat, i: nat) => if i < m.rows && j < m.cols then Get(m, i, j) else 0.0)
  }

  /** Elementwise sum. */
  function Add(x: Mat, y: Mat): (z: Mat)
    requires x.rows == y.rows && x.cols == y.cols
    ensures z.rows == y.rows && z.cols == y.cols
    ensures forall k :: 0 <= k < |z.data| ==> z.data[k] == x.data[k] + y.data[k]
  {
    MatVal(y.rows, y.cols, seq(|y.data|, k requires 0 <= k < |y.data| => x.data[k] + y.data[k]))
  }

  /** `a * x + y`, elementwise. */
  function Axpy(a: real, x: Mat, y: Mat): (z: Mat)
    requires x.rows == y.rows && x.cols == y.cols
    ensures z.rows == y.rows && z.cols == y.cols
    ensures forall k :: 0 <= k < |z.data| ==> z.data[k] == y.data[k] + a * x.data[k]
  {
    MatVal(y.rows, y.cols, seq(|y.data|, k requires 0 <= k < |y.data| => y.data[k] + a * x.data[k]))
  }

  /** `m * s`, elementwise. */
  function Scale(s: real, m: Mat): (z: Mat)
    ensures z.rows == m.rows && z.cols == m.cols
    ensures forall k :: 0 <= k < |z.data| ==> z.data[k] == m.data[k] * s
  {
    MatVal(m.rows, m.cols, seq(|m.data|, k requires 0 <= k < |m.data| => m.data[k] * s))
  }

  /** The terms `a[i][k] * b[k][j]` of the product entry `(i, j)`. */
  function Terms(a: Mat, b: Mat, i: nat, j: nat): nat -> real
  {
    (k: nat) => if i < a.rows && k < a.cols && k < b.rows && j < b.cols then Get(a, i, k) * Get(b, k, j) else 0.0
  }

  /** `sum_k a[i][k] * b[k][j]`. */
  function Dot(a: Mat, b: Mat, i: nat, j: nat): real
  {
    Sum(a.cols, Terms(a, b, i, j))
  }

  /** `Dot` unfolded, over the column count of a matrix of the same width. */
  lemma DotIsSum(a: Mat, a1: Mat, b: Mat, i: nat, j: nat)
    requires a1.cols == a.cols
    ensures Dot(a1, b, i, j) == Sum(a.cols, Terms(a1, b, i, j))
  {
  }

  /** Product entries whose terms combine linearly combine the same way. */
  lemma DotLinear(a: Mat, a1: Mat, a2: Mat, b: Mat, i: nat, i1: nat, i2: nat, j: nat, s: real)
    requires a1.cols == a.cols && a2.cols == a.cols
    requires forall r: nat :: r < a.cols ==> Terms(a, b, i, j)(r) == Terms(a1, b, i1, j)(r) + s * Terms(a2, b, i2, j)(r)
    ensures Dot(a, b, i, j) == Dot(a1, b, i1, j) + s * Dot(a2, b, i2, j)
  {
    SumLinear(a.cols, s, Terms(a1, b, i1, j), Terms(a2, b, i2, j), Terms(a, b, i, j));
    DotIsSum(a, a1, b, i1, j);
    DotIsSum(a, a2, b, i2, j);
  }

  /** Product entries whose terms are `s` times others are `s` times those. */
  lemma DotScale(a: Mat, a1: Mat, b: Mat, i: nat, i1: nat, j: nat, s: real)
    requires a1.cols == a.cols
    requires forall r: nat :: r < a.cols ==> Terms(a, b, i, j)(r) == s * Terms(a1, b, i1, j)(r)
    ensures Dot(a, b, i, j) == s * Dot(a1, b, i1, j)
  {
    SumScale(a.cols, s, Terms(a1, b, i1, j), Terms(a, b, i, j));
    DotIsSum(a, a1, b, i1, j);
  }

  /** The matrix product. */
  ghost function Product(a: Mat, b: Mat): (c: Mat)
    requires a.cols == b.rows
    ensures c.rows == a.rows && c.cols == b.cols
    ensures forall i: nat, j: nat :: i < a.rows && j < b.cols ==> Get(c, i, j) == Dot(a, b, i, j)
  {
    Build(a.rows, b.cols, (i: nat, j: nat) => Dot(a, b, i, j))
  }

  // ---------------------------------------------------------------------------
  // Properties of the specifications

  /** Transposing twice gives back the matrix. */
  lemma TransposeTwice(m: Mat)
    ensures Transpose(Transpose(m)) == m
  {
    Ext(Transpose(Transpose(m)), m);
  }

  /** The identity is a left unit of the product. */
  lemma ProductIdentityLeft(m: Mat)
    ensures Product(Identity(m.rows), m) == m
  {
    var e := Identity(m.rows);
    forall i: nat, j: nat | i < m.rows && j < m.cols
      ensures Get(Product(e, m), i, j) == Get(m, i, j)
    {
      SumPoint(m.rows, i, Get(m, i, j), Terms(e, m, i, j));
    }
    Ext(Product(e, m), m);
  }

  /** The identity is a right unit of the product. */
  lemma ProductIdentityRight(m: Mat)
    ensures Product(m, Identity(m.cols)) == m
  {
    var e := Identity(m.cols);
    forall i: nat, j: nat | i < m.rows && j < m.cols
      ensures Get(Product(m, e), i, j) == Get(m, i, j)
    {
      SumPoint(m.cols, j, Get(m, i, j), Terms(m, e, i, j));
    }
    Ext(Product(m, e), m);
  }

  /** Adding a zero buffer changes nothing. */
  lemma AddZeros(m: Mat)
    ensures Add(Zeros(m.rows, m.cols), m) == m
  {
  }

  /** Matrix multiplication is associative. */
  lemma ProductAssoc(a: Mat, b: Mat, c: Mat)
    requires a.cols == b.rows && b.cols == c.rows
    ensures Product(Product(a, b), c) == Product(a, Product(b, c))
  {
    forall i: nat, j: nat | i < a.rows && j < c.cols
      ensures Get(Product(Product(a, b), c), i, j) == Get(Product(a, Product(b, c)), i, j)
    {
      AssocEntry(a, b, c, i, j);
    }
    Ext(Product(Product(a, b), c), Product(a, Product(b, c)));
  }

  /** The term `a[i][l] * (b[l][k] * c[k][j])` of the triple sum, indexed by `(k, l)`. */
  function TripleTerm(a: Mat, b: Mat, c: Mat, i: nat, j: nat): (nat, nat) -> real
  {
    (k: nat, l: nat) =>
      if i < a.rows && l < a.cols && l < b.rows && k < b.cols && k < c.rows && j < c.cols
      then Get(a, i, l) * (Get(b, l, k) * Get(c, k, j)) else 0.0
  }

  lemma AssocEntry(a: Mat, b: Mat, c: Mat, i: nat, j: nat)
    requires a.cols == b.rows && b.cols == c.rows && i < a.rows && j < c.cols
    ensures Dot(Product(a, b), c, i, j) == Dot(a, Product(b, c), i, j)
  {
    AssocLeft(a, b, c, i, j);
    AssocRight(a, b, c, i, j);
    SumSwap(b.cols, a.cols, TripleTerm(a, b, c, i, j));
  }

  /** `(a*b)[i][j']` times `c[j'][j]`, summed over `j'`, is the triple sum with `k` outside. */
  lemma AssocLeft(a: Mat, b: Mat, c: Mat, i: nat, j: nat)
    requires a.cols == b.rows && b.cols == c.rows && i < a.rows && j < c.cols
    ensures Dot(Product(a, b), c, i, j) == Sum(b.cols, RowSums(a.cols, TripleTerm(a, b, c, i, j)))
  {
    forall k: nat | k < b.cols
      ensures Terms(Product(a, b), c, i, j)(k) == RowSums(a.cols, TripleTerm(a, b, c, i, j))(k)
    {
      AssocLeftTerm(a, b, c, i, j, k);
    }
    SumExt(b.cols, Terms(Product(a, b), c, i, j), RowSums(a.cols, TripleTerm(a, b, c, i, j)));
  }

  lemma AssocLeftTerm(a: Mat, b: Mat, c: Mat, i: nat, j: nat, k: nat)
    requires a.cols == b.rows && b.cols == c.rows && i < a.rows && j < c.cols && k < b.cols
    ensures Terms(Product(a, b), c, i, j)(k) == Sum(a.cols, Across(TripleTerm(a, b, c, i, j), k))
  {
    TripleRowSum(a, b, c, i, j, k);
    ProductTermLeft(a, b, c, i, j, k);
  }

  /** Row `k` of the triple sum is `c[k][j]` times the terms of `(a*b)[i][k]`. */
  lemma TripleRowSum(a: Mat, b: Mat, c: Mat, i: nat, j: nat, k: nat)
    requires a.cols == b.rows && b.cols == c.rows && i < a.rows && j < c.cols && k < b.cols
    ensures Sum(a.cols, Across(TripleTerm(a, b, c, i, j), k)) == Get(c, k, j) * Dot(a, b, i, k)
  {
    TripleRow(a, b, c, i, j, k);
    SumScaleAt(a.cols, Get(c, k, j), Terms(a, b, i, k), Across(TripleTerm(a, b, c, i, j), k),
               Get(c, k, j) * Dot(a, b, i, k), Dot(a, b, i, k));
  }

  lemma TripleRow(a: Mat, b: Mat, c: Mat, i: nat, j: nat, k: nat)
    requires a.cols == b.rows && b.cols == c.rows && i < a.rows && j < c.cols && k < b.cols
    ensures forall l: nat :: l < a.cols ==> Across(TripleTerm(a, b, c, i, j), k)(l) == Get(c, k, j) * Terms(a, b, i, k)(l)
  {
    forall l: nat | l < a.cols
      ensures Across(TripleTerm(a, b, c, i, j), k)(l) == Get(c, k, j) * Terms(a, b, i, k)(l)
    {
      Rearrange(Get(a, i, l), Get(b, l, k), Get(c, k, j));
    }
  }

  lemma ProductTermLeft(a: Mat, b: Mat, c: Mat, i: nat, j: nat, k: nat)
    requires a.cols == b.rows && b.cols == c.rows && i < a.rows && j < c.cols && k < b.cols
    ensures Terms(Product(a, b), c, i, j)(k) == Get(c, k, j) * Dot(a, b, i, k)
  {
    var p := Product(a, b);
    assert Get(p, i, k) == Dot(a, b, i, k);
    assert Terms(p, c, i, j)(k) == Get(p, i, k) * Get(c, k, j);
    MulEq(Get(p, i, k), Dot(a, b, i, k), Get(c, k, j), Get(c, k, j));
  }

  /** `a[i][l]` times `(b*c)[l][j]`, summed over `l`, is the triple sum with `l` outside. */
  lemma AssocRight(a: Mat, b: Mat, c: Mat, i: nat, j: nat)
    requires a.cols == b.rows && b.cols == c.rows && i < a.rows && j < c.cols
    ensures Dot(a, Product(b, c), i, j) == Sum(a.cols, ColSums(b.cols, TripleTerm(a, b, c, i, j)))
  {
    forall l: nat | l < a.cols
      ensures Terms(a, Product(b, c), i, j)(l) == ColSums(b.cols, TripleTerm(a, b, c, i, j))(l)
    {
      AssocRightTerm(a, b, c, i, j, l);
    }
    SumExt(a.cols, Terms(a, Product(b, c), i, j), ColSums(b.cols, TripleTerm(a, b, c, i, j)));
  }

  lemma AssocRightTerm(a: Mat, b: Mat, c: Mat, i: nat, j: nat, l: nat)
    requires a.cols == b.rows && b.cols == c.rows && i < a.rows && j < c.cols && l < a.cols
    ensures Terms(a, Product(b, c), i, j)(l) == Sum(b.cols, Down(TripleTerm(a, b, c, i, j), l))
  {
    TripleColumnSum(a, b, c, i, j, l);
    ProductTermRight(a, b, c, i, j, l);
  }

  /** Column `l` of the triple sum is `a[i][l]` times the terms of `(b*c)[l][j]`. */
  lemma TripleColumnSum(a: Mat, b: Mat, c: Mat, i: nat, j: nat, l: nat)
    requires a.cols == b.rows && b.cols == c.rows && i < a.rows && j < c.cols && l < a.cols
    ensures Sum(b.cols, Down(TripleTerm(a, b, c, i, j), l)) == Get(a, i, l) * Dot(b, c, l, j)
  {
    TripleColumn(a, b, c, i, j, l);
    SumScaleAt(b.cols, Get(a, i, l), Terms(b, c, l, j), Down(TripleTerm(a, b, c, i, j), l),
               Get(a, i, l) * Dot(b, c, l, j), Dot(b, c, l, j));
  }

  lemma TripleColumn(a: Mat, b: Mat, c: Mat, i: nat, j: nat, l: nat)
    requires a.cols == b.rows && b.cols == c.rows && i < a.rows && j < c.cols && l < a.cols
    ensures forall k: nat :: k < b.cols ==> Down(TripleTerm(a, b, c, i, j), l)(k) == Get(a, i, l) * Terms(b, c, l, j)(k)
  {
  }

  lemma ProductTermRight(a: Mat, b: Mat, c: Mat, i: nat, j: nat, l: nat)
    requires a.cols == b.rows && b.cols == c.rows && i < a.rows && j < c.cols && l < a.cols
    ensures Terms(a, Product(b, c), i, j)(l) == Get(a, i, l) * Dot(b, c, l, j)
  {
    var p := Product(b, c);
    assert Get(p, l, j) == Dot(b, c, l, j);
    assert Terms(a, p, i, j)(l) == Get(a, i, l) * Get(p, l, j);
    MulEq(Get(a, i, l), Get(a, i, l), Get(p, l, j), Dot(b, c, l, j));
  }

  lemma Rearrange(x: real, y: real, z: real)
    ensures x * (y * z) == z * (x * y)
  {
  }

  // ---------------------------------------------------------------------------
  // The matrix record

  class Matrix {
    const rows: nat
    const cols: nat
    const data: array<real>

    /** The buffer has exactly one entry per row and column. */
    predicate Valid()
    {
      data.Length == rows * cols
    }

    /** The matrix value the buffer holds. */
    function Value(): (m: Mat)
      requires Valid()
      reads data
      ensures m.rows == rows && m.cols == cols && m.data == data[..]
    {
      MatVal(rows, cols, data[..])
    }

    constructor (rows: nat, cols: nat, data: array<real>)
      requires data.Length == rows * cols
      ensures this.rows == rows && this.cols == cols && this.data == data
      ensures Valid()
    {
      this.rows := rows;
      this.cols := cols;
      this.data := data;
    }
  }

  // ---------------------------------------------------------------------------
  // Routines of src/matrix.c

  /** make_matrix_garbage: a fresh `rows x cols` buffer with the allocator's contents. */
  method MakeMatrixGarbage(rows: nat, cols: nat, debug: bool) returns (m: Matrix, ghost mode: AllocMode)
    ensures m.Valid() && fresh(m.data)
    ensures debug ==> mode == Zeroed
    ensures m.Value() == Alloc(mode, rows, cols)
  {
    var d: array<real>;
    if debug {
      d := new real[rows * cols]((k: nat) => 0.0);
      mode := Zeroed;
    } else {
      d := new real[rows * cols];
      ghost var s := d[..];
      mode := Garbage((k: nat) => if k < |s| then s[k] else 0.0);
    }
    m := new Matrix(rows, cols, d);
    assert m.Value().data == Alloc(mode, rows, cols).data;
  }

  /** make_matrix: a fresh `rows x cols` matrix of zeros, whatever the allocation mode. */
  method MakeMatrix(rows: nat, cols: nat, debug: bool) returns (m: Matrix)
    ensures m.Valid() && fresh(m.data)
    ensures m.Value() == Zeros(rows, cols)
  {
    ghost var mode;
    m, mode := MakeMatrixGarbage(rows, cols, debug);
    forall k | 0 <= k < m.rows * m.cols {
      m.data[k] := 0.0;
    }
  }

  /** copy_matrix: a deep copy in a fresh buffer. */
  method CopyMatrix(m: Matrix, debug: bool) returns (c: Matrix)
    requires m.Valid()
    ensures c.Valid() && fresh(c.data)
    ensures c.Value() == m.Value()
  {
    ghost var mode;
    c, mode := MakeMatrixGarbage(m.rows, m.cols, debug);
    forall k | 0 <= k < m.rows * m.cols {
      c.data[k] := m.data[k];
    }
  }

  /** transpose_matrix: a fresh `cols x rows` matrix with `t[j][i] == m[i][j]`. */
  method TransposeMatrix(m: Matrix, debug: bool) returns (t: Matrix)
    requires m.Valid()
    ensures t.Valid() && fresh(t.data)
    ensures t.Value() == Transpose(m.Value())
  {
    ghost var mode;
    t, mode := MakeMatrixGarbage(m.cols, m.rows, debug);
    ghost var M := m.Value();
    ghost var T0 := t.Value();
    for i := 0 to m.rows
      invariant t.Valid() && t.data != m.data && m.Value() == M
      invariant TransposedUpTo(t.data[..], T0, M, mode, i, 0)
    {
      for j := 0 to m.cols
        invariant t.data != m.data && m.Value() == M
        invariant TransposedUpTo(t.data[..], T0, M, mode, i, j)
      {
        TransposeCell(m, t, M, T0, mode, i, j);
      }
      assert TransposedUpTo(t.data[..], T0, M, mode, i + 1, 0);
    }
    forall a: nat, b: nat | a < t.rows && b < t.cols
      ensures Get(t.Value(), a, b) == Get(Transpose(M), a, b)
    {
      FlatRowCol(T0, a, b);
      GetAt(t.Value(), a, b);
    }
    Ext(t.Value(), Transpose(M));
  }

  /**
   * The transpose buffer `s` holds `m[i'][j']` at `t[j'][i']` for the cells
   * `(i', j')` visited before `(i, j)` in row-major order, and the allocator's
   * value everywhere else.
   */
  ghost predicate TransposedUpTo(s: seq<real>, T0: Mat, M: Mat, mode: AllocMode, i: nat, j: nat)
    requires T0.rows == M.cols && T0.cols == M.rows
  {
    |s| == |T0.data| &&
    forall k :: 0 <= k < |s| ==>
      s[k] == if ColOf(T0, k) < i || (ColOf(T0, k) == i && RowOf(T0, k) < j)
              then Get(M, ColOf(T0, k), RowOf(T0, k)) else Fill(mode, k)
  }

  /** One assignment `t[j][i] := m[i][j]` of transpose_matrix. */
  method TransposeCell(m: Matrix, t: Matrix, ghost M: Mat, ghost T0: Mat, ghost mode: AllocMode, i: nat, j: nat)
    requires m.Valid() && t.Valid() && t.data != m.data && m.Value() == M
    requires T0.rows == t.rows == M.cols && T0.cols == t.cols == M.rows && i < M.rows && j < M.cols
    requires TransposedUpTo(t.data[..], T0, M, mode, i, j)
    modifies t.data
    ensures TransposedUpTo(t.data[..], T0, M, mode, i, j + 1)
  {
    FlatRowCol(T0, j, i);
    FlatRowCol(M, i, j);
    var dst: int := j * t.cols + i;
    var src: int := i * m.cols + j;
    forall k | 0 <= k < |T0.data|
      ensures ColOf(T0, k) == i && RowOf(T0, k) == j ==> k == dst
    {
      Unflatten(k, T0.rows, T0.cols);
    }
    t.data[dst] := m.data[src];
  }

  /**
   * The state of an elementwise loop that writes buffer `ys` (initially `Y`)
   * while reading buffer `xs` (initially `X`), which may be the same buffer
   * (`shared`): the first `k` entries of `ys` hold the result `Z`, and so do
   * those of `xs` when the buffers are shared.
   */
  ghost predicate InPlaceUpTo(ys: seq<real>, xs: seq<real>, X: seq<real>, Y: seq<real>, Z: seq<real>, shared: bool, k: nat)
  {
    && |ys| == |xs| == |X| == |Y| == |Z|
    && (forall q :: 0 <= q < |ys| ==> ys[q] == if q < k then Z[q] else Y[q])
    && (forall q :: 0 <= q < |xs| ==> xs[q] == if shared && q < k then Z[q] else X[q])
  }

  /** Writing the result at entry `k` extends the finished prefix by one entry. */
  lemma InPlaceStep(ys: seq<real>, xs: seq<real>, ys': seq<real>, xs': seq<real>,
                    X: seq<real>, Y: seq<real>, Z: seq<real>, shared: bool, k: nat)
    requires InPlaceUpTo(ys, xs, X, Y, Z, shared, k) && k < |ys| && (shared ==> xs == ys)
    requires ys' == ys[k := Z[k]] && xs' == if shared then ys' else xs
    ensures InPlaceUpTo(ys', xs', X, Y, Z, shared, k + 1)
  {
  }

  /** When every entry is done, `ys` holds the result and an unshared `xs` is untouched. */
  lemma InPlaceAll(ys: seq<real>, xs: seq<real>, X: seq<real>, Y: seq<real>, Z: seq<real>, shared: bool)
    requires InPlaceUpTo(ys, xs, X, Y, Z, shared, |ys|)
    ensures ys == Z && (!shared ==> xs == X)
  {
  }

  /** axpy_matrix: `y := a*x + y` in place; `x` is read only (and may be `y` itself). */
  method AxpyMatrix(a: real, x: Matrix, y: Matrix)
    requires x.Valid() && y.Valid()
    requires x.cols == y.cols && x.rows == y.rows
    modifies y.data
    ensures y.Value() == Axpy(a, old(x.Value()), old(y.Value()))
    ensures x.data != y.data ==> x.Value() == old(x.Value())
  {
    ghost var X, Y := x.Value(), y.Value();
    ghost var Z := Axpy(a, X, Y).data;
    var n := y.data.Length;
    for i := 0 to n
      invariant InPlaceUpTo(y.data[..], x.data[..], X.data, Y.data, Z, x.data == y.data, i)
    {
      AxpyCell(a, x, y, X, Y, i);
    }
    InPlaceAll(y.data[..], x.data[..], X.data, Y.data, Z, x.data == y.data);
  }

  /** The body of axpy_matrix's loop: `y[i] += a*x[i]`. */
  method AxpyCell(a: real, x: Matrix, y: Matrix, ghost X: Mat, ghost Y: Mat, i: nat)
    requires x.Valid() && y.Valid() && X.rows == Y.rows && X.cols == Y.cols && i < y.data.Length
    requires InPlaceUpTo(y.data[..], x.data[..], X.data, Y.data, Axpy(a, X, Y).data, x.data == y.data, i)
    modifies y.data
    ensures InPlaceUpTo(y.data[..], x.data[..], X.data, Y.data, Axpy(a, X, Y).data, x.data == y.data, i + 1)
  {
    ghost var ys, xs := y.data[..], x.data[..];
    assert ys[i] == Y.data[i] && xs[i] == X.data[i];
    var xi := x.data[i];
    MulEq(a, a, xi, X.data[i]);
    ghost var v := y.data[i] + a * xi;
    assert v == Axpy(a, X, Y).data[i];
    y.data[i] := y.data[i] + a * xi;
    assert y.data[..] == ys[i := v];
    assert x.data[..] == if x.data == y.data then y.data[..] else xs;
    InPlaceStep(ys, xs, y.data[..], x.data[..], X.data, Y.data, Axpy(a, X, Y).data, x.data == y.data, i);
  }

  /** scal_matrix: `m := s*m` in place. */
  method ScalMatrix(s: real, m: Matrix)
    requires m.Valid()
    modifies m.data
    ensures m.Value() == Scale(s, old(m.Value()))
  {
    ghost var M := m.Value();
    var n := m.data.Length;
    for i := 0 to n
      invariant forall k :: 0 <= k < i ==> m.data[k] == M.data[k] * s
      invariant forall k :: i <= k < n ==> m.data[k] == M.data[k]
    {
      var mi := m.data[i];
      MulEq(mi, M.data[i], s, s);
      m.data[i] := mi * s;
    }
    ScaleIs(s, M, m.data[..]);
  }

  lemma ScaleIs(s: real, M: Mat, t: seq<real>)
    requires |t| == |M.data|
    requires forall k :: 0 <= k < |t| ==> t[k] == M.data[k] * s
    ensures t == Scale(s, M).data
  {
  }

  /** The loop `for j in [from, to): row[j] /= val` over the row starting at offset `base`. */
  method DivideRow(a: array<real>, base: nat, from: nat, to: nat, val: real)
    requires from <= to && base + to <= a.Length && (from < to ==> val != 0.0)
    modifies a
    ensures forall q :: 0 <= q < a.Length && (q < base + from || base + to <= q) ==> a[q] == old(a[q])
    ensures forall q :: base + from <= q < base + to ==> a[q] == old(a[q]) / val
  {
    for j := from to to
      invariant forall q :: 0 <= q < a.Length && (q < base + from || base + j <= q) ==> a[q] == old(a[q])
      invariant forall q :: base + from <= q < base + j ==> a[q] == old(a[q]) / val
    {
      a[base + j] := a[base + j] / val;
    }
  }

  /** One multiply-add of matmul's inner loop: `x` is `a[i][kk]`, `y` is `b[kk][j]` read through its transpose. */
  lemma MatMulStep(A: Mat, B: Mat, BT: Mat, i: nat, j: nat, kk: nat, x: real, y: real)
    requires A.cols == B.rows && BT == Transpose(B)
    requires i < A.rows && j < B.cols && kk < A.cols
    requires x == Get(A, i, kk) && y == Get(BT, j, kk)
    ensures Sum(kk + 1, Terms(A, B, i, j)) == Sum(kk, Terms(A, B, i, j)) + x * y
  {
    assert y == Get(B, kk, j);
    SumStep(Terms(A, B, i, j), kk, x * y);
  }

  /**
   * The innermost loop of matmul for one entry `(i, j)`: adds
   * `sum_k a[i][k] * b[k][j]` to `c[i][j]`, reading `b` through its transpose `bt`.
   */
  method AccumulateEntry(a: Matrix, bt: Matrix, ghost B: Mat, c: Matrix, i: nat, j: nat)
    requires a.Valid() && bt.Valid() && c.Valid()
    requires bt.Value() == Transpose(B) && a.cols == B.rows
    requires c.rows == a.rows && c.cols == B.cols && i < c.rows && j < c.cols
    requires c.data != a.data && c.data != bt.data
    modifies c.data
    ensures i * c.cols + j < c.data.Length
    ensures c.data[i * c.cols + j] == old(c.data[i * c.cols + j]) + Dot(a.Value(), B, i, j)
    ensures forall k :: 0 <= k < c.data.Length && k != i * c.cols + j ==> c.data[k] == old(c.data[k])
  {
    ghost var A, BT := a.Value(), bt.Value();
    FlatBound(i, j, c.rows, c.cols);
    var idx := i * c.cols + j;
    ghost var c0 := c.data[idx];
    for kk := 0 to bt.cols
      invariant c.data[idx] == c0 + Sum(kk, Terms(A, B, i, j))
      invariant forall k :: 0 <= k < c.data.Length && k != idx ==> c.data[k] == old(c.data[k])
    {
      GetAt(A, i, kk);
      GetAt(BT, j, kk);
      var x, y := a.data[i * a.cols + kk], bt.data[j * bt.cols + kk];
      MatMulStep(A, B, BT, i, j, kk, x, y);
      c.data[idx] := c.data[idx] + x * y;
    }
  }

  /**
   * matmul: accumulates `a[i][k] * b[k][j]` with `+=` into a buffer from
   * make_matrix_garbage, so each entry is the allocator's initial value plus
   * the product entry; only a zeroed allocation yields the product itself.
   */
  method MatMul(a: Matrix, b: Matrix, debug: bool) returns (c: Matrix, ghost mode: AllocMode)
    requires a.Valid() && b.Valid()
    requires a.cols == b.rows
    ensures c.Valid() && fresh(c.data)
    ensures debug ==> mode == Zeroed
    ensures c.Value() == Add(Alloc(mode, a.rows, b.cols), Product(a.Value(), b.Value()))
  {
    c, mode := MakeMatrixGarbage(a.rows, b.cols, debug);
    var bt := TransposeMatrix(b, debug);
    ghost var A, B := a.Value(), b.Value();
    ghost var C0 := c.Value();
    for i := 0 to a.rows
      modifies c.data
      invariant ProductUpTo(c.data[..], C0, A, B, mode, i * c.cols)
    {
      var base: int := i * c.cols;
      for j := 0 to bt.rows
        modifies c.data
        invariant ProductUpTo(c.data[..], C0, A, B, mode, base + j)
      {
        ghost var before := c.data[..];
        AccumulateEntry(a, bt, B, c, i, j);
        ProductStep(before, c.data[..], C0, A, B, mode, i, j);
      }
      assert base + c.cols == (i + 1) * c.cols;
    }
    MatMulResult(A, B, mode, C0, c.Value());
  }

  /**
   * The buffer `s` holds the allocator's value plus the product entry at the
   * flat offsets below `lim`, and the allocator's value above.
   */
  ghost predicate ProductUpTo(s: seq<real>, C0: Mat, A: Mat, B: Mat, mode: AllocMode, lim: int)
  {
    |s| == |C0.data| &&
    forall k :: 0 <= k < |s| ==>
      s[k] == if k < lim then Fill(mode, k) + Dot(A, B, RowOf(C0, k), ColOf(C0, k)) else Fill(mode, k)
  }

  /** Accumulating entry `(i, j)` extends the filled prefix by one offset. */
  lemma ProductStep(s: seq<real>, s': seq<real>, C0: Mat, A: Mat, B: Mat, mode: AllocMode, i: nat, j: nat)
    requires i < C0.rows && j < C0.cols
    requires ProductUpTo(s, C0, A, B, mode, i * C0.cols + j) && |s'| == |s| && i * C0.cols + j < |s|
    requires s'[i * C0.cols + j] == s[i * C0.cols + j] + Dot(A, B, i, j)
    requires forall k :: 0 <= k < |s| && k != i * C0.cols + j ==> s'[k] == s[k]
    ensures ProductUpTo(s', C0, A, B, mode, i * C0.cols + j + 1)
  {
    var idx: int := i * C0.cols + j;
    FlatRowCol(C0, i, j);
    forall k | 0 <= k < |s'|
      ensures s'[k] == if k < idx + 1 then Fill(mode, k) + Dot(A, B, RowOf(C0, k), ColOf(C0, k)) else Fill(mode, k)
    {
      if k != idx {
        assert s'[k] == s[k];
      }
    }
  }

  /** A buffer holding the allocator's value plus `Dot(A, B, i, j)` at every flat offset is that sum. */
  lemma MatMulResult(A: Mat, B: Mat, mode: AllocMode, C0: Mat, C: Mat)
    requires A.cols == B.rows && C0.rows == C.rows == A.rows && C0.cols == C.cols == B.cols
    requires ProductUpTo(C.data, C0, A, B, mode, A.rows * B.cols)
    ensures C == Add(Alloc(mode, A.rows, B.cols), Product(A, B))
  {
    var R := Add(Alloc(mode, A.rows, B.cols), Product(A, B));
    forall p: nat, q: nat | p < C.rows && q < C.cols
      ensures Get(C, p, q) == Get(R, p, q)
    {
      MatMulEntry(A, B, mode, C0, C, p, q);
    }
    Ext(C, R);
  }

  lemma MatMulEntry(A: Mat, B: Mat, mode: AllocMode, C0: Mat, C: Mat, p: nat, q: nat)
    requires A.cols == B.rows && C0.rows == C.rows == A.rows && C0.cols == C.cols == B.cols
    requires ProductUpTo(C.data, C0, A, B, mode, A.rows * B.cols) && p < C.rows && q < C.cols
    ensures Get(C, p, q) == Get(Add(Alloc(mode, A.rows, B.cols), Product(A, B)), p, q)
  {
    var at: int := p * C0.cols + q;
    FlatRowCol(C0, p, q);
    GetAtOffset(C, p, q, at);
    GetAtOffset(Add(Alloc(mode, A.rows, B.cols), Product(A, B)), p, q, at);
    GetAtOffset(Product(A, B), p, q, at);
  }

  /**
   * matmul's `+=` into an uninitialised buffer yields the product exactly when
   * every cell of that buffer happens to hold 0.
   */
  lemma MatMulExactIffZeroFill(a: Mat, b: Mat, junk: nat -> real)
    requires a.cols == b.rows
    ensures Add(Alloc(Garbage(junk), a.rows, b.cols), Product(a, b)) == Product(a, b)
        <==> forall k: nat :: k < a.rows * b.cols ==> junk(k) == 0.0
  {
    var p := Product(a, b);
    var r := Add(Alloc(Garbage(junk), a.rows, b.cols), p);
    if r == p {
      forall k: nat | k < a.rows * b.cols
        ensures junk(k) == 0.0
      {
        assert r.data[k] == junk(k) + p.data[k];
      }
    }
    if forall k: nat :: k < a.rows * b.cols ==> junk(k) == 0.0 {
      assert forall k :: 0 <= k < |p.data| ==> r.data[k] == p.data[k];
      assert r.data == p.data;
    }
  }
}
