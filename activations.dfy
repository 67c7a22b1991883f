/**
 * The activation functions of src/activations.c, applied in place to every
 * entry of a matrix, and the gradient multipliers applied to a delta matrix.
 * `exp` is a parameter: any function with positive values.
 */
module Activations {
  import opened Arith
  import opened Sums
  import opened Matrices

  datatype Activation = Linear | Logistic | Relu | Lrelu | Softmax

  /** The leaky ReLU slope for non-positive inputs (`ALPHA`). */
  const Alpha: real := 0.1

  /** What the source requires of `exp`: every value is positive. */
  ghost predicate Positive(exp: real -> real)
  {
    forall x: real :: exp(x) > 0.0
  }

  /**
   * The value the first pass of activate_matrix writes for input `x`: the
   * activation itself, except for SOFTMAX, whose first pass writes `exp(x)`.
   * LINEAR has no branch and keeps `x`.
   */
  function FirstPass(a: Activation, exp: real -> real, x: real): (y: real)
    requires Positive(exp)
  {
    match a
    case Linear => x
    case Logistic => assert exp(-x) > 0.0; 1.0 / (1.0 + exp(-x))
    case Relu => if x > 0.0 then x else 0.0
    case Lrelu => if x > 0.0 then x else Alpha * x
    case Softmax => exp(x)
  }

  /** `exp` of the entries of row `i` of `m`, the terms of the softmax denominator. */
  function RowExps(exp: real -> real, m: Mat, i: nat): nat -> real
  {
    (k: nat) => if i < m.rows && k < m.cols then exp(Get(m, i, k)) else 0.0
  }

  /** The softmax denominator of row `i`. */
  function RowExpSum(exp: real -> real, m: Mat, i: nat): real
  {
    Sum(m.cols, RowExps(exp, m, i))
  }

  /** A row with at least one entry has a positive softmax denominator. */
  lemma RowExpSumPositive(exp: real -> real, m: Mat, i: nat)
    requires Positive(exp) && i < m.rows && m.cols > 0
    ensures RowExpSum(exp, m, i) > 0.0
  {
    SumPositive(m.cols, RowExps(exp, m, i));
  }

  /** Entry `(i, j)` of activate_matrix's result. */
  function ActivatedAt(a: Activation, exp: real -> real, m: Mat, i: nat, j: nat): real
    requires Positive(exp) && i < m.rows && j < m.cols
  {
    if a == Softmax then
      RowExpSumPositive(exp, m, i);
      exp(Get(m, i, j)) / RowExpSum(exp, m, i)
    else FirstPass(a, exp, Get(m, i, j))
  }

  /** The matrix activate_matrix leaves behind. */
  ghost function Activated(a: Activation, exp: real -> real, m: Mat): (r: Mat)
    requires Positive(exp)
    ensures r.rows == m.rows && r.cols == m.cols
    ensures forall i: nat, j: nat :: i < m.rows && j < m.cols ==> Get(r, i, j) == ActivatedAt(a, exp, m, i, j)
  {
    Build(m.rows, m.cols, (i: nat, j: nat) => if i < m.rows && j < m.cols then ActivatedAt(a, exp, m, i, j) else 0.0)
  }

  // ---------------------------------------------------------------------------
  // activate_matrix

  /** activate_matrix (lines 11-37): every row transformed in place. */
  method ActivateMatrix(m: Matrix, a: Activation, exp: real -> real)
    requires m.Valid() && Positive(exp)
    modifies m.data
    ensures m.Value() == Activated(a, exp, old(m.Value()))
  {
    ghost var M := m.Value();
    ghost var R := Activated(a, exp, M);
    for i := 0 to m.rows
      invariant forall q :: 0 <= q < |M.data| ==> m.data[q] == if q < i * m.cols then R.data[q] else M.data[q]
    {
      MulMono(i + 1, m.rows, m.cols);
      ActivateRow(m, a, exp, i, M);
      assert (i + 1) * m.cols == i * m.cols + m.cols;
    }
    assert |m.data[..]| == |R.data|;
    assert forall q :: 0 <= q < |R.data| ==> m.data[..][q] == R.data[q];
    assert m.data[..] == R.data;
  }

  /**
   * The body of the row loop: the first pass writes `FirstPass(x)` and, for
   * SOFTMAX, adds up the exponentials; the second pass divides by that sum.
   */
  method ActivateRow(m: Matrix, a: Activation, exp: real -> real, i: nat, ghost M: Mat)
    requires m.Valid() && Positive(exp) && M.rows == m.rows && M.cols == m.cols && i < m.rows
    requires i * m.cols + m.cols <= m.data.Length
    requires forall q :: i * m.cols <= q < i * m.cols + m.cols ==> m.data[q] == M.data[q]
    modifies m.data
    ensures forall q :: i * m.cols <= q < i * m.cols + m.cols ==> m.data[q] == Activated(a, exp, M).data[q]
    ensures forall q :: 0 <= q < m.data.Length && (q < i * m.cols || i * m.cols + m.cols <= q) ==> m.data[q] == old(m.data[q])
  {
    var base := i * m.cols;
    var sum := FirstPassRow(m.data, base, m.cols, a, exp, M, i);
    if a == Softmax {
      if m.cols > 0 {
        RowExpSumPositive(exp, M, i);
      }
      DivideRow(m.data, base, 0, m.cols, sum);
    }
    ActivateRowResult(a, exp, M, i, old(m.data[..]), m.data[..], sum);
  }

  /**
   * The first pass over the `w` entries of row `i` starting at offset `base`:
   * each entry becomes `FirstPass` of itself, and for SOFTMAX the returned
   * `sum` is the row's softmax denominator.
   */
  method FirstPassRow(d: array<real>, base: nat, w: nat, a: Activation, exp: real -> real, ghost M: Mat, ghost i: nat)
      returns (sum: real)
    requires Positive(exp) && i < M.rows && w == M.cols && base == i * M.cols
    requires base + w <= d.Length && base + w <= |M.data|
    requires forall q :: base <= q < base + w ==> d[q] == M.data[q]
    modifies d
    ensures forall q :: base <= q < base + w ==> d[q] == FirstPass(a, exp, M.data[q])
    ensures forall q :: 0 <= q < d.Length && (q < base || base + w <= q) ==> d[q] == old(d[q])
    ensures a == Softmax ==> sum == RowExpSum(exp, M, i)
  {
    sum := 0.0;
    ghost var d0 := d[..];
    for j := 0 to w
      invariant FirstPassUpTo(d[..], d0, M.data, a, exp, base, j)
      invariant a == Softmax ==> sum == Sum(j, RowExps(exp, M, i))
    {
      GetAt(M, i, j);
      if a == Softmax {
        SumStep(RowExps(exp, M, i), j, exp(M.data[base + j]));
      }
      ghost var before := d[..];
      sum := FirstPassCell(d, base + j, a, exp, M.data[base + j], sum);
      FirstPassStep(before, d[..], d0, M.data, a, exp, base, j);
    }
  }

  /** The buffer `s` once the first pass has visited offsets `base .. base + j` of the original `d0`. */
  ghost predicate FirstPassUpTo(s: seq<real>, d0: seq<real>, md: seq<real>, a: Activation, exp: real -> real, base: nat, j: nat)
    requires Positive(exp)
  {
    && |s| == |d0| && base + j <= |md|
    && forall q :: 0 <= q < |s| ==> s[q] == if base <= q < base + j then FirstPass(a, exp, md[q]) else d0[q]
  }

  /** One more entry of the first pass. */
  lemma FirstPassStep(s: seq<real>, s': seq<real>, d0: seq<real>, md: seq<real>, a: Activation, exp: real -> real,
                      base: nat, j: nat)
    requires Positive(exp) && FirstPassUpTo(s, d0, md, a, exp, base, j) && base + j < |s| && base + j < |md|
    requires s' == s[base + j := FirstPass(a, exp, md[base + j])]
    ensures FirstPassUpTo(s', d0, md, a, exp, base, j + 1)
  {
  }

  /**
   * The body of the first pass at offset `at`, holding `v`: the activation
   * written back, and for SOFTMAX `exp(v)` written and added to `sum`.
   */
  method FirstPassCell(d: array<real>, at: nat, a: Activation, exp: real -> real, ghost v: real, sum: real)
      returns (sum': real)
    requires Positive(exp) && at < d.Length && d[at] == v
    modifies d
    ensures d[..] == old(d[..])[at := FirstPass(a, exp, v)]
    ensures sum' == if a == Softmax then sum + exp(v) else sum
  {
    sum' := sum;
    var x := d[at];
    if a == Logistic {
      assert exp(-x) > 0.0;
      d[at] := 1.0 / (1.0 + exp(-x));
    } else if a == Relu {
      d[at] := if x > 0.0 then x else 0.0;
    } else if a == Lrelu {
      d[at] := if x > 0.0 then x else Alpha * x;
    } else if a == Softmax {
      var xExp := exp(x);
      sum' := sum + xExp;
      d[at] := xExp;
    }
  }

  /** The row written by the two passes agrees with `Activated`. */
  lemma ActivateRowResult(a: Activation, exp: real -> real, M: Mat, i: nat, d0: seq<real>, d: seq<real>, sum: real)
    requires Positive(exp) && i < M.rows && |d| == |d0| == |M.data| && i * M.cols + M.cols <= |M.data|
    requires a == Softmax ==> sum == RowExpSum(exp, M, i)
    requires a != Softmax ==> forall q :: i * M.cols <= q < i * M.cols + M.cols ==> d[q] == FirstPass(a, exp, M.data[q])
    requires a == Softmax && M.cols > 0 ==> sum > 0.0 && forall q :: i * M.cols <= q < i * M.cols + M.cols ==> d[q] == exp(M.data[q]) / sum
    ensures forall q :: i * M.cols <= q < i * M.cols + M.cols ==> d[q] == Activated(a, exp, M).data[q]
  {
    var R := Activated(a, exp, M);
    forall q | i * M.cols <= q < i * M.cols + M.cols
      ensures d[q] == R.data[q]
    {
      var j := q - i * M.cols;
      assert q == i * M.cols + j;
      GetAt(R, i, j);
      GetAt(M, i, j);
    }
  }

  // ---------------------------------------------------------------------------
  // gradient_matrix

  /** The factor gradient_matrix multiplies into the delta at activated value `x`. */
  function Multiplier(a: Activation, x: real): real
  {
    match a
    case Linear => 1.0
    case Softmax => 1.0
    case Logistic => x * (1.0 - x)
    case Relu => if x > 0.0 then 1.0 else 0.0
    case Lrelu => if x > 0.0 then 1.0 else Alpha
  }

  /** The delta after gradient_matrix: each entry times the multiplier at the same entry of `m`. */
  function Gradient(a: Activation, m: Mat, d: Mat): (r: Mat)
    requires m.rows == d.rows && m.cols == d.cols
    ensures r.rows == d.rows && r.cols == d.cols
    ensures forall q :: 0 <= q < |r.data| ==> r.data[q] == d.data[q] * Multiplier(a, m.data[q])
  {
    MatVal(d.rows, d.cols, seq(|d.data|, (q: int) requires 0 <= q < |d.data| => d.data[q] * Multiplier(a, m.data[q])))
  }

  /**
   * gradient_matrix (lines 44-67): `d` is multiplied in place; `m` is only
   * read.  Each entry of `m` is read before the same entry of `d` is written,
   * so the result is the same when `m` and `d` share a buffer.
   */
  method GradientMatrix(m: Matrix, a: Activation, d: Matrix)
    requires m.Valid() && d.Valid() && m.rows == d.rows && m.cols == d.cols
    modifies d.data
    ensures d.Value() == Gradient(a, old(m.Value()), old(d.Value()))
    ensures m.data != d.data ==> m.data[..] == old(m.data[..])
  {
    ghost var M, D := m.Value(), d.Value();
    ghost var G := Gradient(a, M, D);
    for i := 0 to m.rows
      invariant InPlaceUpTo(d.data[..], m.data[..], M.data, D.data, G.data, m.data == d.data, i * m.cols)
    {
      for j := 0 to m.cols
        invariant InPlaceUpTo(d.data[..], m.data[..], M.data, D.data, G.data, m.data == d.data, i * m.cols + j)
      {
        GradientCell(m, a, d, M, D, G, i, j);
      }
      assert i * m.cols + m.cols == (i + 1) * m.cols;
    }
    InPlaceAll(d.data[..], m.data[..], M.data, D.data, G.data, m.data == d.data);
  }

  /** The body of gradient_matrix's inner loop, at entry `(i, j)`. */
  method GradientCell(m: Matrix, a: Activation, d: Matrix, ghost M: Mat, ghost D: Mat, ghost G: Mat, i: nat, j: nat)
    requires m.Valid() && d.Valid() && m.rows == d.rows && m.cols == d.cols && i < m.rows && j < m.cols
    requires M.rows == D.rows == m.rows && M.cols == D.cols == m.cols && G == Gradient(a, M, D)
    requires InPlaceUpTo(d.data[..], m.data[..], M.data, D.data, G.data, m.data == d.data, i * m.cols + j)
    modifies d.data
    ensures InPlaceUpTo(d.data[..], m.data[..], M.data, D.data, G.data, m.data == d.data, i * m.cols + j + 1)
  {
    FlatBound(i, j, m.rows, m.cols);
    var at: int := i * m.cols + j;
    ghost var dd, md := d.data[..], m.data[..];
    assert dd[at] == D.data[at] && md[at] == M.data[at];
    var x := GradientFactor(a, m.data[at]);
    MulEq(d.data[at], D.data[at], x, Multiplier(a, M.data[at]));
    assert G.data[at] == D.data[at] * Multiplier(a, M.data[at]);
    ghost var v := d.data[at] * x;
    d.data[at] := d.data[at] * x;
    assert d.data[..] == dd[at := v];
    assert v == G.data[at];
    assert m.data[..] == if m.data == d.data then d.data[..] else md;
    InPlaceStep(dd, md, d.data[..], m.data[..], M.data, D.data, G.data, m.data == d.data, at);
  }

  /** The factor computed in the inner loop of gradient_matrix (lines 51-63) from the activated value `v`. */
  method GradientFactor(a: Activation, v: real) returns (x: real)
    ensures x == Multiplier(a, v)
  {
    x := v;
    if a == Linear || a == Softmax {
      x := 1.0;
    }
    if a == Logistic {
      x := x * (1.0 - x);
    } else if a == Relu {
      x := if x > 0.0 then 1.0 else 0.0;
    } else if a == Lrelu {
      x := if x > 0.0 then 1.0 else Alpha;
    }
  }

  // ---------------------------------------------------------------------------
  // Properties

  /** LINEAR leaves the matrix as it is. */
  lemma LinearUnchanged(exp: real -> real, m: Mat)
    requires Positive(exp)
    ensures Activated(Linear, exp, m) == m
  {
    Ext(Activated(Linear, exp, m), m);
  }

  /** ReLU results are non-negative and agree with the input where it is positive. */
  lemma ReluRange(exp: real -> real, m: Mat)
    requires Positive(exp)
    ensures forall i: nat, j: nat :: i < m.rows && j < m.cols ==>
      Get(Activated(Relu, exp, m), i, j) >= 0.0
      && (Get(m, i, j) > 0.0 <==> Get(Activated(Relu, exp, m), i, j) == Get(m, i, j) != 0.0)
  {
  }

  /** Applying ReLU twice is applying it once. */
  lemma ReluIdempotent(exp: real -> real, m: Mat)
    requires Positive(exp)
    ensures Activated(Relu, exp, Activated(Relu, exp, m)) == Activated(Relu, exp, m)
  {
    var r := Activated(Relu, exp, m);
    Ext(Activated(Relu, exp, r), r);
  }

  /** Leaky ReLU is the identity on positive entries and scales the others by `Alpha`. */
  lemma LreluEntries(exp: real -> real, m: Mat)
    requires Positive(exp)
    ensures forall i: nat, j: nat :: i < m.rows && j < m.cols ==>
      Get(Activated(Lrelu, exp, m), i, j) == (if Get(m, i, j) > 0.0 then Get(m, i, j) else Alpha * Get(m, i, j))
  {
  }

  /** Leaky ReLU keeps the sign of every entry, so it never turns a non-positive entry positive. */
  lemma LreluKeepsSign(exp: real -> real, m: Mat)
    requires Positive(exp)
    ensures forall i: nat, j: nat :: i < m.rows && j < m.cols ==>
      (Get(Activated(Lrelu, exp, m), i, j) > 0.0 <==> Get(m, i, j) > 0.0)
  {
  }

  /** The logistic function maps into the open interval `(0, 1)`. */
  lemma LogisticRange(exp: real -> real, m: Mat)
    requires Positive(exp)
    ensures forall i: nat, j: nat :: i < m.rows && j < m.cols ==>
      0.0 < Get(Activated(Logistic, exp, m), i, j) < 1.0
  {
    forall i: nat, j: nat | i < m.rows && j < m.cols
      ensures 0.0 < Get(Activated(Logistic, exp, m), i, j) < 1.0
    {
      var e := exp(-Get(m, i, j));
      assert e > 0.0;
      assert Get(Activated(Logistic, exp, m), i, j) == 1.0 / (1.0 + e);
      InverseBelowOne(1.0 + e);
    }
  }

  lemma InverseBelowOne(y: real)
    requires y > 1.0
    ensures 0.0 < 1.0 / y < 1.0
  {
  }

  /** Softmax entries are positive. */
  lemma SoftmaxPositive(exp: real -> real, m: Mat)
    requires Positive(exp)
    ensures forall i: nat, j: nat :: i < m.rows && j < m.cols ==> Get(Activated(Softmax, exp, m), i, j) > 0.0
  {
    forall i: nat, j: nat | i < m.rows && j < m.cols
      ensures Get(Activated(Softmax, exp, m), i, j) > 0.0
    {
      RowExpSumPositive(exp, m, i);
      assert exp(Get(m, i, j)) > 0.0;
    }
  }

  /** Every row of a softmax result adds up to 1. */
  lemma SoftmaxRowSum(exp: real -> real, m: Mat, i: nat)
    requires Positive(exp) && i < m.rows && m.cols > 0
    ensures Sum(m.cols, (j: nat) => if j < m.cols then Get(Activated(Softmax, exp, m), i, j) else 0.0) == 1.0
  {
    var r := Activated(Softmax, exp, m);
    var s := RowExpSum(exp, m, i);
    RowExpSumPositive(exp, m, i);
    SumScaleAt(m.cols, 1.0 / s, RowExps(exp, m, i), (j: nat) => if j < m.cols then Get(r, i, j) else 0.0,
               (1.0 / s) * s, s);
  }

  /** The multiplier is 1 for LINEAR and SOFTMAX whatever the activated value. */
  lemma MultiplierConstant(x: real)
    ensures Multiplier(Linear, x) == 1.0 && Multiplier(Softmax, x) == 1.0
  {
  }

  /**
   * At an activated value, the ReLU and leaky ReLU multipliers are the slopes
   * of those functions at the input (taking the left slope at 0), and the
   * logistic multiplier is `y * (1 - y)`, the derivative expressed in `y`.
   */
  lemma MultiplierIsSlope(exp: real -> real, x: real)
    requires Positive(exp)
    ensures Multiplier(Relu, FirstPass(Relu, exp, x)) == (if x > 0.0 then 1.0 else 0.0)
    ensures Multiplier(Lrelu, FirstPass(Lrelu, exp, x)) == (if x > 0.0 then 1.0 else Alpha)
    ensures Multiplier(Logistic, FirstPass(Logistic, exp, x)) == FirstPass(Logistic, exp, x) * (1.0 - FirstPass(Logistic, exp, x))
  {
  }
}
