/** Integer facts shared by the row-major index arithmetic of every other module. */
module Arith {

  /** C's `/` on `int`: the quotient truncated toward zero (Dafny's `/` is Euclidean). */
  function CDiv(a: int, b: int): (q: int)
    requires b != 0
    ensures a >= 0 && b > 0 ==> q == a / b
    ensures a <= 0 && b > 0 ==> q == -((-a) / b)
  {
    var m := (if a < 0 then -a else a) / (if b < 0 then -b else b);
    if (a < 0) == (b < 0) then m else -m
  }

  /** A row-major offset `q*d + r` splits back into quotient `q` and remainder `r`. */
  lemma DivMod(q: int, r: int, d: int)
    requires d > 0 && 0 <= r < d
    ensures (q * d + r) / d == q && (q * d + r) % d == r
  {
    var k := q * d + r;
    var q', r' := k / d, k % d;
    assert k == q' * d + r' && 0 <= r' < d;
    assert (q - q') * d == r' - r;
    if q > q' {
      assert (q - q') * d >= d by { MulMono(1, q - q', d); }
    } else if q < q' {
      assert (q' - q) * d >= d by { MulMono(1, q' - q, d); }
    }
  }

  /** A non-negative dividend has a non-negative quotient. */
  lemma DivNonNeg(a: int, d: int)
    requires a >= 0 && d > 0
    ensures a / d >= 0
  {
  }

  /** Multiplication by a non-negative factor is monotone. */
  lemma MulMono(a: int, b: int, d: int)
    requires a <= b && d >= 0
    ensures a * d <= b * d
  {
    assert b * d - a * d == (b - a) * d;
  }

  /** Multiplication distributes over a sum of two row counts. */
  lemma MulSplit(a: int, b: int, d: int)
    ensures (a + b) * d == a * d + b * d
  {
  }

  /** The entry `(i, j)` of an `r x c` row-major buffer lies inside it. */
  lemma FlatBound(i: int, j: int, r: int, c: int)
    requires 0 <= i < r && 0 <= j < c
    ensures 0 <= i * c + j < r * c
  {
    MulMono(i + 1, r, c);
    MulMono(0, i, c);
  }

  /** Every flat index of an `r x c` buffer is the offset of one row and column. */
  lemma Unflatten(k: int, r: nat, c: nat)
    requires 0 <= k < r * c
    ensures c > 0 && 0 <= k / c < r && 0 <= k % c < c && k == (k / c) * c + k % c
  {
    if k / c >= r {
      MulMono(r, k / c, c);
    }
  }

  /** Offset `k` lies in row `i` of width `d` exactly when `k / d == i`. */
  lemma InRow(k: int, i: int, d: int)
    requires d > 0 && 0 <= k && 0 <= i
    ensures (i * d <= k < i * d + d) <==> k / d == i
  {
    var q := k / d;
    if q < i { MulMono(q + 1, i, d); }
    if q > i { MulMono(i + 1, q, d); }
  }

  /**
   * When `v` lies in row `k / width` of width `size`, it lies in row `i` of
   * width `size` exactly when `k` lies in row `i` of width `width`.
   */
  lemma SameRow(v: int, k: int, i: int, size: int, width: int)
    requires size > 0 && width > 0 && 0 <= k && 0 <= i
    requires (k / width) * size <= v < (k / width) * size + size
    ensures i * size <= v < i * size + size <==> i * width <= k < i * width + width
  {
    var j := k / width;
    assert 0 <= j;
    InRow(v, j, size);
    InRow(v, i, size);
    InRow(k, i, width);
  }

  /** Row `i` of an `r`-row buffer of width `d` lies inside it. */
  lemma RowInside(i: int, r: int, d: int)
    requires 0 <= i < r && 0 <= d
    ensures 0 <= i * d && i * d + d <= r * d
  {
    MulMono(0, i, d);
    MulMono(i + 1, r, d);
  }

  /** An offset inside row `j` of width `d` lies before every later row `i`. */
  lemma RowBelow(j: int, i: int, d: int, x: int)
    requires 0 <= j < i && 0 <= d && x < j * d + d
    ensures x < i * d
  {
    MulMono(j + 1, i, d);
  }

  /** Two different rows of width `c` occupy disjoint flat ranges. */
  lemma RowsApart(a: int, b: int, c: int)
    requires 0 <= a && 0 <= b && a != b && 0 <= c
    ensures a * c + c <= b * c || b * c + c <= a * c
  {
    if a < b { MulMono(a + 1, b, c); } else { MulMono(b + 1, a, c); }
  }

  /** An entry of row `a` of an `_ x c` buffer lies outside row `b` when `a != b`. */
  lemma OtherRow(a: int, b: int, j: int, c: int)
    requires 0 <= a && 0 <= b && a != b && 0 <= j < c
    ensures a * c + j < b * c || b * c + c <= a * c + j
  {
    if a < b {
      MulMono(a + 1, b, c);
    } else {
      MulMono(b + 1, a, c);
    }
  }

  /** A mixed-radix digit pair `a*d + b` with `0 <= b < d` determines both digits. */
  lemma Radix(a: int, b: int, a': int, b': int, d: int)
    requires d > 0 && 0 <= b < d && 0 <= b' < d && a * d + b == a' * d + b'
    ensures a == a' && b == b'
  {
    DivMod(a, b, d);
    DivMod(a', b', d);
  }
}
