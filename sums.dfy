/** Finite sums `f(0) + ... + f(n-1)` over reals, and the rewriting laws the proofs use. */
module Sums {

  /** The sum of `f(k)` for `0 <= k < n`, added in increasing `k`. */
  function Sum(n: nat, f: nat -> real): (s: real)
    decreases n
  {
    if n == 0 then 0.0 else Sum(n - 1, f) + f(n - 1)
  }

  /** Adding one more term. */
  lemma SumStep(f: nat -> real, n: nat, v: real)
    requires f(n) == v
    ensures Sum(n + 1, f) == Sum(n, f) + v
  {
  }

  /** Sums of functions that agree below `n` are equal. */
  lemma {:induction false} SumExt(n: nat, f: nat -> real, g: nat -> real)
    requires forall k: nat :: k < n ==> f(k) == g(k)
    ensures Sum(n, f) == Sum(n, g)
  {
    if n > 0 { SumExt(n - 1, f, g); }
  }

  /** Terms that are all zero add up to zero. */
  lemma {:induction false} SumZero(n: nat, f: nat -> real)
    requires forall k: nat :: k < n ==> f(k) == 0.0
    ensures Sum(n, f) == 0.0
  {
    if n > 0 { SumZero(n - 1, f); }
  }

  /** The sum of a pointwise sum is the sum of the sums. */
  lemma {:induction false} SumAdd(n: nat, f: nat -> real, g: nat -> real, h: nat -> real)
    requires forall k: nat :: k < n ==> h(k) == f(k) + g(k)
    ensures Sum(n, h) == Sum(n, f) + Sum(n, g)
  {
    if n > 0 { SumAdd(n - 1, f, g, h); }
  }

  /** A constant factor moves out of a sum. */
  lemma {:induction false} SumScale(n: nat, c: real, f: nat -> real, g: nat -> real)
    requires forall k: nat :: k < n ==> g(k) == c * f(k)
    ensures Sum(n, g) == c * Sum(n, f)
  {
    if n > 0 {
      SumScale(n - 1, c, f, g);
      assert c * Sum(n, f) == c * Sum(n - 1, f) + c * f(n - 1);
    }
  }

  /** `SumScale` stated for a value `t` already known to be `c` times the sum of `f`. */
  lemma SumScaleAt(n: nat, c: real, f: nat -> real, g: nat -> real, t: real, d: real)
    requires forall k: nat :: k < n ==> g(k) == c * f(k)
    requires t == c * d && d == Sum(n, f)
    ensures t == Sum(n, g)
  {
    SumScale(n, c, f, g);
  }

  /** A non-empty sum of positive terms is positive. */
  lemma {:induction false} SumPositive(n: nat, f: nat -> real)
    requires n > 0 && forall k: nat :: k < n ==> f(k) > 0.0
    ensures Sum(n, f) > 0.0
  {
    if n > 1 { SumPositive(n - 1, f); }
  }

  /** Raising one term of a sum by `v` raises the sum by `v`. */
  lemma SumBump(n: nat, f: nat -> real, g: nat -> real, p: nat, v: real)
    requires p < n && forall k: nat :: k < n ==> g(k) == f(k) + (if k == p then v else 0.0)
    ensures Sum(n, g) == Sum(n, f) + v
  {
    SumAdd(n, f, (k: nat) => if k == p then v else 0.0, g);
    SumPoint(n, p, v, (k: nat) => if k == p then v else 0.0);
  }

  /** The products `a[k] * b[k]` of corresponding entries, 0 beyond either vector. */
  function Products(a: seq<real>, b: seq<real>): nat -> real
  {
    (k: nat) => if k < |a| && k < |b| then a[k] * b[k] else 0.0
  }

  /** The entries of `v`, 0 beyond its end. */
  function Entries(v: seq<real>): nat -> real
  {
    (k: nat) => if k < |v| then v[k] else 0.0
  }

  /** The sum of the entries of `v`. */
  function Total(v: seq<real>): real
  {
    Sum(|v|, Entries(v))
  }

  /** The inner product of two vectors of one length. */
  function Inner(a: seq<real>, b: seq<real>): real
    requires |a| == |b|
  {
    Sum(|a|, Products(a, b))
  }

  /** A sum of `f + s*g` is the sum of `f` plus `s` times the sum of `g`. */
  lemma {:induction false} SumLinear(n: nat, s: real, f: nat -> real, g: nat -> real, h: nat -> real)
    requires forall k: nat :: k < n ==> h(k) == f(k) + s * g(k)
    ensures Sum(n, h) == Sum(n, f) + s * Sum(n, g)
  {
    if n > 0 {
      SumLinear(n - 1, s, f, g, h);
      assert s * Sum(n, g) == s * Sum(n - 1, g) + s * g(n - 1);
    }
  }

  /** Only the term at `p` survives in a sum of a one-point function. */
  lemma {:induction false} SumPoint(n: nat, p: nat, v: real, f: nat -> real)
    requires forall k: nat :: k < n ==> f(k) == (if k == p then v else 0.0)
    ensures Sum(n, f) == (if p < n then v else 0.0)
  {
    if n > 0 {
      if p < n - 1 {
        SumPoint(n - 1, p, v, f);
      } else {
        SumZero(n - 1, f);
      }
    }
  }

  /** `f` from offset `d` on. */
  function Shift(f: nat -> real, d: nat): nat -> real
  {
    (k: nat) => f(d + k)
  }

  /** Splitting the range `[0, n + m)` into `[0, n)` and `[n, n + m)`. */
  lemma {:induction false} SumConcat(n: nat, m: nat, f: nat -> real)
    ensures Sum(n + m, f) == Sum(n, f) + Sum(m, Shift(f, n))
  {
    if m > 0 {
      SumConcat(n, m - 1, f);
    }
  }

  /** A sum over a row-major range `[0, a*b)` is a double sum over rows and columns. */
  lemma {:induction false} SumRows(a: nat, b: nat, f: nat -> real)
    ensures Sum(a * b, f) == Sum(a, (x: nat) => Sum(b, (y: nat) => f(x * b + y)))
  {
    if a > 0 {
      SumRows(a - 1, b, f);
      assert a * b == (a - 1) * b + b;
      SumConcat((a - 1) * b, b, f);
      SumExt(b, Shift(f, (a - 1) * b), (y: nat) => f((a - 1) * b + y));
    }
  }

  /** `SumRows` with the row sums given by a function of their own. */
  lemma SumRowsOf(a: nat, b: nat, f: nat -> real, rowSum: nat -> real)
    requires forall x: nat :: x < a ==> rowSum(x) == Sum(b, (y: nat) => f(x * b + y))
    ensures Sum(a * b, f) == Sum(a, rowSum)
  {
    SumRows(a, b, f);
    SumExt(a, (x: nat) => Sum(b, (y: nat) => f(x * b + y)), rowSum);
  }

  /** Row `x` of a double-indexed family: `y => f(x, y)`. */
  function Across(f: (nat, nat) -> real, x: nat): nat -> real
  {
    (y: nat) => f(x, y)
  }

  /** Column `y` of a double-indexed family: `x => f(x, y)`. */
  function Down(f: (nat, nat) -> real, y: nat): nat -> real
  {
    (x: nat) => f(x, y)
  }

  /** The sums of the first `b` terms of each row. */
  function RowSums(b: nat, f: (nat, nat) -> real): nat -> real
  {
    (x: nat) => Sum(b, Across(f, x))
  }

  /** The sums of the first `a` terms of each column. */
  function ColSums(a: nat, f: (nat, nat) -> real): nat -> real
  {
    (y: nat) => Sum(a, Down(f, y))
  }

  /** Exchanging the order of a double sum. */
  lemma {:induction false} SumSwap(a: nat, b: nat, f: (nat, nat) -> real)
    ensures Sum(a, RowSums(b, f)) == Sum(b, ColSums(a, f))
  {
    if a > 0 {
      SumSwap(a - 1, b, f);
      forall y: nat | y < b
        ensures ColSums(a, f)(y) == ColSums(a - 1, f)(y) + Across(f, a - 1)(y)
      {
      }
      SumAdd(b, ColSums(a - 1, f), Across(f, a - 1), ColSums(a, f));
    } else {
      forall y: nat | y < b
        ensures ColSums(a, f)(y) == 0.0
      {
      }
      SumZero(b, ColSums(a, f));
    }
  }

  /** Rewriting `x' == y' + s*z'` by `x == x'`, `y == y'`, `z == z'` (kept apart from large contexts). */
  lemma SubstLinear(x: real, y: real, z: real, s: real, x': real, y': real, z': real)
    requires x == x' && y == y' && z == z' && x' == y' + s * z'
    ensures x == y + s * z
  {
  }

  /** Products of equal factors are equal (kept apart from large contexts). */
  lemma MulEq(x: real, x': real, y: real, y': real)
    requires x == x' && y == y'
    ensures x * y == x' * y'
  {
  }

  /** Rewriting `x' == s*y'` by `x == x'` and `y == y'`. */
  lemma SubstScale(x: real, y: real, s: real, x': real, y': real)
    requires x == x' && y == y' && x' == s * y'
    ensures x == s * y
  {
  }

  /** The entries of `v` at offsets `lo` to `hi`, zero elsewhere. */
  function Masked(v: seq<real>, lo: int, hi: int): nat -> real
  {
    (k: nat) => if lo <= k < hi && k < |v| then v[k] else 0.0
  }

  /** The total of a slice is the sum of the entries inside it. */
  lemma SliceTotal(v: seq<real>, lo: nat, hi: nat)
    requires lo <= hi <= |v|
    ensures Total(v[lo..hi]) == Sum(|v|, Masked(v, lo, hi))
  {
    var f := Masked(v, lo, hi);
    var b, c := hi - lo, |v| - hi;
    SumConcat(lo, b + c, f);
    SumZero(lo, f);
    SumConcat(b, c, Shift(f, lo));
    SumZero(c, Shift(Shift(f, lo), b));
    SliceInside(v, lo, hi);
  }

  /** Inside the slice, the masked entries are the slice's entries. */
  lemma SliceInside(v: seq<real>, lo: nat, hi: nat)
    requires lo <= hi <= |v|
    ensures Sum(hi - lo, Shift(Masked(v, lo, hi), lo)) == Total(v[lo..hi])
  {
    var w := v[lo..hi];
    forall k: nat | k < hi - lo
      ensures Shift(Masked(v, lo, hi), lo)(k) == Entries(w)(k)
    {
      assert w[k] == v[lo + k];
    }
    SumExt(hi - lo, Shift(Masked(v, lo, hi), lo), Entries(w));
  }
}
