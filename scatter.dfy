/**
 * Gathering and scattering along an index map.  `dst[k]` names the position
 * that value `k` comes from (gather) or goes to (scatter-add); a position
 * outside the target reads as 0 and drops its value.  im2col is a gather,
 * col2im and maxpool's backward pass are scatter-adds.
 */
module Scatter {
  import opened Arith
  import opened Sums

  /** `out[k] == im[dst[k]]`, or 0 where `dst[k]` lies outside `im`. */
  function Gather(im: seq<real>, dst: seq<int>): (out: seq<real>)
    ensures |out| == |dst|
    ensures forall k :: 0 <= k < |dst| ==> out[k] == if 0 <= dst[k] < |im| then im[dst[k]] else 0.0
  {
    seq(|dst|, (k: int) requires 0 <= k < |dst| => if 0 <= dst[k] < |im| then im[dst[k]] else 0.0)
  }

  /** The values `c[k]` sent to position `p`: `c[k]` where `dst[k] == p`, 0 elsewhere. */
  function Sent(c: seq<real>, dst: seq<int>, p: int): nat -> real
  {
    (k: nat) => if k < |c| && k < |dst| && dst[k] == p then c[k] else 0.0
  }

  /** An `n`-element zero vector to which every `c[k]` is added at position `dst[k]`. */
  function ScatterAdd(c: seq<real>, dst: seq<int>, n: nat): (out: seq<real>)
    requires |c| == |dst|
    ensures |out| == n
    ensures forall p :: 0 <= p < n ==> out[p] == Sum(|c|, Sent(c, dst, p))
  {
    seq(n, (p: int) => Sum(|c|, Sent(c, dst, p)))
  }

  // ---------------------------------------------------------------------------
  // A scatter-add performed one value at a time, in the order `tm`

  /** The values sent to `p` by the steps before step `t`, step `tm[k]` being the one that sends `c[k]`. */
  function SentBefore(c: seq<real>, dst: seq<int>, tm: seq<nat>, t: nat, p: int): nat -> real
  {
    (k: nat) => if k < |c| && k < |dst| && k < |tm| && tm[k] < t && dst[k] == p then c[k] else 0.0
  }

  /** The order of a loop that handles value `k` at step `k`. */
  function InOrder(n: nat): (tm: seq<nat>)
    ensures |tm| == n && forall k :: 0 <= k < n ==> tm[k] == k
  {
    seq(n, (k: int) requires 0 <= k => k)
  }

  /** The state of the target `d` before step `t`. */
  ghost predicate Scattered(d: seq<real>, c: seq<real>, dst: seq<int>, tm: seq<nat>, t: nat)
  {
    && |c| == |dst| == |tm|
    && forall p :: 0 <= p < |d| ==> d[p] == Sum(|c|, SentBefore(c, dst, tm, t, p))
  }

  /** A zeroed target is the state before the first step. */
  lemma ScatteredStart(d: seq<real>, c: seq<real>, dst: seq<int>, tm: seq<nat>)
    requires |c| == |dst| == |tm| && forall p :: 0 <= p < |d| ==> d[p] == 0.0
    ensures Scattered(d, c, dst, tm, 0)
  {
    forall p | 0 <= p < |d|
      ensures d[p] == Sum(|c|, SentBefore(c, dst, tm, 0, p))
    {
      SumZero(|c|, SentBefore(c, dst, tm, 0, p));
    }
  }

  /** Step `t` sends `c[op]` and nothing else. */
  lemma SentStep(c: seq<real>, dst: seq<int>, tm: seq<nat>, t: nat, op: nat, p: int)
    requires |c| == |dst| == |tm| && op < |c| && tm[op] == t
    requires forall k :: 0 <= k < |tm| && k != op ==> tm[k] != t
    ensures forall k: nat :: k < |c| ==>
      SentBefore(c, dst, tm, t + 1, p)(k)
      == SentBefore(c, dst, tm, t, p)(k) + (if k == op then (if dst[op] == p then c[op] else 0.0) else 0.0)
  {
  }

  /** Step `t` adds `c[op]` at `dst[op]`, when that lies inside the target. */
  lemma ScatteredStep(d: seq<real>, c: seq<real>, dst: seq<int>, tm: seq<nat>, t: nat, op: nat)
    requires Scattered(d, c, dst, tm, t) && op < |c| && tm[op] == t
    requires forall k :: 0 <= k < |tm| && k != op ==> tm[k] != t
    ensures 0 <= dst[op] < |d| ==> Scattered(d[dst[op] := d[dst[op]] + c[op]], c, dst, tm, t + 1)
    ensures !(0 <= dst[op] < |d|) ==> Scattered(d, c, dst, tm, t + 1)
  {
    var d' := if 0 <= dst[op] < |d| then d[dst[op] := d[dst[op]] + c[op]] else d;
    forall p | 0 <= p < |d'|
      ensures d'[p] == Sum(|c|, SentBefore(c, dst, tm, t + 1, p))
    {
      SentStep(c, dst, tm, t, op, p);
      if dst[op] == p {
        SumBump(|c|, SentBefore(c, dst, tm, t, p), SentBefore(c, dst, tm, t + 1, p), op, c[op]);
      } else {
        SumExt(|c|, SentBefore(c, dst, tm, t, p), SentBefore(c, dst, tm, t + 1, p));
      }
    }
  }

  /** Once every step has run, the target is the scatter-add. */
  lemma ScatteredAll(d: seq<real>, c: seq<real>, dst: seq<int>, tm: seq<nat>, t: nat)
    requires Scattered(d, c, dst, tm, t) && forall k :: 0 <= k < |tm| ==> tm[k] < t
    ensures d == ScatterAdd(c, dst, |d|)
  {
    forall p | 0 <= p < |d|
      ensures d[p] == ScatterAdd(c, dst, |d|)[p]
    {
      SumExt(|c|, SentBefore(c, dst, tm, t, p), Sent(c, dst, p));
    }
  }

  // ---------------------------------------------------------------------------
  // Properties

  /** The terms `im[p] * c[k]` for the values `k` sent to `p`. */
  function Pairing(im: seq<real>, c: seq<real>, dst: seq<int>): (nat, nat) -> real
  {
    (p: nat, k: nat) => if p < |im| && k < |c| && k < |dst| && dst[k] == p then im[p] * c[k] else 0.0
  }

  /** Scatter-add is the transpose of gather: `<gather(im), c> == <im, scatter(c)>`. */
  lemma GatherScatterAdjoint(im: seq<real>, c: seq<real>, dst: seq<int>)
    requires |c| == |dst|
    ensures Inner(Gather(im, dst), c) == Inner(im, ScatterAdd(c, dst, |im|))
  {
    AdjointByValue(im, c, dst);
    AdjointByPosition(im, c, dst);
    SumSwap(|im|, |c|, Pairing(im, c, dst));
  }

  /** Grouping the terms by value yields `<gather(im), c>`. */
  lemma AdjointByValue(im: seq<real>, c: seq<real>, dst: seq<int>)
    requires |c| == |dst|
    ensures Inner(Gather(im, dst), c) == Sum(|c|, ColSums(|im|, Pairing(im, c, dst)))
  {
    var gi := Gather(im, dst);
    forall k: nat | k < |c|
      ensures Products(gi, c)(k) == Sum(|im|, Down(Pairing(im, c, dst), k))
    {
      ValueTerm(im, c, dst, k);
    }
    SumExt(|c|, Products(gi, c), ColSums(|im|, Pairing(im, c, dst)));
  }

  /** Value `k` meets only the position it is gathered from. */
  lemma ValueTerm(im: seq<real>, c: seq<real>, dst: seq<int>, k: nat)
    requires |c| == |dst| && k < |c|
    ensures Products(Gather(im, dst), c)(k) == Sum(|im|, Down(Pairing(im, c, dst), k))
  {
    PairingColumn(im, c, dst, k);
    if 0 <= dst[k] < |im| {
      GatheredTerm(im, c, dst, k);
    } else {
      SumZero(|im|, Down(Pairing(im, c, dst), k));
      DroppedTerm(im, c, dst, k);
    }
  }

  /** A value gathered from inside the image contributes `im[dst[k]] * c[k]`. */
  lemma GatheredTerm(im: seq<real>, c: seq<real>, dst: seq<int>, k: nat)
    requires |c| == |dst| && k < |c| && 0 <= dst[k] < |im|
    requires forall p: nat :: p < |im| ==>
      Down(Pairing(im, c, dst), k)(p) == if p == dst[k] then im[dst[k]] * c[k] else 0.0
    ensures Products(Gather(im, dst), c)(k) == Sum(|im|, Down(Pairing(im, c, dst), k))
  {
    var gi := Gather(im, dst);
    SumPoint(|im|, dst[k], im[dst[k]] * c[k], Down(Pairing(im, c, dst), k));
    MulEq(gi[k], im[dst[k]], c[k], c[k]);
  }

  /** A value gathered from outside the image contributes 0. */
  lemma DroppedTerm(im: seq<real>, c: seq<real>, dst: seq<int>, k: nat)
    requires |c| == |dst| && k < |c| && !(0 <= dst[k] < |im|)
    ensures Products(Gather(im, dst), c)(k) == 0.0
  {
    var gi := Gather(im, dst);
    assert gi[k] == 0.0;
    assert Products(gi, c)(k) == 0.0 * c[k] == 0.0;
  }

  /** The column of the pairing for value `k` holds one term, at the position `k` is gathered from. */
  lemma PairingColumn(im: seq<real>, c: seq<real>, dst: seq<int>, k: nat)
    requires |c| == |dst| && k < |c|
    ensures forall p: nat :: p < |im| ==>
      Down(Pairing(im, c, dst), k)(p) == if p == dst[k] then im[dst[k]] * c[k] else 0.0
  {
    forall p: nat | p < |im|
      ensures Down(Pairing(im, c, dst), k)(p) == if p == dst[k] then im[dst[k]] * c[k] else 0.0
    {
      assert Down(Pairing(im, c, dst), k)(p) == Pairing(im, c, dst)(p, k);
    }
  }

  /** Grouping the terms by position yields `<im, scatter(c)>`. */
  lemma AdjointByPosition(im: seq<real>, c: seq<real>, dst: seq<int>)
    requires |c| == |dst|
    ensures Inner(im, ScatterAdd(c, dst, |im|)) == Sum(|im|, RowSums(|c|, Pairing(im, c, dst)))
  {
    var s := ScatterAdd(c, dst, |im|);
    forall p: nat | p < |im|
      ensures Products(im, s)(p) == Sum(|c|, Across(Pairing(im, c, dst), p))
    {
      PositionTerm(im, c, dst, p);
    }
    SumExt(|im|, Products(im, s), RowSums(|c|, Pairing(im, c, dst)));
  }

  /** Position `p` meets exactly the values sent to it. */
  lemma PositionTerm(im: seq<real>, c: seq<real>, dst: seq<int>, p: nat)
    requires |c| == |dst| && p < |im|
    ensures Products(im, ScatterAdd(c, dst, |im|))(p) == Sum(|c|, Across(Pairing(im, c, dst), p))
  {
    var s := ScatterAdd(c, dst, |im|);
    forall k: nat | k < |c|
      ensures Across(Pairing(im, c, dst), p)(k) == im[p] * Sent(c, dst, p)(k)
    {
    }
    SumScaleAt(|c|, im[p], Sent(c, dst, p), Across(Pairing(im, c, dst), p), Products(im, s)(p), s[p]);
  }

  /** When every position lies inside the target, a scatter-add keeps the total: nothing is dropped or duplicated. */
  lemma ScatterTotal(c: seq<real>, dst: seq<int>, n: nat)
    requires |c| == |dst| && forall k :: 0 <= k < |dst| ==> 0 <= dst[k] < n
    ensures Total(ScatterAdd(c, dst, n)) == Total(c)
  {
    var ones := seq(n, (p: int) => 1.0);
    GatherScatterAdjoint(ones, c, dst);
    var s := ScatterAdd(c, dst, n);
    var gi := Gather(ones, dst);
    forall p: nat | p < n
      ensures Entries(s)(p) == Products(ones, s)(p)
    {
    }
    SumExt(n, Entries(s), Products(ones, s));
    forall k: nat | k < |c|
      ensures Entries(c)(k) == Products(gi, c)(k)
    {
    }
    SumExt(|c|, Entries(c), Products(gi, c));
  }

  /**
   * When the values sent into the slice `[lo, hi)` of the target are exactly
   * those of the slice `[clo, chi)` of `c`, the two slices have one total.
   */
  lemma ScatterBlock(c: seq<real>, dst: seq<int>, n: nat, lo: nat, hi: nat, clo: nat, chi: nat)
    requires |c| == |dst| && lo <= hi <= n && clo <= chi <= |c|
    requires forall k :: 0 <= k < |dst| ==> (lo <= dst[k] < hi <==> clo <= k < chi)
    ensures Total(ScatterAdd(c, dst, n)[lo..hi]) == Total(c[clo..chi])
  {
    var ind := seq(n, (p: int) => if lo <= p < hi then 1.0 else 0.0);
    var s := ScatterAdd(c, dst, n);
    var gi := Gather(ind, dst);
    GatherScatterAdjoint(ind, c, dst);
    forall p: nat | p < n
      ensures Products(ind, s)(p) == Masked(s, lo, hi)(p)
    {
    }
    SumExt(n, Products(ind, s), Masked(s, lo, hi));
    SliceTotal(s, lo, hi);
    forall k: nat | k < |c|
      ensures Products(gi, c)(k) == Masked(c, clo, chi)(k)
    {
      assert gi[k] == if clo <= k < chi then 1.0 else 0.0;
    }
    SumExt(|c|, Products(gi, c), Masked(c, clo, chi));
    SliceTotal(c, clo, chi);
  }

  /**
   * `ScatterBlock` for row `i` of a target of `rows` rows of width `size` and
   * row `i` of values laid out in rows of width `width`.
   */
  lemma ScatterRow(c: seq<real>, dst: seq<int>, rows: nat, size: nat, width: nat, i: nat)
    requires |c| == |dst| && i < rows && i * width + width <= |c|
    requires forall k :: 0 <= k < |dst| ==> (i * size <= dst[k] < i * size + size <==> i * width <= k < i * width + width)
    ensures 0 <= i * size && i * size + size <= rows * size && 0 <= i * width
    ensures Total(ScatterAdd(c, dst, rows * size)[i * size .. i * size + size]) == Total(c[i * width .. i * width + width])
  {
    RowInside(i, rows, size);
    MulMono(0, i, width);
    ScatterBlock(c, dst, rows * size, i * size, i * size + size, i * width, i * width + width);
  }
}
