/**
 * The maxpool layer of src/maxpool_layer.c.  Forward replaces every
 * `size x size` window of every channel by its largest value; backward sends
 * each output gradient to the input pixel that held the window's maximum.
 * Windows are those of the convolutional layer: centred at every `stride`-th
 * row and column, reaching `(size-1)/2` above and to the left of the centre.
 */
module Pooling {
  import opened Arith
  import opened Sums
  import opened Matrices
  import opened Windows
  import opened Scatter

  // ---------------------------------------------------------------------------
  // The float limits the scans start from

  /** `FLT_MIN`: the least positive normal single-precision float, `2^-126`. */
  const FltMin: real := 1.0 / 85070591730234615865843651857942052864.0

  /** `FLT_MAX`: the greatest finite single-precision float, `(2 - 2^-23) * 2^127 = 2^128 - 2^104`. */
  const FltMax: real := 340282346638528859811704183484516925440.0

  // ---------------------------------------------------------------------------
  // A running maximum over the positions of a window scan

  /** The running `max` of a scan and the scan position it was taken from, `-1` before any was taken. */
  datatype Best = Best(value: real, at: int)

  /**
   * The state after the first `n` positions of a scan that starts at `init`
   * and takes the value at a position when the position passes its test
   * (`ok`) and the value exceeds the running maximum strictly.
   */
  function RunMax(vals: seq<real>, ok: seq<bool>, init: real, n: nat): (b: Best)
    requires n <= |vals| && n <= |ok|
    ensures -1 <= b.at < n
  {
    if n == 0 then Best(init, -1)
    else
      var b := RunMax(vals, ok, init, n - 1);
      if ok[n - 1] && vals[n - 1] > b.value then Best(vals[n - 1], n - 1) else b
  }

  /**
   * The scan finds the maximum of `init` and the values that pass: it is at
   * least every one of them, and it is `init` when none beats `init`, or else
   * the value at the position it reports, the first passing position holding
   * that maximum.
   */
  lemma {:induction false} RunMaxFirst(vals: seq<real>, ok: seq<bool>, init: real, n: nat)
    requires n <= |vals| && n <= |ok|
    ensures RunMax(vals, ok, init, n).value >= init
    ensures forall j :: 0 <= j < n && ok[j] ==> vals[j] <= RunMax(vals, ok, init, n).value
    ensures RunMax(vals, ok, init, n).at < 0 ==> RunMax(vals, ok, init, n).value == init
    ensures var b := RunMax(vals, ok, init, n);
      b.at >= 0 ==> ok[b.at] && vals[b.at] == b.value && b.value > init
                    && forall j :: 0 <= j < b.at && ok[j] ==> vals[j] < b.value
  {
    if n > 0 {
      RunMaxFirst(vals, ok, init, n - 1);
    }
  }

  /** A scan finds a position as soon as some passing value beats the starting value. */
  lemma RunMaxFound(vals: seq<real>, ok: seq<bool>, init: real, n: nat, j: nat)
    requires n <= |vals| && n <= |ok| && j < n && ok[j] && vals[j] > init
    ensures RunMax(vals, ok, init, n).at >= 0
  {
    RunMaxFirst(vals, ok, init, n);
  }

  // ---------------------------------------------------------------------------
  // The scan of one window

  /** Image row looked at by kernel row `kr` of the windows in output row `r`. */
  function WinY(g: Geometry, r: int, kr: int): int
  {
    r * g.stride + kr - Half(g)
  }

  /** Image column looked at by kernel column `kc` of the windows in output column `cc`. */
  function WinX(g: Geometry, cc: int, kc: int): int
  {
    cc * g.stride + kc - Half(g)
  }

  /** Kernel position `(kr, kc)` of window `(r, cc)` falls inside the image. */
  predicate WinOk(g: Geometry, r: int, cc: int, kr: int, kc: int)
  {
    InImage(g, WinY(g, r, kr), WinX(g, cc, kc))
  }

  /** The value at offset `p` of an image, 0 outside it. */
  function Pixel(im: seq<real>, p: int): real
  {
    if 0 <= p < |im| then im[p] else 0.0
  }

  /** The value kernel position `(kr, kc)` of window `(r, cc)` of channel `ch` looks at. */
  function WinPixel(im: seq<real>, g: Geometry, ch: int, r: int, cc: int, kr: int, kc: int): real
  {
    Pixel(im, PixelIndex(g, ch, WinY(g, r, kr), WinX(g, cc, kc)))
  }

  /** Whether each scan position `t = kr*size + kc` of window `(r, cc)` lies inside the image, in scan order. */
  function WindowOk(g: Geometry, r: int, cc: int): (ok: seq<bool>)
    requires g.size >= 1
    ensures |ok| == g.size * g.size
  {
    seq(g.size * g.size, (t: int) => WinOk(g, r, cc, t / g.size, t % g.size))
  }

  /** The values window `(r, cc)` of channel `ch` looks at, in scan order. */
  function WindowVals(im: seq<real>, g: Geometry, ch: int, r: int, cc: int): (v: seq<real>)
    requires g.size >= 1
    ensures |v| == g.size * g.size
  {
    seq(g.size * g.size, (t: int) => WinPixel(im, g, ch, r, cc, t / g.size, t % g.size))
  }

  /** Kernel row `kr` and column `kc` are scanned at position `kr*size + kc`. */
  lemma ScanAt(g: Geometry, kr: int, kc: int)
    requires g.size >= 1 && 0 <= kr < g.size && 0 <= kc < g.size
    ensures 0 <= kr * g.size + kc < g.size * g.size
    ensures (kr * g.size + kc) / g.size == kr && (kr * g.size + kc) % g.size == kc
  {
    FlatBound(kr, kc, g.size, g.size);
    DivMod(kr, kc, g.size);
  }

  /** The forward scan of window `(r, cc)`, starting from `FLT_MIN`. */
  function ForwardScan(im: seq<real>, g: Geometry, ch: int, r: int, cc: int): Best
    requires g.size >= 1
  {
    RunMax(WindowVals(im, g, ch, r, cc), WindowOk(g, r, cc), FltMin, g.size * g.size)
  }

  /** The backward scan of window `(r, cc)`, starting from `-FLT_MAX`. */
  function BackwardScan(im: seq<real>, g: Geometry, ch: int, r: int, cc: int): Best
    requires g.size >= 1
  {
    RunMax(WindowVals(im, g, ch, r, cc), WindowOk(g, r, cc), -FltMax, g.size * g.size)
  }

  /** The value forward writes for window `(r, cc)` of channel `ch`. */
  function PoolMax(im: seq<real>, g: Geometry, ch: int, r: int, cc: int): real
    requires g.size >= 1
  {
    ForwardScan(im, g, ch, r, cc).value
  }

  /** The image offset backward sends the gradient of window `(r, cc)` of channel `ch` to; -1 when the scan found none. */
  function PoolArg(im: seq<real>, g: Geometry, ch: int, r: int, cc: int): int
    requires g.size >= 1
  {
    var t := BackwardScan(im, g, ch, r, cc).at;
    if t < 0 then -1 else PixelIndex(g, ch, WinY(g, r, t / g.size), WinX(g, cc, t % g.size))
  }

  // ---------------------------------------------------------------------------
  // The output layout

  /** `outw*outh*channels`: the width of the output matrix. */
  function PoolCols(g: Geometry): nat
    requires Sound(g)
  {
    OutW(g) * OutH(g) * g.channels
  }

  /** `channel_out + row_out + col_out`: the output column of window `(r, cc)` of channel `ch`. */
  function OutIndex(g: Geometry, ch: int, r: int, cc: int): int
    requires Sound(g)
  {
    OutW(g) * OutH(g) * ch + r * OutW(g) + cc
  }

  /** The channel and window an output column belongs to. */
  function OutCoords(g: Geometry, j: int): (c: (nat, nat, nat))
    requires Sound(g) && 0 <= j < PoolCols(g)
    ensures c.0 < g.channels && c.1 < OutH(g) && c.2 < OutW(g)
    ensures OutIndex(g, c.0, c.1, c.2) == j
  {
    var n := OutW(g) * OutH(g);
    assert PoolCols(g) == g.channels * n;
    Unflatten(j, g.channels, n);
    var w := j % n;
    assert n == OutH(g) * OutW(g);
    Unflatten(w, OutH(g), OutW(g));
    assert n * (j / n) == (j / n) * n;
    (j / n, w / OutW(g), w % OutW(g))
  }

  /** Every window of every channel has its own output column. */
  lemma OutCoordsOf(g: Geometry, ch: int, r: int, cc: int)
    requires Sound(g) && 0 <= ch < g.channels && 0 <= r < OutH(g) && 0 <= cc < OutW(g)
    ensures 0 <= OutIndex(g, ch, r, cc) < PoolCols(g) && OutCoords(g, OutIndex(g, ch, r, cc)) == (ch, r, cc)
  {
    var n := OutW(g) * OutH(g);
    WindowRowMajor(g, r, cc);
    FlatBound(ch, r * OutW(g) + cc, g.channels, n);
    assert OutIndex(g, ch, r, cc) == ch * n + (r * OutW(g) + cc);
    assert PoolCols(g) == g.channels * n;
    var c := OutCoords(g, OutIndex(g, ch, r, cc));
    assert c.0 * n + (c.1 * OutW(g) + c.2) == ch * n + (r * OutW(g) + cc);
    WindowRowMajor(g, c.1, c.2);
    Radix(c.0, c.1 * OutW(g) + c.2, ch, r * OutW(g) + cc, n);
    Radix(c.1, c.2, r, cc, OutW(g));
  }

  // ---------------------------------------------------------------------------
  // The layer's passes, as functions of the matrix values

  /** Entry `k` of the forward output of batch `X`: the pooled value of its example, channel and window. */
  function ForwardEntry(X: Mat, g: Geometry, k: int): real
    requires Sound(g) && X.cols == ImageSize(g) && 0 <= k < X.rows * PoolCols(g)
  {
    Unflatten(k, X.rows, PoolCols(g));
    var c := OutCoords(g, k % PoolCols(g));
    PoolMax(Example(X, k / PoolCols(g)), g, c.0, c.1, c.2)
  }

  /** forward_maxpool_layer on batch `X`: one row of `outw*outh*channels` pooled values per example. */
  function PoolForward(X: Mat, g: Geometry): (y: Mat)
    requires Sound(g) && X.cols == ImageSize(g)
    ensures y.rows == X.rows && y.cols == PoolCols(g) && |y.data| == X.rows * PoolCols(g)
  {
    MatVal(X.rows, PoolCols(g), seq(X.rows * PoolCols(g), (k: int) requires 0 <= k < X.rows * PoolCols(g) => ForwardEntry(X, g, k)))
  }

  /** Entry `k` of the scatter map of backward: where the gradient at output offset `k` goes, -1 for nowhere. */
  function RouteEntry(X: Mat, g: Geometry, k: int): int
    requires Sound(g) && X.cols == ImageSize(g) && 0 <= k < X.rows * PoolCols(g)
  {
    Unflatten(k, X.rows, PoolCols(g));
    var i := k / PoolCols(g);
    var c := OutCoords(g, k % PoolCols(g));
    var a := PoolArg(Example(X, i), g, c.0, c.1, c.2);
    if a < 0 then -1 else i * ImageSize(g) + a
  }

  /** The scatter map of backward over a batch, one target per output offset. */
  function PoolRoutes(X: Mat, g: Geometry): (dst: seq<int>)
    requires Sound(g) && X.cols == ImageSize(g)
    ensures |dst| == X.rows * PoolCols(g)
  {
    seq(X.rows * PoolCols(g), (k: int) requires 0 <= k < X.rows * PoolCols(g) => RouteEntry(X, g, k))
  }

  /**
   * backward_maxpool_layer: a zero matrix with the rows of `dy` to which the
   * output gradient of every window of the cached batch `X` is added at the
   * window's maximum.  Rows of `dy` past those of `X` send nothing.
   */
  function PoolBackward(X: Mat, DY: Mat, g: Geometry): (dx: Mat)
    requires Sound(g) && X.cols == ImageSize(g) && DY.cols == PoolCols(g) && X.rows <= DY.rows
    ensures dx.rows == DY.rows && dx.cols == ImageSize(g) && |dx.data| == DY.rows * ImageSize(g)
  {
    MulMono(X.rows, DY.rows, PoolCols(g));
    MatVal(DY.rows, ImageSize(g), ScatterAdd(DY.data[..X.rows * PoolCols(g)], PoolRoutes(X, g), DY.rows * ImageSize(g)))
  }

  /** The output offset of window `(r, cc)` of channel `ch` of example `i`, and the forward value there. */
  lemma ForwardAt(X: Mat, g: Geometry, i: int, ch: int, r: int, cc: int)
    requires Sound(g) && X.cols == ImageSize(g) && 0 <= i < X.rows
    requires 0 <= ch < g.channels && 0 <= r < OutH(g) && 0 <= cc < OutW(g)
    ensures var k := i * PoolCols(g) + OutIndex(g, ch, r, cc);
      0 <= k < X.rows * PoolCols(g) && PoolForward(X, g).data[k] == PoolMax(Example(X, i), g, ch, r, cc)
  {
    OutCoordsOf(g, ch, r, cc);
    var k := i * PoolCols(g) + OutIndex(g, ch, r, cc);
    FlatBound(i, OutIndex(g, ch, r, cc), X.rows, PoolCols(g));
    DivMod(i, OutIndex(g, ch, r, cc), PoolCols(g));
  }

  /** The scatter target of window `(r, cc)` of channel `ch` of example `i`. */
  lemma RouteAt(X: Mat, g: Geometry, i: int, ch: int, r: int, cc: int)
    requires Sound(g) && X.cols == ImageSize(g) && 0 <= i < X.rows
    requires 0 <= ch < g.channels && 0 <= r < OutH(g) && 0 <= cc < OutW(g)
    ensures var k := i * PoolCols(g) + OutIndex(g, ch, r, cc);
      var a := PoolArg(Example(X, i), g, ch, r, cc);
      0 <= k < X.rows * PoolCols(g) && PoolRoutes(X, g)[k] == if a < 0 then -1 else i * X.cols + a
  {
    OutCoordsOf(g, ch, r, cc);
    FlatBound(i, OutIndex(g, ch, r, cc), X.rows, PoolCols(g));
    DivMod(i, OutIndex(g, ch, r, cc), PoolCols(g));
  }

  // ---------------------------------------------------------------------------
  // What one window scan computes

  /** Scan position `kr*size + kc` tests and reads kernel position `(kr, kc)`. */
  lemma WindowEntry(im: seq<real>, g: Geometry, ch: int, r: int, cc: int, kr: int, kc: int)
    requires g.size >= 1 && 0 <= kr < g.size && 0 <= kc < g.size
    ensures 0 <= kr * g.size + kc < g.size * g.size
    ensures WindowOk(g, r, cc)[kr * g.size + kc] == WinOk(g, r, cc, kr, kc)
    ensures WindowVals(im, g, ch, r, cc)[kr * g.size + kc] == WinPixel(im, g, ch, r, cc, kr, kc)
  {
    ScanAt(g, kr, kc);
  }

  /**
   * Forward writes the maximum of `FLT_MIN` and the in-image values of the
   * window: at least `FLT_MIN` and every such value, and either `FLT_MIN`
   * itself or one of those values.
   */
  lemma PoolMaxIsMax(im: seq<real>, g: Geometry, ch: int, r: int, cc: int)
    requires g.size >= 1
    ensures PoolMax(im, g, ch, r, cc) >= FltMin
    ensures forall kr, kc :: 0 <= kr < g.size && 0 <= kc < g.size && WinOk(g, r, cc, kr, kc)
              ==> WinPixel(im, g, ch, r, cc, kr, kc) <= PoolMax(im, g, ch, r, cc)
    ensures PoolMax(im, g, ch, r, cc) == FltMin
            || exists kr, kc :: 0 <= kr < g.size && 0 <= kc < g.size && WinOk(g, r, cc, kr, kc)
                                && WinPixel(im, g, ch, r, cc, kr, kc) == PoolMax(im, g, ch, r, cc)
  {
    var vals, ok, n := WindowVals(im, g, ch, r, cc), WindowOk(g, r, cc), g.size * g.size;
    RunMaxFirst(vals, ok, FltMin, n);
    forall kr, kc | 0 <= kr < g.size && 0 <= kc < g.size && WinOk(g, r, cc, kr, kc)
      ensures WinPixel(im, g, ch, r, cc, kr, kc) <= PoolMax(im, g, ch, r, cc)
    {
      WindowEntry(im, g, ch, r, cc, kr, kc);
    }
    var t := ForwardScan(im, g, ch, r, cc).at;
    if t >= 0 {
      Unflatten(t, g.size, g.size);
      assert WinOk(g, r, cc, t / g.size, t % g.size) && WinPixel(im, g, ch, r, cc, t / g.size, t % g.size) == PoolMax(im, g, ch, r, cc);
    }
  }

  /**
   * Because the forward scan starts at `FLT_MIN` rather than at the lowest
   * float, a window whose in-image values are all at most `FLT_MIN` (all
   * negative, say) pools to `FLT_MIN`, not to its largest value.
   */
  lemma LowWindowPoolsToFltMin(im: seq<real>, g: Geometry, ch: int, r: int, cc: int)
    requires g.size >= 1
    requires forall kr, kc :: 0 <= kr < g.size && 0 <= kc < g.size && WinOk(g, r, cc, kr, kc)
               ==> WinPixel(im, g, ch, r, cc, kr, kc) <= FltMin
    ensures PoolMax(im, g, ch, r, cc) == FltMin
  {
    PoolMaxIsMax(im, g, ch, r, cc);
  }

  /** Every value of `s` is above `-FLT_MAX`, so every backward scan finds a maximum. */
  predicate AboveFloor(s: seq<real>)
  {
    forall p :: 0 <= p < |s| ==> s[p] > -FltMax
  }

  /**
   * When the image is above `-FLT_MAX`, backward's scan of a window finds a
   * position, so the asserts of the C code hold; the position lies inside the
   * image and `PoolArg` is its offset.
   */
  lemma PoolArgFound(im: seq<real>, g: Geometry, ch: int, r: int, cc: int)
    requires Sound(g) && |im| == ImageSize(g) && AboveFloor(im)
    requires 0 <= ch < g.channels && 0 <= r < OutH(g) && 0 <= cc < OutW(g)
    ensures var t := BackwardScan(im, g, ch, r, cc).at;
      && 0 <= t < g.size * g.size && WinOk(g, r, cc, t / g.size, t % g.size)
      && PoolArg(im, g, ch, r, cc) == PixelIndex(g, ch, WinY(g, r, t / g.size), WinX(g, cc, t % g.size))
  {
    var vals, ok, n := WindowVals(im, g, ch, r, cc), WindowOk(g, r, cc), g.size * g.size;
    var h := Half(g);
    CentreInImage(g, r, cc);
    PixelInBounds(g, ch, r * g.stride, cc * g.stride);
    WindowEntry(im, g, ch, r, cc, h, h);
    RunMaxFound(vals, ok, -FltMax, n, h * g.size + h);
    RunMaxFirst(vals, ok, -FltMax, n);
  }

  /**
   * The offset backward routes a window's gradient to holds the window's
   * largest in-image value, and it is the first scan position to hold it.
   */
  lemma PoolArgIsFirstMax(im: seq<real>, g: Geometry, ch: int, r: int, cc: int)
    requires Sound(g) && |im| == ImageSize(g) && AboveFloor(im)
    requires 0 <= ch < g.channels && 0 <= r < OutH(g) && 0 <= cc < OutW(g)
    ensures var t := BackwardScan(im, g, ch, r, cc).at;
      forall kr, kc :: 0 <= kr < g.size && 0 <= kc < g.size && WinOk(g, r, cc, kr, kc) ==>
        && WinPixel(im, g, ch, r, cc, kr, kc) <= Pixel(im, PoolArg(im, g, ch, r, cc))
        && (kr * g.size + kc < t ==> WinPixel(im, g, ch, r, cc, kr, kc) < Pixel(im, PoolArg(im, g, ch, r, cc)))
  {
    var vals, ok, n := WindowVals(im, g, ch, r, cc), WindowOk(g, r, cc), g.size * g.size;
    PoolArgFound(im, g, ch, r, cc);
    RunMaxFirst(vals, ok, -FltMax, n);
    var t := BackwardScan(im, g, ch, r, cc).at;
    assert Pixel(im, PoolArg(im, g, ch, r, cc)) == vals[t];
    forall kr, kc | 0 <= kr < g.size && 0 <= kc < g.size && WinOk(g, r, cc, kr, kc)
      ensures WinPixel(im, g, ch, r, cc, kr, kc) <= vals[t]
      ensures kr * g.size + kc < t ==> WinPixel(im, g, ch, r, cc, kr, kc) < vals[t]
    {
      WindowEntry(im, g, ch, r, cc, kr, kc);
    }
  }

  /** The offset backward routes a window's gradient to lies inside the window's channel of the image. */
  lemma PoolArgInChannel(im: seq<real>, g: Geometry, ch: int, r: int, cc: int)
    requires Sound(g) && |im| == ImageSize(g) && AboveFloor(im)
    requires 0 <= ch < g.channels && 0 <= r < OutH(g) && 0 <= cc < OutW(g)
    ensures g.width * g.height * ch <= PoolArg(im, g, ch, r, cc) < g.width * g.height * ch + g.width * g.height
    ensures 0 <= PoolArg(im, g, ch, r, cc) < ImageSize(g)
  {
    MulMono(0, ch, g.width * g.height);
    PoolArgFound(im, g, ch, r, cc);
    var t := BackwardScan(im, g, ch, r, cc).at;
    var y, x := WinY(g, r, t / g.size), WinX(g, cc, t % g.size);
    PixelInChannel(g, ch, y, x);
    PixelInBounds(g, ch, y, x);
  }

  /**
   * Whenever forward's value beats `FLT_MIN`, forward and backward pick the
   * same scan position, and the offset backward routes to holds the value
   * forward wrote.
   */
  lemma ForwardBackwardAgree(im: seq<real>, g: Geometry, ch: int, r: int, cc: int)
    requires g.size >= 1 && PoolMax(im, g, ch, r, cc) > FltMin
    ensures BackwardScan(im, g, ch, r, cc).at == ForwardScan(im, g, ch, r, cc).at >= 0
    ensures Pixel(im, PoolArg(im, g, ch, r, cc)) == PoolMax(im, g, ch, r, cc)
  {
    var vals, ok, n := WindowVals(im, g, ch, r, cc), WindowOk(g, r, cc), g.size * g.size;
    RunMaxFirst(vals, ok, FltMin, n);
    RunMaxFirst(vals, ok, -FltMax, n);
    var f, b := ForwardScan(im, g, ch, r, cc), BackwardScan(im, g, ch, r, cc);
    assert f.at >= 0;
    assert b.at >= 0;
    assert b.value == f.value;
    Unflatten(b.at, g.size, g.size);
  }

  // ---------------------------------------------------------------------------
  // Forward's bounds test

  /**
   * Forward's bounds test on `row = width * y` and `col = x`.  It divides the
   * row offset by the input's column count, `width*height*channels`, where
   * backward's (`Outside`) divides by the width; C's `||` is short-circuit, so
   * the division only sees a non-negative `row`.
   */
  predicate ForwardRejects(g: Geometry, cols: int, row: int, col: int)
    requires cols > 0
  {
    row < 0 || col < 0 || row / cols >= g.height || col >= g.width
  }

  /**
   * No window reaches below the image, or an image is a single row: the
   * geometries where forward's bounds test is the in-image test.
   */
  predicate WindowsFit(g: Geometry)
    requires Sound(g)
  {
    g.height * g.channels == 1 || (OutH(g) - 1) * g.stride + g.size / 2 < g.height
  }

  /** Kernel rows reach at most `size/2` below the centre. */
  lemma KernelReach(g: Geometry, kr: int)
    requires Sound(g) && 0 <= kr < g.size
    ensures kr - Half(g) <= g.size / 2 && g.size / 2 + Half(g) == g.size - 1
  {
  }

  /** A row within the image passes the row half of forward's test: `width*y` is below `width*height*channels`. */
  lemma RowInsideImage(g: Geometry, y: int, x: int)
    requires Sound(g) && g.channels >= 1 && 0 <= y < g.height
    ensures ForwardRejects(g, ImageSize(g), g.width * y, x) <==> !InImage(g, y, x)
  {
    var wh := g.width * g.height;
    assert g.width * y + g.width <= wh by { MulMono(y + 1, g.height, g.width); }
    assert wh <= ImageSize(g) by { MulMono(1, g.channels, wh); }
    DivMod(0, g.width * y, ImageSize(g));
  }

  /** When an image is a single row of its channel, `width*height*channels` is the width and forward's test is backward's. */
  lemma SingleRowImage(g: Geometry, y: int, x: int)
    requires Sound(g) && g.height * g.channels == 1
    ensures ForwardRejects(g, ImageSize(g), g.width * y, x) <==> !InImage(g, y, x)
  {
    assert ImageSize(g) == g.width * (g.height * g.channels) == g.width;
    OutsideIff(g, y, x);
  }

  /** On geometries whose windows fit, forward's bounds test rejects exactly the pixels outside the image. */
  lemma ForwardGuardExact(g: Geometry, r: int, kr: int, x: int)
    requires Sound(g) && g.channels >= 1 && WindowsFit(g) && 0 <= r < OutH(g) && 0 <= kr < g.size
    ensures ForwardRejects(g, ImageSize(g), g.width * WinY(g, r, kr), x) <==> !InImage(g, WinY(g, r, kr), x)
  {
    var y := WinY(g, r, kr);
    if y < 0 {
      MulMono(y, -1, g.width);
    } else if g.height * g.channels == 1 {
      SingleRowImage(g, y, x);
    } else {
      KernelReach(g, kr);
      MulMono(r, OutH(g) - 1, g.stride);
      RowInsideImage(g, y, x);
    }
  }

  /**
   * On every other geometry forward reads past its input: the last window
   * row looks at image row `height`, the test lets the centre column of that
   * row through, and for the last channel of the last example the offset read
   * is the input's length.
   */
  lemma ForwardOverreads(g: Geometry, rows: int)
    requires Sound(g) && g.channels >= 1 && rows >= 1 && !WindowsFit(g)
    ensures var r, kr := OutH(g) - 1, g.height - (OutH(g) - 1) * g.stride + Half(g);
      && 0 <= kr < g.size && WinY(g, r, kr) == g.height && WinX(g, 0, Half(g)) == 0
      && !ForwardRejects(g, ImageSize(g), g.width * WinY(g, r, kr), WinX(g, 0, Half(g)))
      && (rows - 1) * ImageSize(g) + g.width * g.height * (g.channels - 1) + g.width * WinY(g, r, kr) + WinX(g, 0, Half(g))
         == rows * ImageSize(g)
  {
    var r, kr := OutH(g) - 1, g.height - (OutH(g) - 1) * g.stride + Half(g);
    KernelReach(g, 0);
    var wh := g.width * g.height;
    assert wh >= 1 by { MulMono(1, g.height, g.width); }
    assert ImageSize(g) == wh * g.channels;
    assert g.channels == 1 ==> g.height >= 2;
    PastRowQuotient(wh, g.channels, g.height);
    LastOffset(rows, wh, g.channels);
  }

  /** Row `height` of an image starts at `wh`, which lies in the rows of the test when the image has several channels or rows. */
  lemma PastRowQuotient(wh: int, c: int, h: int)
    requires wh >= 1 && c >= 1 && h >= 1 && (c == 1 ==> h >= 2)
    ensures wh / (wh * c) < h
  {
    if c == 1 {
      DivMod(1, 0, wh);
    } else {
      MulMono(2, c, wh);
      DivMod(0, wh, wh * c);
    }
  }

  /** The first value past the last channel of the last example is the end of the batch. */
  lemma LastOffset(rows: int, wh: int, c: int)
    ensures (rows - 1) * (wh * c) + wh * (c - 1) + wh == rows * (wh * c)
  {
    MulSplit(rows - 1, 1, wh * c);
    assert wh * (c - 1) + wh == wh * c;
  }

  // ---------------------------------------------------------------------------
  // What backward computes over a batch

  /** An example of a batch above `-FLT_MAX` is above `-FLT_MAX`. */
  lemma ExampleAboveFloor(X: Mat, i: int)
    requires 0 <= i < X.rows && AboveFloor(X.data)
    ensures AboveFloor(Example(X, i))
  {
    var e := Example(X, i);
    forall p | 0 <= p < |e|
      ensures e[p] > -FltMax
    {
      assert e[p] == X.data[i * X.cols + p];
    }
  }

  /**
   * Over a batch above `-FLT_MAX`, the gradient at output offset `k` goes to
   * the same example's row of `dx`, inside the channel of its window.
   */
  lemma RouteInChannel(X: Mat, g: Geometry, k: int)
    requires Sound(g) && X.cols == ImageSize(g) && AboveFloor(X.data) && 0 <= k < X.rows * PoolCols(g)
    ensures var i, ch := k / PoolCols(g), OutCoords(g, k % PoolCols(g)).0;
      && 0 <= i < X.rows
      && i * ImageSize(g) + g.width * g.height * ch <= PoolRoutes(X, g)[k]
      && PoolRoutes(X, g)[k] < i * ImageSize(g) + g.width * g.height * ch + g.width * g.height
      && i * ImageSize(g) <= PoolRoutes(X, g)[k] < i * ImageSize(g) + ImageSize(g)
  {
    Unflatten(k, X.rows, PoolCols(g));
    var i := k / PoolCols(g);
    var c := OutCoords(g, k % PoolCols(g));
    ExampleAboveFloor(X, i);
    PoolArgInChannel(Example(X, i), g, c.0, c.1, c.2);
  }

  /** The gradient at output offset `k` goes inside a `dx` of `rows >= X.rows` rows. */
  lemma RouteInBatch(X: Mat, g: Geometry, rows: int, k: int)
    requires Sound(g) && X.cols == ImageSize(g) && AboveFloor(X.data) && 0 <= k < X.rows * PoolCols(g) && X.rows <= rows
    ensures 0 <= PoolRoutes(X, g)[k] < rows * ImageSize(g)
  {
    RouteInChannel(X, g, k);
    var i, v := k / PoolCols(g), PoolRoutes(X, g)[k];
    FlatBound(i, v - i * ImageSize(g), rows, ImageSize(g));
  }

  /** Over a batch above `-FLT_MAX`, backward drops no gradient: `dx` adds up to what the cached examples' rows of `dy` add up to. */
  lemma BackwardKeepsTotal(X: Mat, DY: Mat, g: Geometry)
    requires Sound(g) && X.cols == ImageSize(g) && DY.cols == PoolCols(g) && X.rows <= DY.rows && AboveFloor(X.data)
    ensures X.rows * PoolCols(g) <= |DY.data|
    ensures Total(PoolBackward(X, DY, g).data) == Total(DY.data[..X.rows * PoolCols(g)])
  {
    MulMono(X.rows, DY.rows, PoolCols(g));
    var dst := PoolRoutes(X, g);
    forall k | 0 <= k < |dst|
      ensures 0 <= dst[k] < DY.rows * ImageSize(g)
    {
      RouteInBatch(X, g, DY.rows, k);
    }
    ScatterTotal(DY.data[..X.rows * PoolCols(g)], dst, DY.rows * ImageSize(g));
  }

  /**
   * Over a batch above `-FLT_MAX`, the gradient values that land in row `i`
   * of `dx` are exactly those of row `i` of `dy`.
   */
  lemma RoutesOfRow(X: Mat, g: Geometry, i: nat)
    requires Sound(g) && X.cols == ImageSize(g) && AboveFloor(X.data)
    ensures var size, width, dst := ImageSize(g), PoolCols(g), PoolRoutes(X, g);
      forall k :: 0 <= k < |dst| ==> (i * size <= dst[k] < i * size + size <==> i * width <= k < i * width + width)
  {
    var size, width, dst := ImageSize(g), PoolCols(g), PoolRoutes(X, g);
    forall k | 0 <= k < |dst|
      ensures i * size <= dst[k] < i * size + size <==> i * width <= k < i * width + width
    {
      RouteOfRow(X, g, i, k);
    }
  }

  /** `RoutesOfRow` at one output offset `k`. */
  lemma RouteOfRow(X: Mat, g: Geometry, i: nat, k: int)
    requires Sound(g) && X.cols == ImageSize(g) && AboveFloor(X.data) && 0 <= k < X.rows * PoolCols(g)
    ensures var size, width, v := ImageSize(g), PoolCols(g), PoolRoutes(X, g)[k];
      i * size <= v < i * size + size <==> i * width <= k < i * width + width
  {
    RouteInChannel(X, g, k);
    SameRow(PoolRoutes(X, g)[k], k, i, ImageSize(g), PoolCols(g));
  }

  /**
   * Over a batch above `-FLT_MAX`, backward keeps each example's gradient
   * within that example: row `i` of `dx` adds up to row `i` of `dy`.
   */
  lemma BackwardKeepsRow(X: Mat, DY: Mat, g: Geometry, i: nat)
    requires Sound(g) && X.cols == ImageSize(g) && DY.cols == PoolCols(g) && X.rows <= DY.rows && AboveFloor(X.data)
    requires i < X.rows
    ensures Total(Example(PoolBackward(X, DY, g), i)) == Total(Example(DY, i))
  {
    var size, width := ImageSize(g), PoolCols(g);
    RowInside(i, X.rows, width);
    MulMono(X.rows, DY.rows, width);
    var c, dst := DY.data[..X.rows * width], PoolRoutes(X, g);
    var dx := PoolBackward(X, DY, g);
    assert dx.data == ScatterAdd(c, dst, DY.rows * size);
    RoutesOfRow(X, g, i);
    ScatterRow(c, dst, DY.rows, size, width, i);
    assert dx.data[i * size .. i * size + size] == Example(dx, i);
    assert c[i * width .. i * width + width] == Example(DY, i);
  }

  /** The rows of `dx` past the cached examples receive nothing: they stay 0. */
  lemma BackwardZeroRow(X: Mat, DY: Mat, g: Geometry, i: nat)
    requires Sound(g) && X.cols == ImageSize(g) && DY.cols == PoolCols(g) && X.rows <= DY.rows && AboveFloor(X.data)
    requires X.rows <= i < DY.rows
    ensures forall p :: 0 <= p < ImageSize(g) ==> Example(PoolBackward(X, DY, g), i)[p] == 0.0
  {
    var size, width, dst := ImageSize(g), PoolCols(g), PoolRoutes(X, g);
    forall p | 0 <= p < size
      ensures Example(PoolBackward(X, DY, g), i)[p] == 0.0
    {
      var q := i * size + p;
      FlatBound(i, p, DY.rows, size);
      forall k | 0 <= k < X.rows * width
        ensures dst[k] != q
      {
        RouteInChannel(X, g, k);
        RowBelow(k / width, i, size, dst[k]);
      }
      BackwardZeroOffMax(X, DY, g, q);
    }
  }

  /** Backward leaves 0 at every input offset that is no window's maximum. */
  lemma BackwardZeroOffMax(X: Mat, DY: Mat, g: Geometry, p: int)
    requires Sound(g) && X.cols == ImageSize(g) && DY.cols == PoolCols(g) && X.rows <= DY.rows
    requires 0 <= p < DY.rows * ImageSize(g)
    requires forall k :: 0 <= k < X.rows * PoolCols(g) ==> PoolRoutes(X, g)[k] != p
    ensures PoolBackward(X, DY, g).data[p] == 0.0
  {
    MulMono(X.rows, DY.rows, PoolCols(g));
    SumZero(X.rows * PoolCols(g), Sent(DY.data[..X.rows * PoolCols(g)], PoolRoutes(X, g), p));
  }

  // ---------------------------------------------------------------------------
  // forward_maxpool_layer, loop by loop

  /** The first `t` entries of `d` already hold those of `y`. */
  predicate Filled(d: seq<real>, y: seq<real>, t: int)
  {
    |d| == |y| && 0 <= t <= |d| && forall k :: 0 <= k < t ==> d[k] == y[k]
  }

  /**
   * The loops of forward_maxpool_layer (lines 19-61): a fresh matrix with one
   * pooled value per example, channel and window, each written once, in order.
   */
  method PoolRows(input: Matrix, g: Geometry, debug: bool) returns (out: Matrix)
    requires Sound(g) && input.Valid() && input.cols == ImageSize(g)
    requires input.rows == 0 || g.channels == 0 || WindowsFit(g)
    ensures out.Valid() && fresh(out.data)
    ensures out.Value() == PoolForward(input.Value(), g)
  {
    ghost var X := input.Value();
    ghost var Y := PoolForward(X, g).data;
    var outw: int := (g.width - 1) / g.stride + 1;
    var outh: int := (g.height - 1) / g.stride + 1;
    ghost var mode;
    out, mode := MakeMatrixGarbage(input.rows, outw * outh * g.channels, debug);
    assert out.cols == PoolCols(g);
    for imageNum := 0 to input.rows
      invariant out.Valid() && fresh(out.data) && out.rows == X.rows && out.cols == PoolCols(g)
      invariant Filled(out.data[..], Y, imageNum * PoolCols(g))
    {
      PoolImage(input, out, g, X, Y, imageNum);
    }
    assert out.data[..] == Y;
  }

  /** The channel loop of forward_maxpool_layer for example `imageNum`. */
  method PoolImage(input: Matrix, out: Matrix, g: Geometry, ghost X: Mat, ghost Y: seq<real>, imageNum: nat)
    requires Sound(g) && input.Valid() && out.Valid() && out.data != input.data
    requires X == input.Value() && X.cols == ImageSize(g) && Y == PoolForward(X, g).data
    requires out.rows == X.rows && out.cols == PoolCols(g) && imageNum < X.rows
    requires g.channels == 0 || WindowsFit(g)
    requires Filled(out.data[..], Y, imageNum * PoolCols(g))
    modifies out.data
    ensures Filled(out.data[..], Y, (imageNum + 1) * PoolCols(g))
  {
    var outw: int := (g.width - 1) / g.stride + 1;
    var outh: int := (g.height - 1) / g.stride + 1;
    MulMono(0, imageNum, input.cols);
    var imageStartIn: nat := imageNum * input.cols;
    var imageStartOut: int := imageNum * out.cols;
    for channel := 0 to g.channels
      invariant Filled(out.data[..], Y, imageStartOut + outw * outh * channel)
    {
      PoolChannel(input, out, g, X, Y, imageNum, channel, outw, outh, imageStartIn, imageStartOut);
    }
    MulSplit(imageNum, 1, PoolCols(g));
  }

  /** The window loops of forward_maxpool_layer for channel `channel` of example `imageNum`. */
  method PoolChannel(input: Matrix, out: Matrix, g: Geometry, ghost X: Mat, ghost Y: seq<real>, imageNum: nat, channel: nat,
                     outw: int, outh: int, imageStartIn: nat, imageStartOut: int)
    requires Sound(g) && input.Valid() && out.Valid() && out.data != input.data
    requires X == input.Value() && X.cols == ImageSize(g) && Y == PoolForward(X, g).data
    requires out.rows == X.rows && out.cols == PoolCols(g) && imageNum < X.rows && WindowsFit(g)
    requires channel < g.channels && outw == OutW(g) && outh == OutH(g)
    requires imageStartIn == imageNum * X.cols && imageStartOut == imageNum * PoolCols(g)
    requires Filled(out.data[..], Y, imageStartOut + outw * outh * channel)
    modifies out.data
    ensures Filled(out.data[..], Y, imageStartOut + outw * outh * (channel + 1))
  {
    var channelIn: int := g.width * g.height * channel;
    var channelOut: int := outw * outh * channel;
    for r := 0 to outh
      invariant Filled(out.data[..], Y, imageStartOut + channelOut + r * outw)
    {
      var kernCenterRow: int := r * g.stride;
      var rowOut: int := kernCenterRow * outw / g.stride;
      PoolWindowRow(input, out, g, X, Y, imageNum, channel, r, outw, imageStartIn, imageStartOut + channelOut,
                    channelIn, kernCenterRow, rowOut);
    }
    NextBlock(outw, outh, channel);
  }

  /** The windows of output row `r` of channel `channel` of example `imageNum`. */
  method PoolWindowRow(input: Matrix, out: Matrix, g: Geometry, ghost X: Mat, ghost Y: seq<real>, imageNum: nat, channel: nat,
                       r: nat, outw: int, imageStartIn: nat, base: int, channelIn: int, kernCenterRow: int, rowOut: int)
    requires Sound(g) && input.Valid() && out.Valid() && out.data != input.data
    requires X == input.Value() && X.cols == ImageSize(g) && Y == PoolForward(X, g).data
    requires out.rows == X.rows && out.cols == PoolCols(g) && imageNum < X.rows && WindowsFit(g)
    requires channel < g.channels && r < OutH(g) && outw == OutW(g)
    requires imageStartIn == imageNum * X.cols && base == imageNum * PoolCols(g) + OutW(g) * OutH(g) * channel
    requires channelIn == g.width * g.height * channel && kernCenterRow == r * g.stride && rowOut == kernCenterRow * outw / g.stride
    requires Filled(out.data[..], Y, base + r * outw)
    modifies out.data
    ensures Filled(out.data[..], Y, base + (r + 1) * outw)
  {
    for cc := 0 to outw
      invariant Filled(out.data[..], Y, base + r * outw + cc)
    {
      var kernCenterCol: int := cc * g.stride;
      var colOut: int := kernCenterCol / g.stride;
      PoolWindow(input, out, g, X, Y, imageNum, channel, r, cc, imageStartIn, base + r * outw + cc,
                 channelIn, kernCenterRow, kernCenterCol, base + rowOut + colOut);
    }
    MulSplit(r, 1, outw);
  }

  /** Block `c + 1` of `a*b` values starts `b*a` values after block `c`. */
  lemma NextBlock(a: int, b: int, c: int)
    ensures a * b * c + b * a == a * b * (c + 1)
  {
  }

  /** One window of forward_maxpool_layer: its maximum, written at `out_pixel`. */
  method PoolWindow(input: Matrix, out: Matrix, g: Geometry, ghost X: Mat, ghost Y: seq<real>,
                    imageNum: nat, channel: nat, r: nat, cc: nat, imageStartIn: nat, ghost at: int,
                    channelIn: int, kernCenterRow: int, kernCenterCol: int, outPixel: int)
    requires Sound(g) && input.Valid() && out.Valid() && out.data != input.data
    requires X == input.Value() && X.cols == ImageSize(g) && Y == PoolForward(X, g).data
    requires out.rows == X.rows && out.cols == PoolCols(g) && imageNum < X.rows && WindowsFit(g)
    requires channel < g.channels && r < OutH(g) && cc < OutW(g)
    requires imageStartIn == imageNum * X.cols && channelIn == g.width * g.height * channel
    requires kernCenterRow == r * g.stride && kernCenterCol == cc * g.stride
    requires at == imageNum * PoolCols(g) + OutW(g) * OutH(g) * channel + r * OutW(g) + cc
    requires outPixel == imageNum * PoolCols(g) + OutW(g) * OutH(g) * channel + kernCenterRow * OutW(g) / g.stride + kernCenterCol / g.stride
    requires Filled(out.data[..], Y, at)
    modifies out.data
    ensures Filled(out.data[..], Y, at + 1)
  {
    ghost var im := Example(X, imageNum);
    assert imageStartIn + ImageSize(g) <= input.data.Length && im == input.data[imageStartIn..imageStartIn + ImageSize(g)];
    CentreColumn(g, r, cc);
    assert outPixel == at;
    ForwardAt(X, g, imageNum, channel, r, cc);
    var max := WindowMax(input.data, im, g, channel, r, cc, imageStartIn, channelIn, kernCenterRow, kernCenterCol);
    FilledStep(out.data[..], Y, at, max);
    out.data[outPixel] := max;
  }

  /** Writing `y[at]` at `at` extends the finished prefix by one entry. */
  lemma FilledStep(d: seq<real>, y: seq<real>, at: int, v: real)
    requires Filled(d, y, at) && at < |y| && v == y[at]
    ensures Filled(d[at := v], y, at + 1)
  {
  }

  /** `m` is the running maximum after the first `t` positions of a scan. */
  predicate MaxSoFar(m: real, vals: seq<real>, ok: seq<bool>, init: real, t: int)
  {
    0 <= t <= |vals| && t <= |ok| && m == RunMax(vals, ok, init, t).value
  }

  /** The kernel loops of forward_maxpool_layer: the pooled value of window `(r, cc)` of channel `channel`. */
  method WindowMax(src: array<real>, ghost im: seq<real>, g: Geometry, channel: nat, r: nat, cc: nat,
                   imageStartIn: nat, channelIn: int, kernCenterRow: int, kernCenterCol: int) returns (max: real)
    requires Sound(g) && WindowsFit(g) && imageStartIn + ImageSize(g) <= src.Length
    requires im == src[imageStartIn..imageStartIn + ImageSize(g)]
    requires channel < g.channels && r < OutH(g) && cc < OutW(g) && channelIn == g.width * g.height * channel
    requires kernCenterRow == r * g.stride && kernCenterCol == cc * g.stride
    ensures max == PoolMax(im, g, channel, r, cc)
  {
    ghost var vals, ok := WindowVals(im, g, channel, r, cc), WindowOk(g, r, cc);
    var lo, hi := CDiv(-(g.size - 1), 2), g.size / 2 + 1;
    assert lo == FirstOffset(g) && hi == EndOffset(g);
    max := FltMin;
    ghost var t := 0;
    for dr := lo to hi
      invariant t == (dr - lo) * g.size && MaxSoFar(max, vals, ok, FltMin, t)
    {
      for dc := lo to hi
        invariant t == (dr - lo) * g.size + (dc - lo) && MaxSoFar(max, vals, ok, FltMin, t)
      {
        max := ForwardScanStep(src, im, g, channel, r, cc, dr - lo, dc - lo, t,
                               imageStartIn, channelIn, kernCenterRow, kernCenterCol, dr, dc, max);
        t := t + 1;
      }
      MulSplit(dr - lo, 1, g.size);
    }
  }

  /** The body of forward_maxpool_layer's innermost loop, at kernel position `(kr, kc)`, scan position `t`. */
  method ForwardScanStep(src: array<real>, ghost im: seq<real>, g: Geometry, channel: nat, r: nat, cc: nat,
                         ghost kr: int, ghost kc: int, ghost t: int, imageStartIn: nat, channelIn: int,
                         kernCenterRow: int, kernCenterCol: int, innerKernRow: int, innerKernCol: int, max: real)
    returns (max': real)
    requires Sound(g) && WindowsFit(g) && imageStartIn + ImageSize(g) <= src.Length
    requires im == src[imageStartIn..imageStartIn + ImageSize(g)]
    requires channel < g.channels && r < OutH(g) && cc < OutW(g) && channelIn == g.width * g.height * channel
    requires kernCenterRow == r * g.stride && kernCenterCol == cc * g.stride
    requires 0 <= kr < g.size && 0 <= kc < g.size && t == kr * g.size + kc
    requires innerKernRow == kr - Half(g) && innerKernCol == kc - Half(g)
    requires MaxSoFar(max, WindowVals(im, g, channel, r, cc), WindowOk(g, r, cc), FltMin, t)
    ensures MaxSoFar(max', WindowVals(im, g, channel, r, cc), WindowOk(g, r, cc), FltMin, t + 1)
  {
    var cols := g.width * g.height * g.channels;
    ImageNonEmpty(g);
    var rowIn := g.width * (kernCenterRow + innerKernRow);
    var colIn := kernCenterCol + innerKernCol;
    var inPixel := imageStartIn + channelIn + rowIn + colIn;
    ForwardRead(im, g, channel, r, cc, kr, kc, t, rowIn, colIn, channelIn + rowIn + colIn);
    max' := max;
    if !(rowIn < 0 || colIn < 0 || rowIn / cols >= g.height || colIn >= g.width) && src[inPixel] > max {
      max' := src[inPixel];
    }
  }

  /** An image with at least one channel has at least one value. */
  lemma ImageNonEmpty(g: Geometry)
    requires Sound(g) && g.channels >= 1
    ensures ImageSize(g) >= 1
  {
    MulMono(1, g.height, g.width);
    MulMono(1, g.channels, g.width * g.height);
  }

  /**
   * At scan position `t`, forward's test on `row_in` and `col_in` passes
   * exactly when the position lies in the image, and then `in_pixel` is the
   * offset of the value the scan looks at.
   */
  lemma ForwardRead(im: seq<real>, g: Geometry, channel: int, r: int, cc: int, kr: int, kc: int, t: int,
                    rowIn: int, colIn: int, p: int)
    requires Sound(g) && WindowsFit(g) && |im| == ImageSize(g)
    requires 0 <= channel < g.channels && 0 <= r < OutH(g) && 0 <= cc < OutW(g)
    requires 0 <= kr < g.size && 0 <= kc < g.size && t == kr * g.size + kc
    requires rowIn == g.width * WinY(g, r, kr) && colIn == WinX(g, cc, kc)
    requires p == g.width * g.height * channel + rowIn + colIn
    ensures ImageSize(g) >= 1 && 0 <= t < g.size * g.size
    ensures !ForwardRejects(g, ImageSize(g), rowIn, colIn) == WindowOk(g, r, cc)[t]
    ensures WindowOk(g, r, cc)[t] ==> 0 <= p < |im| && WindowVals(im, g, channel, r, cc)[t] == im[p]
  {
    ImageNonEmpty(g);
    WindowEntry(im, g, channel, r, cc, kr, kc);
    ForwardGuardExact(g, r, kr, colIn);
    if WinOk(g, r, cc, kr, kc) {
      PixelInBounds(g, channel, WinY(g, r, kr), colIn);
    }
  }

  // ---------------------------------------------------------------------------
  // backward_maxpool_layer, loop by loop

  /**
   * The loops of backward_maxpool_layer (lines 70-128) over the cached batch
   * `x`: a fresh zero matrix to which the gradient of every window is added
   * at the window's maximum, one window at a time, in order.
   */
  method RouteRows(x: Matrix, dy: Matrix, g: Geometry, debug: bool) returns (dx: Matrix)
    requires Sound(g) && x.Valid() && dy.Valid() && x.cols == ImageSize(g) && dy.cols == PoolCols(g) && x.rows <= dy.rows
    requires AboveFloor(x.data[..])
    ensures dx.Valid() && fresh(dx.data)
    ensures dx.Value() == PoolBackward(x.Value(), dy.Value(), g)
  {
    ghost var X, DY := x.Value(), dy.Value();
    assert X.cols == ImageSize(g) && DY.cols == PoolCols(g) && X.rows <= DY.rows;
    assert 0 <= X.rows * PoolCols(g) <= |DY.data| by { MulMono(0, X.rows, PoolCols(g)); MulMono(X.rows, DY.rows, PoolCols(g)); }
    ghost var c, dst := DY.data[..X.rows * PoolCols(g)], PoolRoutes(X, g);
    dx := MakeMatrix(dy.rows, g.width * g.height * g.channels, debug);
    RoutedStart(dx.data[..], c, dst);
    RouteImages(x, dy, dx, g, X, DY, c, dst);
    RoutedAll(dx.data[..], X, DY, g, c, dst, X.rows * PoolCols(g));
  }

  /** The loop over the examples of `RouteRows`. */
  method RouteImages(x: Matrix, dy: Matrix, dx: Matrix, g: Geometry, ghost X: Mat, ghost DY: Mat,
                     ghost c: seq<real>, ghost dst: seq<int>)
    requires RouteFrame(x, dy, dx, g, X, DY, c, dst) && dx.data != x.data && dx.data != dy.data
    requires RoutedTo(dx.data[..], c, dst, 0)
    modifies dx.data
    ensures RouteFrame(x, dy, dx, g, X, DY, c, dst) && RoutedTo(dx.data[..], c, dst, X.rows * PoolCols(g))
  {
    ghost var t := 0;
    var outw: int := (g.width - 1) / g.stride + 1;
    var outh: int := (g.height - 1) / g.stride + 1;
    for imageNum := 0 to x.rows
      invariant RouteFrame(x, dy, dx, g, X, DY, c, dst)
      invariant t == imageNum * PoolCols(g) && RoutedTo(dx.data[..], c, dst, t)
    {
      t := RouteImage(x, dy, dx, g, X, DY, c, dst, imageNum, outw, outh, t);
      MulSplit(imageNum, 1, PoolCols(g));
    }
  }

  /**
   * What backward's nested loops share: the cached batch `X` in `x`, the
   * gradient `DY` in `dy`, the gradient values `c` that the batch's windows
   * scatter along the routes `dst`, and a target `dx` shaped like `dy`'s rows.
   */
  ghost predicate RouteFrame(x: Matrix, dy: Matrix, dx: Matrix, g: Geometry, X: Mat, DY: Mat, c: seq<real>, dst: seq<int>)
    reads x.data, dy.data
  {
    && x.Valid() && dy.Valid() && dx.Valid() && X == x.Value() && DY == dy.Value()
    && PoolBatch(X, DY, g) && dx.rows == DY.rows && dx.cols == ImageSize(g)
    && X.rows * PoolCols(g) <= |DY.data| && c == DY.data[..X.rows * PoolCols(g)] && dst == PoolRoutes(X, g)
  }

  /** What backward demands of the cached batch `X` and the gradient `DY`. */
  predicate PoolBatch(X: Mat, DY: Mat, g: Geometry)
  {
    Sound(g) && X.cols == ImageSize(g) && DY.cols == PoolCols(g) && X.rows <= DY.rows && AboveFloor(X.data)
  }

  /** The state of backward's scatter of `c` along `dst`: the first `t` values are added to `d`. */
  ghost predicate RoutedTo(d: seq<real>, c: seq<real>, dst: seq<int>, t: int)
  {
    0 <= t && |c| == |dst| && Scattered(d, c, dst, InOrder(|c|), t)
  }

  /** A zeroed target is the state before the first step. */
  lemma RoutedStart(d: seq<real>, c: seq<real>, dst: seq<int>)
    requires |c| == |dst| && forall p :: 0 <= p < |d| ==> d[p] == 0.0
    ensures RoutedTo(d, c, dst, 0)
  {
    ScatteredStart(d, c, dst, InOrder(|c|));
  }

  /** Once every window of `X` has run, `d` is the buffer of backward's result. */
  lemma RoutedAll(d: seq<real>, X: Mat, DY: Mat, g: Geometry, c: seq<real>, dst: seq<int>, t: int)
    requires Sound(g) && X.cols == ImageSize(g) && DY.cols == PoolCols(g) && X.rows <= DY.rows
    requires X.rows * PoolCols(g) <= |DY.data| && c == DY.data[..X.rows * PoolCols(g)] && dst == PoolRoutes(X, g)
    requires |d| == DY.rows * ImageSize(g) && t == |c| && RoutedTo(d, c, dst, t)
    ensures d == PoolBackward(X, DY, g).data
  {
    ScatteredAll(d, c, dst, InOrder(|c|), t);
  }

  /** Over a batch above `-FLT_MAX`, every window of every example finds a maximum. */
  lemma ExampleArgFound(X: Mat, g: Geometry, i: nat, ch: nat, r: nat, cc: nat)
    requires Sound(g) && X.cols == ImageSize(g) && AboveFloor(X.data)
    requires i < X.rows && ch < g.channels && r < OutH(g) && cc < OutW(g)
    ensures BackwardScan(Example(X, i), g, ch, r, cc).at >= 0
  {
    ExampleAboveFloor(X, i);
    PoolArgFound(Example(X, i), g, ch, r, cc);
  }

  /** Adding value `t` at its target `p` is the scatter's step `t`. */
  lemma RoutedStep(d: seq<real>, c: seq<real>, dst: seq<int>, t: int, p: int)
    requires RoutedTo(d, c, dst, t) && t < |c| && dst[t] == p && 0 <= p < |d|
    ensures RoutedTo(d[p := d[p] + c[t]], c, dst, t + 1)
  {
    ScatteredStep(d, c, dst, InOrder(|c|), t, t);
  }

  /** The channel loop of backward_maxpool_layer for example `imageNum`, scatter steps `t` to `t + outw*outh*c`. */
  method RouteImage(x: Matrix, dy: Matrix, dx: Matrix, g: Geometry, ghost X: Mat, ghost DY: Mat, ghost c: seq<real>, ghost dst: seq<int>,
                    imageNum: nat, outw: int, outh: int, ghost t: int) returns (ghost t': int)
    requires RouteFrame(x, dy, dx, g, X, DY, c, dst) && dx.data != x.data && dx.data != dy.data
    requires imageNum < X.rows && outw == OutW(g) && outh == OutH(g)
    requires t == imageNum * PoolCols(g) && RoutedTo(dx.data[..], c, dst, t)
    modifies dx.data
    ensures t' == t + PoolCols(g) && RoutedTo(dx.data[..], c, dst, t')
  {
    MulMono(0, imageNum, x.cols);
    var imageStartIn: nat := x.cols * imageNum;
    var imageStartDy: int := dy.cols * imageNum;
    assert imageStartIn == imageNum * X.cols && imageStartDy == t;
    t' := t;
    for channel := 0 to g.channels
      invariant t' == t + outw * outh * channel && RoutedTo(dx.data[..], c, dst, t')
    {
      t' := RouteChannel(x, dy, dx, g, X, DY, c, dst, imageNum, channel, outw, outh, imageStartIn, imageStartDy, t');
      NextBlock(outw, outh, channel);
    }
  }

  /** The window loops of backward_maxpool_layer for channel `channel` of example `imageNum`, `outw*outh` scatter steps from `t`. */
  method RouteChannel(x: Matrix, dy: Matrix, dx: Matrix, g: Geometry, ghost X: Mat, ghost DY: Mat, ghost c: seq<real>, ghost dst: seq<int>,
                      imageNum: nat, channel: nat,
                      outw: int, outh: int, imageStartIn: nat, imageStartDy: int, ghost t: int) returns (ghost t': int)
    requires RouteFrame(x, dy, dx, g, X, DY, c, dst) && dx.data != x.data && dx.data != dy.data
    requires imageNum < X.rows && channel < g.channels && outw == OutW(g) && outh == OutH(g)
    requires imageStartIn == imageNum * X.cols && imageStartDy == imageNum * PoolCols(g)
    requires t == imageStartDy + outw * outh * channel && RoutedTo(dx.data[..], c, dst, t)
    modifies dx.data
    ensures t' == t + outw * outh && RoutedTo(dx.data[..], c, dst, t')
  {
    var channelIn: int := g.width * g.height * channel;
    var channelDy: int := outw * outh * channel;
    t' := t;
    for r := 0 to outh
      invariant t' == t + r * outw && RoutedTo(dx.data[..], c, dst, t')
    {
      var kernCenterRow: int := r * g.stride;
      var rowOut: int := kernCenterRow * outw / g.stride;
      assert rowOut == r * outw by { ScaledColumn(r, 0, g.stride, outw); }
      t' := RouteWindowRow(x, dy, dx, g, X, DY, c, dst, imageNum, channel, r, outw, imageStartIn, imageStartDy + channelDy,
                           channelIn, kernCenterRow, rowOut, t');
      MulSplit(r, 1, outw);
    }
    assert outh * outw == outw * outh;
  }

  /** The windows of output row `r` of channel `channel` of example `imageNum`, `outw` scatter steps from `t`. */
  method RouteWindowRow(x: Matrix, dy: Matrix, dx: Matrix, g: Geometry, ghost X: Mat, ghost DY: Mat, ghost c: seq<real>, ghost dst: seq<int>,
                        imageNum: nat, channel: nat, r: nat, outw: int, imageStartIn: nat, base: int,
                        channelIn: int, kernCenterRow: int, rowOut: int, ghost t: int) returns (ghost t': int)
    requires RouteFrame(x, dy, dx, g, X, DY, c, dst) && dx.data != x.data && dx.data != dy.data
    requires imageNum < X.rows && channel < g.channels && r < OutH(g) && outw == OutW(g)
    requires imageStartIn == imageNum * X.cols && base == imageNum * PoolCols(g) + OutW(g) * OutH(g) * channel
    requires channelIn == g.width * g.height * channel && kernCenterRow == r * g.stride && rowOut == r * outw
    requires t == base + rowOut && RoutedTo(dx.data[..], c, dst, t)
    modifies dx.data
    ensures t' == t + outw && RoutedTo(dx.data[..], c, dst, t')
  {
    t' := t;
    for cc := 0 to outw
      invariant t' == t + cc && RoutedTo(dx.data[..], c, dst, t')
    {
      var kernCenterCol: int := cc * g.stride;
      var colOut: int := kernCenterCol / g.stride;
      assert colOut == cc by { DivMod(cc, 0, g.stride); }
      RouteWindow(x, dy, dx, g, X, DY, c, dst, imageNum, channel, r, cc, imageStartIn,
                  channelIn, kernCenterRow, kernCenterCol, base + rowOut + colOut, t');
      t' := t' + 1;
    }
  }

  /** One window of backward_maxpool_layer, scatter step `t`: `dx.data[dx_pixel] += dy.data[dy_pixel]` at the window's maximum. */
  method RouteWindow(x: Matrix, dy: Matrix, dx: Matrix, g: Geometry, ghost X: Mat, ghost DY: Mat, ghost c: seq<real>, ghost dst: seq<int>,
                     imageNum: nat, channel: nat, r: nat, cc: nat, imageStartIn: nat, channelIn: int,
                     kernCenterRow: int, kernCenterCol: int, dyPixel: int, ghost t: int)
    requires RouteFrame(x, dy, dx, g, X, DY, c, dst) && dx.data != x.data && dx.data != dy.data
    requires imageNum < X.rows && channel < g.channels && r < OutH(g) && cc < OutW(g)
    requires imageStartIn == imageNum * X.cols && channelIn == g.width * g.height * channel
    requires kernCenterRow == r * g.stride && kernCenterCol == cc * g.stride
    requires dyPixel == imageNum * PoolCols(g) + OutW(g) * OutH(g) * channel + r * OutW(g) + cc
    requires t == dyPixel && RoutedTo(dx.data[..], c, dst, t)
    modifies dx.data
    ensures RoutedTo(dx.data[..], c, dst, t + 1)
  {
    ghost var im := Example(X, imageNum);
    assert imageStartIn + ImageSize(g) <= x.data.Length && im == x.data[imageStartIn..imageStartIn + ImageSize(g)];
    var maxRow, maxCol := WindowArg(x.data, im, g, channel, r, cc, imageStartIn, channelIn, kernCenterRow, kernCenterCol);
    var dxPixel := imageStartIn + channelIn + g.width * (kernCenterRow + maxRow) + kernCenterCol + maxCol;
    RouteTarget(X, DY, g, imageNum, channel, r, cc, t, maxRow, maxCol, dxPixel);
    assert maxRow != CDiv(-(g.size - 1), 2) - 1;
    assert maxCol != CDiv(-(g.size - 1), 2) - 1;
    RoutedStep(dx.data[..], c, dst, t, dxPixel);
    dx.data[dxPixel] := dx.data[dxPixel] + dy.data[dyPixel];
  }

  /**
   * Window `(r, cc)` of channel `ch` of example `imageNum` is the scatter's
   * step `t`: its scan finds a maximum, so the asserts of the C code hold,
   * and it writes `dx` at `dx_pixel`, its scatter target, which lies inside `dx`.
   */
  lemma RouteTarget(X: Mat, DY: Mat, g: Geometry, imageNum: int, ch: int, r: int, cc: int,
                    t: int, maxRow: int, maxCol: int, dxPixel: int)
    requires PoolBatch(X, DY, g)
    requires 0 <= imageNum < X.rows && 0 <= ch < g.channels && 0 <= r < OutH(g) && 0 <= cc < OutW(g)
    requires t == imageNum * PoolCols(g) + OutW(g) * OutH(g) * ch + r * OutW(g) + cc
    requires var b := BackwardScan(Example(X, imageNum), g, ch, r, cc);
      if b.at < 0 then maxRow == FirstOffset(g) - 1 && maxCol == FirstOffset(g) - 1
      else maxRow == b.at / g.size - Half(g) && maxCol == b.at % g.size - Half(g)
    requires dxPixel == imageNum * X.cols + g.width * g.height * ch + g.width * (r * g.stride + maxRow) + cc * g.stride + maxCol
    ensures maxRow != FirstOffset(g) - 1 && maxCol != FirstOffset(g) - 1
    ensures 0 <= t < X.rows * PoolCols(g)
    ensures PoolRoutes(X, g)[t] == dxPixel && 0 <= dxPixel < DY.rows * ImageSize(g)
  {
    ExampleArgFound(X, g, imageNum, ch, r, cc);
    var at := BackwardScan(Example(X, imageNum), g, ch, r, cc).at;
    DivNonNeg(at, g.size);
    RouteTargetFound(X, DY, g, imageNum, ch, r, cc, t, maxRow, maxCol, dxPixel);
  }

  /** `RouteTarget` once the scan is known to have found a maximum. */
  lemma RouteTargetFound(X: Mat, DY: Mat, g: Geometry, imageNum: int, ch: int, r: int, cc: int,
                         t: int, maxRow: int, maxCol: int, dxPixel: int)
    requires PoolBatch(X, DY, g)
    requires 0 <= imageNum < X.rows && 0 <= ch < g.channels && 0 <= r < OutH(g) && 0 <= cc < OutW(g)
    requires t == imageNum * PoolCols(g) + OutW(g) * OutH(g) * ch + r * OutW(g) + cc
    requires var b := BackwardScan(Example(X, imageNum), g, ch, r, cc);
      b.at >= 0 && maxRow == b.at / g.size - Half(g) && maxCol == b.at % g.size - Half(g)
    requires dxPixel == imageNum * X.cols + g.width * g.height * ch + g.width * (r * g.stride + maxRow) + cc * g.stride + maxCol
    ensures 0 <= t < X.rows * PoolCols(g)
    ensures PoolRoutes(X, g)[t] == dxPixel && 0 <= dxPixel < DY.rows * ImageSize(g)
  {
    var im := Example(X, imageNum);
    assert dxPixel == imageNum * X.cols + PoolArg(im, g, ch, r, cc) by {
      var at := BackwardScan(im, g, ch, r, cc).at;
      ExampleAboveFloor(X, imageNum);
      PoolArgFound(im, g, ch, r, cc);
      assert r * g.stride + maxRow == WinY(g, r, at / g.size) && cc * g.stride + maxCol == WinX(g, cc, at % g.size);
    }
    assert 0 <= t < X.rows * PoolCols(g) && PoolRoutes(X, g)[t] == imageNum * X.cols + PoolArg(im, g, ch, r, cc) by {
      ExampleAboveFloor(X, imageNum);
      PoolArgInChannel(im, g, ch, r, cc);
      RouteAt(X, g, imageNum, ch, r, cc);
    }
    RouteInBatch(X, g, DY.rows, t);
  }

  /**
   * `maxRow` and `maxCol` record where the running maximum of the first `t`
   * positions of a backward scan was taken from, as kernel offsets, and
   * `-(size-1)/2 - 1` before any was taken.
   */
  predicate ArgSoFar(m: real, maxRow: int, maxCol: int, vals: seq<real>, ok: seq<bool>, g: Geometry, t: int)
    requires Sound(g)
  {
    && 0 <= t <= |vals| && t <= |ok|
    && var b := RunMax(vals, ok, -FltMax, t);
    && m == b.value
    && if b.at < 0 then maxRow == FirstOffset(g) - 1 && maxCol == FirstOffset(g) - 1
       else maxRow == b.at / g.size - Half(g) && maxCol == b.at % g.size - Half(g)
  }

  /** The kernel loops of backward_maxpool_layer: the kernel offsets of the maximum of window `(r, cc)` of channel `channel`. */
  method WindowArg(src: array<real>, ghost im: seq<real>, g: Geometry, channel: nat, r: nat, cc: nat,
                   imageStartIn: nat, channelIn: int, kernCenterRow: int, kernCenterCol: int)
    returns (maxRow: int, maxCol: int)
    requires Sound(g) && imageStartIn + ImageSize(g) <= src.Length
    requires im == src[imageStartIn..imageStartIn + ImageSize(g)]
    requires channel < g.channels && r < OutH(g) && cc < OutW(g) && channelIn == g.width * g.height * channel
    requires kernCenterRow == r * g.stride && kernCenterCol == cc * g.stride
    ensures var b := BackwardScan(im, g, channel, r, cc);
      if b.at < 0 then maxRow == FirstOffset(g) - 1 && maxCol == FirstOffset(g) - 1
      else maxRow == b.at / g.size - Half(g) && maxCol == b.at % g.size - Half(g)
  {
    ghost var vals, ok := WindowVals(im, g, channel, r, cc), WindowOk(g, r, cc);
    var lo, hi := CDiv(-(g.size - 1), 2), g.size / 2 + 1;
    assert lo == FirstOffset(g) && hi == EndOffset(g);
    var max := -FltMax;
    maxRow := lo - 1;
    maxCol := lo - 1;
    ghost var t := 0;
    for dr := lo to hi
      invariant t == (dr - lo) * g.size && ArgSoFar(max, maxRow, maxCol, vals, ok, g, t)
    {
      for dc := lo to hi
        invariant t == (dr - lo) * g.size + (dc - lo) && ArgSoFar(max, maxRow, maxCol, vals, ok, g, t)
      {
        max, maxRow, maxCol := BackwardScanStep(src, im, g, channel, r, cc, dr - lo, dc - lo, t,
                                                imageStartIn, channelIn, kernCenterRow, kernCenterCol, dr, dc,
                                                max, maxRow, maxCol);
        t := t + 1;
      }
      MulSplit(dr - lo, 1, g.size);
    }
  }

  /** The body of backward_maxpool_layer's innermost loop, at kernel position `(kr, kc)`, scan position `t`. */
  method BackwardScanStep(src: array<real>, ghost im: seq<real>, g: Geometry, channel: nat, r: nat, cc: nat,
                          ghost kr: int, ghost kc: int, ghost t: int, imageStartIn: nat, channelIn: int,
                          kernCenterRow: int, kernCenterCol: int, innerKernRow: int, innerKernCol: int,
                          max: real, maxRow: int, maxCol: int)
    returns (max': real, maxRow': int, maxCol': int)
    requires Sound(g) && imageStartIn + ImageSize(g) <= src.Length
    requires im == src[imageStartIn..imageStartIn + ImageSize(g)]
    requires channel < g.channels && r < OutH(g) && cc < OutW(g) && channelIn == g.width * g.height * channel
    requires kernCenterRow == r * g.stride && kernCenterCol == cc * g.stride
    requires 0 <= kr < g.size && 0 <= kc < g.size && t == kr * g.size + kc
    requires innerKernRow == kr - Half(g) && innerKernCol == kc - Half(g)
    requires ArgSoFar(max, maxRow, maxCol, WindowVals(im, g, channel, r, cc), WindowOk(g, r, cc), g, t)
    ensures ArgSoFar(max', maxRow', maxCol', WindowVals(im, g, channel, r, cc), WindowOk(g, r, cc), g, t + 1)
  {
    var rowIn := g.width * (kernCenterRow + innerKernRow);
    var colIn := kernCenterCol + innerKernCol;
    var inPixel := imageStartIn + channelIn + rowIn + colIn;
    BackwardRead(im, g, channel, r, cc, kr, kc, t, rowIn, colIn, channelIn + rowIn + colIn);
    max', maxRow', maxCol' := max, maxRow, maxCol;
    if !(rowIn < 0 || colIn < 0 || rowIn / g.width >= g.height || colIn >= g.width) {
      if src[inPixel] > max {
        max' := src[inPixel];
        maxRow' := innerKernRow;
        maxCol' := innerKernCol;
      }
    }
  }

  /**
   * At scan position `t`, backward's test on `row_in` and `col_in` passes
   * exactly when the position lies in the image, and then `in_pixel` is the
   * offset of the value the scan looks at.
   */
  lemma BackwardRead(im: seq<real>, g: Geometry, channel: int, r: int, cc: int, kr: int, kc: int, t: int,
                     rowIn: int, colIn: int, p: int)
    requires Sound(g) && |im| == ImageSize(g)
    requires 0 <= channel < g.channels && 0 <= kr < g.size && 0 <= kc < g.size && t == kr * g.size + kc
    requires rowIn == g.width * WinY(g, r, kr) && colIn == WinX(g, cc, kc)
    requires p == g.width * g.height * channel + rowIn + colIn
    ensures 0 <= t < g.size * g.size && t / g.size == kr && t % g.size == kc
    ensures !Outside(g, rowIn, colIn) == WindowOk(g, r, cc)[t]
    ensures WindowOk(g, r, cc)[t] ==> 0 <= p < |im| && WindowVals(im, g, channel, r, cc)[t] == im[p]
  {
    ScanAt(g, kr, kc);
    WindowEntry(im, g, channel, r, cc, kr, kc);
    OutsideIff(g, WinY(g, r, kr), colIn);
    if WinOk(g, r, cc, kr, kc) {
      PixelInBounds(g, channel, WinY(g, r, kr), colIn);
    }
  }

  // ---------------------------------------------------------------------------
  // The layer object

  class MaxpoolLayer {
    const width: nat
    const height: nat
    const channels: nat
    const size: nat
    const stride: nat
    /** The cached input, `*l.x`. */
    var x: Matrix

    /** The layer's window geometry. */
    function Geom(): Geometry
    {
      Geometry(width, height, channels, size, stride)
    }

    /** The cached input is a well-formed matrix. */
    predicate Valid()
      reads this
    {
      x.Valid()
    }

    /** make_maxpool_layer (lines 141-154): the given geometry and an empty cached input. */
    constructor (width: nat, height: nat, channels: nat, size: nat, stride: nat)
      ensures Valid() && fresh(x.data)
      ensures this.width == width && this.height == height && this.channels == channels
      ensures this.size == size && this.stride == stride
      ensures x.rows == 0 && x.cols == 0
    {
      this.width, this.height, this.channels := width, height, channels;
      this.size, this.stride := size, stride;
      var empty := new real[0];
      this.x := new Matrix(0, 0, empty);
    }

    /**
     * forward_maxpool_layer (lines 12-62): caches a copy of `input` and
     * returns, for every example, channel and window, the window's maximum.
     */
    method Forward(input: Matrix, debug: bool) returns (y: Matrix)
      requires Valid() && Sound(Geom()) && input.Valid() && input.cols == ImageSize(Geom())
      requires input.rows == 0 || channels == 0 || WindowsFit(Geom())
      modifies this
      ensures Valid() && fresh(x.data) && x.Value() == input.Value()
      ensures y.Valid() && fresh(y.data)
      ensures y.Value() == PoolForward(input.Value(), Geom())
    {
      x := CopyMatrix(input, debug);
      y := PoolRows(input, Geom(), debug);
    }

    /**
     * backward_maxpool_layer (lines 67-129): a zero `dx` with the rows of
     * `dy`, to which each window's gradient is added at the window's maximum
     * in the cached input.
     */
    method Backward(dy: Matrix, debug: bool) returns (dx: Matrix)
      requires Valid() && Sound(Geom()) && dy.Valid()
      requires x.cols == ImageSize(Geom()) && dy.cols == PoolCols(Geom()) && x.rows <= dy.rows
      requires AboveFloor(x.data[..])
      ensures dx.Valid() && fresh(dx.data)
      ensures dx.Value() == PoolBackward(x.Value(), dy.Value(), Geom())
    {
      dx := RouteRows(x, dy, Geom(), debug);
    }

    /** update_maxpool_layer (line 133): a maxpool layer has no parameters, so nothing changes. */
    method Update(rate: real, momentum: real, decay: real)
      requires Valid()
      ensures Valid() && x.Value() == old(x.Value())
    {
    }
  }
}
