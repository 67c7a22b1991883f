/**
 * The window arithmetic shared by im2col, col2im and the maxpool layer
 * (src/convolutional_layer.c, src/maxpool_layer.c).  An image holds
 * `width * height * channels` values, channel after channel and row after row
 * within a channel, so pixel `(x, y)` of channel `ch` sits at offset
 * `width*height*ch + width*y + x`.  Windows of `size x size` pixels are centred
 * at every `stride`-th row and column, starting at 0.
 */
module Windows {
  import opened Arith

  /** The fixed geometry fields of a convolutional or maxpool layer. */
  datatype Geometry = Geometry(width: nat, height: nat, channels: nat, size: nat, stride: nat)

  /**
   * The geometries the index arithmetic is meant for.  With a zero stride the
   * C code divides by zero, with a zero width it divides by the width, and
   * with a zero size it writes one kernel offset into a matrix with no rows.
   */
  predicate Sound(g: Geometry)
  {
    g.width >= 1 && g.height >= 1 && g.size >= 1 && g.stride >= 1
  }

  /** The values in one image. */
  function ImageSize(g: Geometry): nat
  {
    g.width * g.height * g.channels
  }

  /** `(n - 1) / stride + 1`: the number of centres `0, stride, 2*stride, ...` below `n`. */
  function OutDim(n: nat, stride: nat): (k: nat)
    requires n >= 1 && stride >= 1
    ensures k >= 1 && (k - 1) * stride < n <= k * stride
  {
    var q := (n - 1) / stride;
    assert n - 1 == q * stride + (n - 1) % stride;
    assert (q + 1) * stride == q * stride + stride;
    q + 1
  }

  /** `outw`: the number of window centres along a row. */
  function OutW(g: Geometry): nat
    requires Sound(g)
  {
    OutDim(g.width, g.stride)
  }

  /** `outh`: the number of window centres along a column. */
  function OutH(g: Geometry): nat
    requires Sound(g)
  {
    OutDim(g.height, g.stride)
  }

  /** `(size - 1) / 2`: how far a window reaches above and to the left of its centre. */
  function Half(g: Geometry): nat
  {
    if g.size == 0 then 0 else (g.size - 1) / 2
  }

  /** The first kernel offset, `-(size-1)/2` with C's division toward zero. */
  function FirstOffset(g: Geometry): (o: int)
    requires Sound(g)
    ensures o <= 0 && -o == Half(g)
  {
    CDiv(-(g.size - 1), 2)
  }

  /** The bound `size/2 + 1` of the kernel offsets, exclusive; the offsets are exactly `size` many. */
  function EndOffset(g: Geometry): (e: int)
    requires Sound(g)
    ensures e >= 1 && e - FirstOffset(g) == g.size
  {
    var m := g.size / 2;
    assert g.size == 2 * m || g.size == 2 * m + 1;
    m + 1
  }

  /** Pixel `(x, y)` lies inside the image. */
  predicate InImage(g: Geometry, y: int, x: int)
  {
    0 <= y < g.height && 0 <= x < g.width
  }

  /**
   * The bounds test of im2col, col2im and maxpool backward, on
   * `row = width * y` and `col = x`; `||` in C is short-circuit, so the
   * division only sees a non-negative `row`, where C and Dafny agree.
   */
  predicate Outside(g: Geometry, row: int, col: int)
    requires g.width >= 1
  {
    row < 0 || col < 0 || row / g.width >= g.height || col >= g.width
  }

  /** The bounds test rejects exactly the pixels outside the image. */
  lemma OutsideIff(g: Geometry, y: int, x: int)
    requires g.width >= 1
    ensures Outside(g, g.width * y, x) <==> !InImage(g, y, x)
  {
    if y < 0 {
      assert g.width * y < 0 by { MulMono(y, -1, g.width); }
    } else {
      assert g.width * y == y * g.width;
      DivMod(y, 0, g.width);
    }
  }

  /** The offset of pixel `(x, y)` of channel `ch`, as the C code computes it. */
  function PixelIndex(g: Geometry, ch: int, y: int, x: int): int
  {
    g.width * g.height * ch + g.width * y + x
  }

  /** Every pixel inside the image has an offset inside the image buffer. */
  lemma PixelInBounds(g: Geometry, ch: int, y: int, x: int)
    requires 0 <= ch < g.channels && InImage(g, y, x)
    ensures 0 <= PixelIndex(g, ch, y, x) < ImageSize(g)
  {
    FlatBound(y, x, g.height, g.width);
    FlatBound(ch, y * g.width + x, g.channels, g.height * g.width);
    assert g.width * g.height * ch + g.width * y + x == ch * (g.height * g.width) + (y * g.width + x);
    assert g.channels * (g.height * g.width) == ImageSize(g);
  }

  /** Every pixel inside the image has an offset inside its channel's block of `width*height` values. */
  lemma PixelInChannel(g: Geometry, ch: int, y: int, x: int)
    requires InImage(g, y, x)
    ensures g.width * g.height * ch <= PixelIndex(g, ch, y, x) < g.width * g.height * ch + g.width * g.height
  {
    FlatBound(y, x, g.height, g.width);
    assert g.width * y + x == y * g.width + x && g.height * g.width == g.width * g.height;
  }

  /** Different in-image pixels of one image have different offsets. */
  lemma PixelInjective(g: Geometry, ch: int, y: int, x: int, ch': int, y': int, x': int)
    requires 0 <= ch < g.channels && InImage(g, y, x)
    requires 0 <= ch' < g.channels && InImage(g, y', x')
    requires PixelIndex(g, ch, y, x) == PixelIndex(g, ch', y', x')
    ensures ch == ch' && y == y' && x == x'
  {
    FlatBound(y, x, g.height, g.width);
    FlatBound(y', x', g.height, g.width);
    assert PixelIndex(g, ch, y, x) == ch * (g.width * g.height) + (y * g.width + x);
    assert PixelIndex(g, ch', y', x') == ch' * (g.width * g.height) + (y' * g.width + x');
    assert g.width * g.height == g.height * g.width;
    Radix(ch, y * g.width + x, ch', y' * g.width + x', g.width * g.height);
    Radix(y, x, y', x', g.width);
  }

  /** Window centres `(cc*stride, r*stride)` lie inside the image. */
  lemma CentreInImage(g: Geometry, r: nat, cc: nat)
    requires Sound(g) && r < OutH(g) && cc < OutW(g)
    ensures InImage(g, r * g.stride, cc * g.stride)
  {
    MulMono(r, OutH(g) - 1, g.stride);
    MulMono(cc, OutW(g) - 1, g.stride);
  }

  /**
   * The output column `kern_center_row*outw/stride + kern_center_col/stride`
   * of the centre `(cc*stride, r*stride)` is `r*outw + cc`, the row-major
   * position of the window.
   */
  lemma CentreColumn(g: Geometry, r: nat, cc: nat)
    requires Sound(g)
    ensures (r * g.stride) * OutW(g) / g.stride + (cc * g.stride) / g.stride == r * OutW(g) + cc
  {
    ScaledColumn(r, cc, g.stride, OutW(g));
  }

  /** `(r*s)*w/s + (cc*s)/s == r*w + cc` for a positive `s`. */
  lemma ScaledColumn(r: int, cc: int, s: int, w: int)
    requires s > 0
    ensures (r * s) * w / s + (cc * s) / s == r * w + cc
  {
    assert (r * s) * w == (r * w) * s + 0;
    DivMod(r * w, 0, s);
    DivMod(cc, 0, s);
  }

  /** Window `(r, cc)` has a column below `outw*outh`, the number of windows. */
  lemma WindowRowMajor(g: Geometry, r: nat, cc: nat)
    requires Sound(g) && r < OutH(g) && cc < OutW(g)
    ensures r * OutW(g) + cc < OutW(g) * OutH(g)
  {
    FlatBound(r, cc, OutH(g), OutW(g));
    assert OutH(g) * OutW(g) == OutW(g) * OutH(g);
  }
}
