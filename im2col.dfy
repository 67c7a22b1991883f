/**
 * im2col and col2im of src/convolutional_layer.c.  im2col lays the
 * `size x size` patch of every window of an image out as one column of a
 * matrix with a row per channel and kernel position, reading 0 for pixels
 * outside the image; col2im adds the entries of such a matrix back onto the
 * pixels they came from, dropping those that came from outside.
 */
module Patches {
  import opened Arith
  import opened Sums
  import opened Matrices
  import opened Windows
  import opened Scatter

  // ---------------------------------------------------------------------------
  // The shape of the column matrix and its two index maps

  /** `rows = c*size*size`: one row per channel and kernel position. */
  function ColRows(g: Geometry): nat
  {
    g.channels * g.size * g.size
  }

  /** `cols = outw*outh`: one column per window. */
  function ColCols(g: Geometry): (n: nat)
    requires Sound(g)
    ensures n >= 1
  {
    MulMono(1, OutH(g), OutW(g));
    OutW(g) * OutH(g)
  }

  /** The number of entries of the column matrix. */
  function Entries(g: Geometry): nat
    requires Sound(g)
  {
    ColRows(g) * ColCols(g)
  }

  /** The row of channel `ch` and kernel position `(kr, kc)`, both in `[0, size)`. */
  function PatchRow(g: Geometry, ch: nat, kr: nat, kc: nat): nat
  {
    (ch * g.size + kr) * g.size + kc
  }

  function ChannelOf(g: Geometry, row: nat): nat
    requires g.size >= 1
  {
    row / g.size / g.size
  }

  function KernRowOf(g: Geometry, row: nat): nat
    requires g.size >= 1
  {
    row / g.size % g.size
  }

  function KernColOf(g: Geometry, row: nat): nat
    requires g.size >= 1
  {
    row % g.size
  }

  /** Every row of the column matrix belongs to one channel and kernel position. */
  lemma PatchRowDecode(g: Geometry, row: nat)
    requires Sound(g) && row < ColRows(g)
    ensures ChannelOf(g, row) < g.channels && KernRowOf(g, row) < g.size && KernColOf(g, row) < g.size
    ensures row == PatchRow(g, ChannelOf(g, row), KernRowOf(g, row), KernColOf(g, row))
  {
    Unflatten(row, g.channels * g.size, g.size);
    Unflatten(row / g.size, g.channels, g.size);
  }

  /** The row of a channel and kernel position decodes back to them. */
  lemma PatchRowEncode(g: Geometry, ch: nat, kr: nat, kc: nat)
    requires Sound(g) && ch < g.channels && kr < g.size && kc < g.size
    ensures PatchRow(g, ch, kr, kc) < ColRows(g)
    ensures ChannelOf(g, PatchRow(g, ch, kr, kc)) == ch
    ensures KernRowOf(g, PatchRow(g, ch, kr, kc)) == kr
    ensures KernColOf(g, PatchRow(g, ch, kr, kc)) == kc
  {
    FlatBound(ch, kr, g.channels, g.size);
    FlatBound(ch * g.size + kr, kc, g.channels * g.size, g.size);
    DivMod(ch * g.size + kr, kc, g.size);
    DivMod(ch, kr, g.size);
  }

  /** The window row and column of a column of the matrix. */
  function WinRowOf(g: Geometry, col: nat): nat
    requires Sound(g)
  {
    col / OutW(g)
  }

  function WinColOf(g: Geometry, col: nat): nat
    requires Sound(g)
  {
    col % OutW(g)
  }

  lemma WindowDecode(g: Geometry, col: nat)
    requires Sound(g) && col < ColCols(g)
    ensures WinRowOf(g, col) < OutH(g) && WinColOf(g, col) < OutW(g)
    ensures col == WinRowOf(g, col) * OutW(g) + WinColOf(g, col)
  {
    assert ColCols(g) == OutH(g) * OutW(g);
    Unflatten(col, OutH(g), OutW(g));
  }

  lemma WindowEncode(g: Geometry, r: nat, cc: nat)
    requires Sound(g) && r < OutH(g) && cc < OutW(g)
    ensures r * OutW(g) + cc < ColCols(g)
    ensures WinRowOf(g, r * OutW(g) + cc) == r && WinColOf(g, r * OutW(g) + cc) == cc
  {
    WindowRowMajor(g, r, cc);
    DivMod(r, cc, OutW(g));
  }

  // ---------------------------------------------------------------------------
  // Which pixel each entry reads

  /** The image row entry `(row, col)` reads: the window's centre row plus the kernel row offset. */
  function SourceY(g: Geometry, row: nat, col: nat): int
    requires Sound(g)
  {
    WinRowOf(g, col) * g.stride + KernRowOf(g, row) - Half(g)
  }

  /** The image column entry `(row, col)` reads. */
  function SourceX(g: Geometry, row: nat, col: nat): int
    requires Sound(g)
  {
    WinColOf(g, col) * g.stride + KernColOf(g, row) - Half(g)
  }

  /** The image offset entry `(row, col)` reads, or -1 when that pixel lies outside the image. */
  function SourcePixel(g: Geometry, row: nat, col: nat): (p: int)
    requires Sound(g) && row < ColRows(g) && col < ColCols(g)
    ensures -1 <= p < ImageSize(g)
    ensures p >= 0 <==> InImage(g, SourceY(g, row, col), SourceX(g, row, col))
  {
    PatchRowDecode(g, row);
    var y, x := SourceY(g, row, col), SourceX(g, row, col);
    if InImage(g, y, x) then
      PixelInBounds(g, ChannelOf(g, row), y, x);
      PixelIndex(g, ChannelOf(g, row), y, x)
    else -1
  }

  /** `SourcePixel` of the entry at flat offset `k`. */
  function SourceOf(g: Geometry, k: nat): (p: int)
    requires Sound(g) && k < Entries(g)
    ensures -1 <= p < ImageSize(g)
  {
    Unflatten(k, ColRows(g), ColCols(g));
    SourcePixel(g, k / ColCols(g), k % ColCols(g))
  }

  /** Entry `(row, col)` of im2col's result: the pixel it reads, or 0 outside the image. */
  function Patch(im: seq<real>, g: Geometry, row: nat, col: nat): real
    requires Sound(g) && |im| == ImageSize(g) && row < ColRows(g) && col < ColCols(g)
  {
    var p := SourcePixel(g, row, col);
    if p >= 0 then im[p] else 0.0
  }

  /** The column matrix im2col builds from image `im`. */
  ghost function Im2col(im: seq<real>, g: Geometry): (m: Mat)
    requires Sound(g) && |im| == ImageSize(g)
    ensures m.rows == ColRows(g) && m.cols == ColCols(g)
  {
    Build(ColRows(g), ColCols(g), (row: nat, col: nat) =>
      if row < ColRows(g) && col < ColCols(g) then Patch(im, g, row, col) else 0.0)
  }

  /** Entry `k` of the flat buffer of `Im2col(im, g)` is the pixel `SourceOf(k)`, or 0. */
  lemma Im2colFlat(im: seq<real>, g: Geometry, k: nat)
    requires Sound(g) && |im| == ImageSize(g) && k < Entries(g)
    ensures k < |Im2col(im, g).data|
    ensures Im2col(im, g).data[k] == if SourceOf(g, k) >= 0 then im[SourceOf(g, k)] else 0.0
  {
    var m := Im2col(im, g);
    GetFlat(m, k);
  }

  /**
   * The entry in row `ch*size*size + kr*size + kc` and column `r*outw + cc` is
   * pixel `(cc*stride + kc - (size-1)/2, r*stride + kr - (size-1)/2)` of
   * channel `ch`: the kernel position `(kr, kc)` is the offset
   * `(kr - (size-1)/2, kc - (size-1)/2)` from the window centre.  A pixel
   * outside the image reads as 0.
   */
  lemma Im2colEntry(im: seq<real>, g: Geometry, ch: nat, r: nat, cc: nat, kr: nat, kc: nat, w: nat)
    requires Sound(g) && |im| == ImageSize(g)
    requires ch < g.channels && r < OutH(g) && cc < OutW(g) && kr < g.size && kc < g.size
    requires w == r * OutW(g) + cc
    ensures PatchRow(g, ch, kr, kc) < ColRows(g)
    ensures w < ColCols(g)
    ensures
      var y, x := r * g.stride + kr - Half(g), cc * g.stride + kc - Half(g);
      && (InImage(g, y, x) ==> 0 <= PixelIndex(g, ch, y, x) < |im|)
      && Get(Im2col(im, g), PatchRow(g, ch, kr, kc), w)
         == if InImage(g, y, x) then im[PixelIndex(g, ch, y, x)] else 0.0
  {
    SourceAt(g, ch, r, cc, kr, kc, w);
    var y, x := r * g.stride + kr - Half(g), cc * g.stride + kc - Half(g);
    if InImage(g, y, x) {
      PixelInBounds(g, ch, y, x);
    }
    assert Get(Im2col(im, g), PatchRow(g, ch, kr, kc), w) == Patch(im, g, PatchRow(g, ch, kr, kc), w);
  }

  /** The pixel read at kernel position `(kr, kc)` of window `w = (r, cc)` in channel `ch`. */
  lemma SourceAt(g: Geometry, ch: nat, r: nat, cc: nat, kr: nat, kc: nat, w: nat)
    requires Sound(g) && ch < g.channels && r < OutH(g) && cc < OutW(g) && kr < g.size && kc < g.size
    requires w == r * OutW(g) + cc
    ensures PatchRow(g, ch, kr, kc) < ColRows(g)
    ensures w < ColCols(g)
    ensures
      var y, x := r * g.stride + kr - Half(g), cc * g.stride + kc - Half(g);
      SourcePixel(g, PatchRow(g, ch, kr, kc), w) == if InImage(g, y, x) then PixelIndex(g, ch, y, x) else -1
  {
    PatchRowEncode(g, ch, kr, kc);
    WindowEncode(g, r, cc);
    SourceYAt(g, ch, r, cc, kr, kc, w);
    SourceXAt(g, ch, r, cc, kr, kc, w);
  }

  lemma SourceYAt(g: Geometry, ch: nat, r: nat, cc: nat, kr: nat, kc: nat, w: nat)
    requires Sound(g) && ch < g.channels && r < OutH(g) && cc < OutW(g) && kr < g.size && kc < g.size
    requires w == r * OutW(g) + cc
    ensures SourceY(g, PatchRow(g, ch, kr, kc), w) == r * g.stride + kr - Half(g)
  {
    PatchRowEncode(g, ch, kr, kc);
    WindowEncode(g, r, cc);
  }

  lemma SourceXAt(g: Geometry, ch: nat, r: nat, cc: nat, kr: nat, kc: nat, w: nat)
    requires Sound(g) && ch < g.channels && r < OutH(g) && cc < OutW(g) && kr < g.size && kc < g.size
    requires w == r * OutW(g) + cc
    ensures SourceX(g, PatchRow(g, ch, kr, kc), w) == cc * g.stride + kc - Half(g)
  {
    PatchRowEncode(g, ch, kr, kc);
    WindowEncode(g, r, cc);
  }

  // ---------------------------------------------------------------------------
  // The order in which the loop nest visits the entries

  /**
   * The number of iterations of the loop nest (channel, window row, window
   * column, kernel row, kernel column) that come before position
   * `(ch, r, cc, kr, kc)`.
   */
  function Tick(g: Geometry, ch: nat, r: nat, cc: nat, kr: nat, kc: nat): nat
    requires Sound(g)
  {
    var a: nat := ch * OutH(g) + r;
    var b: nat := a * OutW(g) + cc;
    var e: nat := b * g.size + kr;
    e * g.size + kc
  }

  /** The flat offset of the entry for channel `ch`, window `(r, cc)` and kernel position `(kr, kc)`. */
  function Entry(g: Geometry, ch: nat, r: nat, cc: nat, kr: nat, kc: nat): nat
    requires Sound(g)
  {
    PatchRow(g, ch, kr, kc) * ColCols(g) + (r * OutW(g) + cc)
  }

  /** The iteration that writes flat entry `k`. */
  function Time(g: Geometry, k: nat): nat
    requires Sound(g) && k < Entries(g)
  {
    var row, col := k / ColCols(g), k % ColCols(g);
    Tick(g, ChannelOf(g, row), WinRowOf(g, col), WinColOf(g, col), KernRowOf(g, row), KernColOf(g, row))
  }

  /** The entry of a loop position lies in the matrix and is written at that position's iteration. */
  lemma EntryTime(g: Geometry, ch: nat, r: nat, cc: nat, kr: nat, kc: nat)
    requires Sound(g) && ch < g.channels && r < OutH(g) && cc < OutW(g) && kr < g.size && kc < g.size
    ensures Entry(g, ch, r, cc, kr, kc) < Entries(g)
    ensures Entry(g, ch, r, cc, kr, kc) / ColCols(g) == PatchRow(g, ch, kr, kc)
    ensures Entry(g, ch, r, cc, kr, kc) % ColCols(g) == r * OutW(g) + cc
    ensures Time(g, Entry(g, ch, r, cc, kr, kc)) == Tick(g, ch, r, cc, kr, kc)
  {
    PatchRowEncode(g, ch, kr, kc);
    WindowEncode(g, r, cc);
    FlatBound(PatchRow(g, ch, kr, kc), r * OutW(g) + cc, ColRows(g), ColCols(g));
    DivMod(PatchRow(g, ch, kr, kc), r * OutW(g) + cc, ColCols(g));
  }

  /** The loop nest runs `Entries(g)` iterations. */
  lemma TickBound(g: Geometry, ch: nat, r: nat, cc: nat, kr: nat, kc: nat)
    requires Sound(g) && ch < g.channels && r < OutH(g) && cc < OutW(g) && kr < g.size && kc < g.size
    ensures Tick(g, ch, r, cc, kr, kc) < Entries(g)
  {
    var c: int, oh: int, ow: int, s: int := g.channels, OutH(g), OutW(g), g.size;
    FlatBound(ch, r, c, oh);
    FlatBound(ch * oh + r, cc, c * oh, ow);
    FlatBound((ch * oh + r) * ow + cc, kr, c * oh * ow, s);
    FlatBound(((ch * oh + r) * ow + cc) * s + kr, kc, c * oh * ow * s, s);
    TotalTicks(g);
  }

  lemma TotalTicks(g: Geometry)
    requires Sound(g)
    ensures g.channels * OutH(g) * OutW(g) * g.size * g.size == Entries(g)
  {
    var c, oh, ow, s := g.channels, OutH(g), OutW(g), g.size;
    assert c * oh * ow * s * s == (c * s * s) * (ow * oh);
  }

  /** The position counter carries from each loop to the one around it. */
  lemma TickCarry(g: Geometry, ch: nat, r: nat, cc: nat, kr: nat)
    requires Sound(g)
    ensures Tick(g, ch, r, cc, kr, g.size) == Tick(g, ch, r, cc, kr + 1, 0)
    ensures Tick(g, ch, r, cc, g.size, 0) == Tick(g, ch, r, cc + 1, 0, 0)
    ensures Tick(g, ch, r, OutW(g), 0, 0) == Tick(g, ch, r + 1, 0, 0, 0)
    ensures Tick(g, ch, OutH(g), 0, 0, 0) == Tick(g, ch + 1, 0, 0, 0, 0)
    ensures Tick(g, g.channels, 0, 0, 0, 0) == Entries(g)
  {
    var oh: int, ow: int, s: int := OutH(g), OutW(g), g.size;
    var a := ((ch * oh + r) * ow + cc) * s;
    assert (a + kr + 1) * s == (a + kr) * s + s;
    var b := (ch * oh + r) * ow;
    assert (b + cc + 1) * s == (b + cc) * s + s;
    assert ((ch * oh + r + 1) * ow) == (ch * oh + r) * ow + ow;
    assert (ch + 1) * oh == ch * oh + oh;
    TotalTicks(g);
  }

  /** Every entry is written at an iteration of the loop nest, and no two at the same one. */
  lemma TimeDecode(g: Geometry, k: nat)
    requires Sound(g) && k < Entries(g)
    ensures
      var row, col := k / ColCols(g), k % ColCols(g);
      && row < ColRows(g) && col < ColCols(g)
      && ChannelOf(g, row) < g.channels && KernRowOf(g, row) < g.size && KernColOf(g, row) < g.size
      && WinRowOf(g, col) < OutH(g) && WinColOf(g, col) < OutW(g)
      && k == Entry(g, ChannelOf(g, row), WinRowOf(g, col), WinColOf(g, col), KernRowOf(g, row), KernColOf(g, row))
    ensures Time(g, k) < Entries(g)
  {
    Unflatten(k, ColRows(g), ColCols(g));
    var row, col := k / ColCols(g), k % ColCols(g);
    PatchRowDecode(g, row);
    WindowDecode(g, col);
    TickBound(g, ChannelOf(g, row), WinRowOf(g, col), WinColOf(g, col), KernRowOf(g, row), KernColOf(g, row));
  }

  lemma TimeInjective(g: Geometry, k1: nat, k2: nat)
    requires Sound(g) && k1 < Entries(g) && k2 < Entries(g) && Time(g, k1) == Time(g, k2)
    ensures k1 == k2
  {
    var ch1, r1, cc1, kr1, kc1 := TimeCoords(g, k1);
    var ch2, r2, cc2, kr2, kc2 := TimeCoords(g, k2);
    TickInjective(g, ch1, r1, cc1, kr1, kc1, ch2, r2, cc2, kr2, kc2);
  }

  /** The loop position that writes flat entry `k`. */
  lemma TimeCoords(g: Geometry, k: nat) returns (ch: nat, r: nat, cc: nat, kr: nat, kc: nat)
    requires Sound(g) && k < Entries(g)
    ensures ch < g.channels && r < OutH(g) && cc < OutW(g) && kr < g.size && kc < g.size
    ensures k == Entry(g, ch, r, cc, kr, kc) && Time(g, k) == Tick(g, ch, r, cc, kr, kc)
  {
    TimeDecode(g, k);
    var row, col := k / ColCols(g), k % ColCols(g);
    ch, r, cc, kr, kc := ChannelOf(g, row), WinRowOf(g, col), WinColOf(g, col), KernRowOf(g, row), KernColOf(g, row);
  }

  /** Different positions of the loop nest are different iterations. */
  lemma TickInjective(g: Geometry, ch1: nat, r1: nat, cc1: nat, kr1: nat, kc1: nat,
                                   ch2: nat, r2: nat, cc2: nat, kr2: nat, kc2: nat)
    requires Sound(g)
    requires r1 < OutH(g) && cc1 < OutW(g) && kr1 < g.size && kc1 < g.size
    requires r2 < OutH(g) && cc2 < OutW(g) && kr2 < g.size && kc2 < g.size
    requires Tick(g, ch1, r1, cc1, kr1, kc1) == Tick(g, ch2, r2, cc2, kr2, kc2)
    ensures ch1 == ch2 && r1 == r2 && cc1 == cc2 && kr1 == kr2 && kc1 == kc2
  {
    var oh: int, ow: int, s: int := OutH(g), OutW(g), g.size;
    var a1: int, a2: int := ch1 * oh + r1, ch2 * oh + r2;
    var b1: int, b2: int := a1 * ow + cc1, a2 * ow + cc2;
    var c1: int, c2: int := b1 * s + kr1, b2 * s + kr2;
    assert c1 * s + kc1 == c2 * s + kc2;
    Radix(c1, kc1, c2, kc2, s);
    Radix(b1, kr1, b2, kr2, s);
    Radix(a1, cc1, a2, cc2, ow);
    Radix(ch1, r1, ch2, r2, oh);
  }

  // ---------------------------------------------------------------------------
  // im2col

  /**
   * The state of im2col's output buffer `d` before iteration `t`: the entries
   * written so far hold their value in `S`, the others what the allocator left.
   */
  ghost predicate Written(d: seq<real>, S: Mat, mode: AllocMode, g: Geometry, t: nat)
    requires Sound(g)
  {
    && |d| == |S.data| == Entries(g)
    && forall k :: 0 <= k < |d| ==> d[k] == if Time(g, k) < t then S.data[k] else Fill(mode, k)
  }

  /** One more iteration writes the entry of its own position, and no other. */
  lemma WrittenStep(d: seq<real>, S: Mat, mode: AllocMode, g: Geometry, ch: nat, r: nat, cc: nat, kr: nat, kc: nat,
                     t: nat, op: int)
    requires Sound(g) && ch < g.channels && r < OutH(g) && cc < OutW(g) && kr < g.size && kc < g.size
    requires t == Tick(g, ch, r, cc, kr, kc) && op == Entry(g, ch, r, cc, kr, kc)
    requires Written(d, S, mode, g, t)
    ensures 0 <= op < |d|
    ensures Written(d[op := S.data[op]], S, mode, g, t + 1)
  {
    EntryTime(g, ch, r, cc, kr, kc);
    var d' := d[op := S.data[op]];
    forall k | 0 <= k < |d'|
      ensures d'[k] == if Time(g, k) < t + 1 then S.data[k] else Fill(mode, k)
    {
      if k != op && Time(g, k) == t {
        TimeInjective(g, k, op);
      }
    }
  }

  /** After the last iteration every entry holds its value in `S`. */
  lemma WrittenAll(d: seq<real>, S: Mat, mode: AllocMode, g: Geometry)
    requires Sound(g) && Written(d, S, mode, g, Entries(g))
    ensures d == S.data
  {
    forall k | 0 <= k < |d|
      ensures d[k] == S.data[k]
    {
      TimeDecode(g, k);
    }
  }

  /**
   * The output index of one iteration of im2col,
   * `channel*cols*size*size + (row_part1 + row_part2)*cols + col_output`, is
   * the entry of the iteration's position, so it lies inside the matrix.
   */
  lemma Im2colOutPixel(g: Geometry, ch: nat, r: nat, cc: nat, kr: nat, kc: nat, outPixel: int)
    requires Sound(g) && ch < g.channels && r < OutH(g) && cc < OutW(g) && kr < g.size && kc < g.size
    requires outPixel == ch * ColCols(g) * g.size * g.size + (kr * g.size + kc) * ColCols(g)
                         + ((r * g.stride) * OutW(g) / g.stride + (cc * g.stride) / g.stride)
    ensures outPixel == Entry(g, ch, r, cc, kr, kc) && 0 <= outPixel < Entries(g)
  {
    CentreColumn(g, r, cc);
    Distribute(ch, kr, kc, g.size, ColCols(g));
    EntryTime(g, ch, r, cc, kr, kc);
  }

  lemma Distribute(ch: int, kr: int, kc: int, s: int, n: int)
    ensures ch * n * s * s + (kr * s + kc) * n == ((ch * s + kr) * s + kc) * n
  {
  }

  /**
   * The value one iteration of im2col writes: 0 when the bounds test rejects
   * the pixel, and otherwise the pixel at `img_pixel`, which then lies inside
   * the image; in both cases the entry's value in `Im2col`.
   */
  lemma Im2colRead(im: seq<real>, g: Geometry, ch: nat, r: nat, cc: nat, kr: nat, kc: nat,
                   imgPixel: int, rowImg: int, colImg: int)
    requires Sound(g) && |im| == ImageSize(g)
    requires ch < g.channels && r < OutH(g) && cc < OutW(g) && kr < g.size && kc < g.size
    requires rowImg == g.width * (r * g.stride + kr - Half(g)) && colImg == cc * g.stride + kc - Half(g)
    requires imgPixel == g.width * g.height * ch + rowImg + colImg
    ensures !Outside(g, rowImg, colImg) ==> 0 <= imgPixel < ImageSize(g)
    ensures Entry(g, ch, r, cc, kr, kc) < Entries(g)
    ensures Im2col(im, g).data[Entry(g, ch, r, cc, kr, kc)] == if Outside(g, rowImg, colImg) then 0.0 else im[imgPixel]
  {
    EntryTime(g, ch, r, cc, kr, kc);
    var y, x := r * g.stride + kr - Half(g), cc * g.stride + kc - Half(g);
    OutsideIff(g, y, x);
    var w: nat := r * OutW(g) + cc;
    Im2colEntry(im, g, ch, r, cc, kr, kc, w);
    GetAt(Im2col(im, g), PatchRow(g, ch, kr, kc), w);
  }

  /**
   * im2col (lines 49-94), on the image that `float_to_image` views at offset
   * `start` of `src`: a fresh `(c*size*size) x (outw*outh)` matrix holding the
   * patch of every window, each entry written exactly once.
   */
  method Im2colMatrix(src: array<real>, start: nat, g: Geometry, debug: bool) returns (out: Matrix)
    requires Sound(g) && start + ImageSize(g) <= src.Length
    ensures out.Valid() && fresh(out.data)
    ensures out.Value() == Im2col(src[start..start + ImageSize(g)], g)
  {
    ghost var S := Im2col(src[start..start + ImageSize(g)], g);
    var outw: int := (g.width - 1) / g.stride + 1;
    var outh: int := (g.height - 1) / g.stride + 1;
    var rows: int := g.channels * g.size * g.size;
    var cols: int := outw * outh;
    ColumnShape(g, outw, outh, rows, cols);
    ghost var mode;
    out, mode := MakeMatrixGarbage(rows, cols, debug);
    WrittenStart(out.data[..], S, mode, g);
    for channel := 0 to g.channels
      invariant Written(out.data[..], S, mode, g, Tick(g, channel, 0, 0, 0, 0))
    {
      Im2colChannel(src, start, g, out, S, mode, channel, cols);
    }
    TickCarry(g, 0, 0, 0, 0);
    WrittenAll(out.data[..], S, mode, g);
  }

  /** The shape im2col computes is that of `Im2col`. */
  lemma ColumnShape(g: Geometry, outw: int, outh: int, rows: int, cols: int)
    requires Sound(g) && outw == (g.width - 1) / g.stride + 1 && outh == (g.height - 1) / g.stride + 1
    requires rows == g.channels * g.size * g.size && cols == outw * outh
    ensures rows == ColRows(g) && cols == ColCols(g) && rows * cols == Entries(g)
  {
  }

  /** A freshly allocated buffer is the state before the first iteration. */
  lemma WrittenStart(d: seq<real>, S: Mat, mode: AllocMode, g: Geometry)
    requires Sound(g) && |d| == |S.data| == Entries(g)
    requires forall k :: 0 <= k < |d| ==> d[k] == Fill(mode, k)
    ensures Written(d, S, mode, g, Tick(g, 0, 0, 0, 0, 0))
  {
    assert Tick(g, 0, 0, 0, 0, 0) == 0;
  }

  /** The window loops of im2col for one channel. */
  method Im2colChannel(src: array<real>, start: nat, g: Geometry, out: Matrix, ghost S: Mat, ghost mode: AllocMode,
                       channel: nat, cols: nat)
    requires Sound(g) && start + ImageSize(g) <= src.Length && S == Im2col(src[start..start + ImageSize(g)], g)
    requires out.Valid() && out.data != src
    requires channel < g.channels && cols == ColCols(g)
    requires Written(out.data[..], S, mode, g, Tick(g, channel, 0, 0, 0, 0))
    modifies out.data
    ensures Written(out.data[..], S, mode, g, Tick(g, channel + 1, 0, 0, 0, 0))
  {
    var outw := (g.width - 1) / g.stride + 1;
    var outh := (g.height - 1) / g.stride + 1;
    var channelImg: int := g.width * g.height * channel;
    var channelOutput: int := channel * cols * g.size * g.size;
    for r := 0 to outh
      invariant Written(out.data[..], S, mode, g, Tick(g, channel, r, 0, 0, 0))
    {
      var kernCenterRow: int := r * g.stride;
      for cc := 0 to outw
        invariant Written(out.data[..], S, mode, g, Tick(g, channel, r, cc, 0, 0))
      {
        var kernCenterCol: int := cc * g.stride;
        var colOutput: int := kernCenterRow * outw / g.stride + kernCenterCol / g.stride;
        Im2colWindow(src, start, g, out, S, mode, channel, r, cc, cols, channelImg, channelOutput,
                     kernCenterRow, kernCenterCol, colOutput);
      }
      TickCarry(g, channel, r, 0, 0);
    }
    TickCarry(g, channel, 0, 0, 0);
  }

  /** The two kernel loops of im2col for the window at `(kern_center_col, kern_center_row)`. */
  method Im2colWindow(src: array<real>, start: nat, g: Geometry, out: Matrix, ghost S: Mat, ghost mode: AllocMode,
                      channel: nat, r: nat, cc: nat, cols: nat, channelImg: int, channelOutput: int,
                      kernCenterRow: int, kernCenterCol: int, colOutput: int)
    requires Sound(g) && start + ImageSize(g) <= src.Length && S == Im2col(src[start..start + ImageSize(g)], g)
    requires out.Valid() && out.data != src
    requires channel < g.channels && r < OutH(g) && cc < OutW(g) && cols == ColCols(g)
    requires channelImg == g.width * g.height * channel && channelOutput == channel * cols * g.size * g.size
    requires kernCenterRow == r * g.stride && kernCenterCol == cc * g.stride
    requires colOutput == kernCenterRow * OutW(g) / g.stride + kernCenterCol / g.stride
    requires Written(out.data[..], S, mode, g, Tick(g, channel, r, cc, 0, 0))
    modifies out.data
    ensures Written(out.data[..], S, mode, g, Tick(g, channel, r, cc + 1, 0, 0))
  {
    var lo, hi := CDiv(-(g.size - 1), 2), g.size / 2 + 1;
    var half := (g.size - 1) / 2;
    assert lo == FirstOffset(g) && hi == EndOffset(g) && half == Half(g);
    for dr := lo to hi
      invariant Written(out.data[..], S, mode, g, Tick(g, channel, r, cc, dr - lo, 0))
    {
      var rowImg := g.width * (kernCenterRow + dr);
      var rowOutputPart1 := (dr + half) * g.size;
      for dc := lo to hi
        invariant Written(out.data[..], S, mode, g, Tick(g, channel, r, cc, dr - lo, dc - lo))
      {
        var colImg := kernCenterCol + dc;
        var rowOutputPart2 := dc + half;
        var rowOutput := channelOutput + (rowOutputPart1 + rowOutputPart2) * cols;
        var imgPixel := channelImg + rowImg + colImg;
        var outPixel := rowOutput + colOutput;
        Im2colCell(src, start, g, out, S, mode, channel, r, cc, dr - lo, dc - lo, imgPixel, rowImg, colImg, outPixel);
      }
      TickCarry(g, channel, r, cc, dr - lo);
    }
    TickCarry(g, channel, r, cc, 0);
  }

  /** The body of im2col's innermost loop: the output cell gets 0 when the kernel position falls outside the image, the image pixel otherwise. */
  method Im2colCell(src: array<real>, start: nat, g: Geometry, out: Matrix, ghost S: Mat, ghost mode: AllocMode,
                    ch: nat, r: nat, cc: nat, kr: nat, kc: nat,
                    imgPixel: int, rowImg: int, colImg: int, outPixel: int)
    requires Sound(g) && start + ImageSize(g) <= src.Length && S == Im2col(src[start..start + ImageSize(g)], g)
    requires out.Valid() && out.data != src
    requires ch < g.channels && r < OutH(g) && cc < OutW(g) && kr < g.size && kc < g.size
    requires rowImg == g.width * (r * g.stride + kr - Half(g)) && colImg == cc * g.stride + kc - Half(g)
    requires imgPixel == g.width * g.height * ch + rowImg + colImg
    requires outPixel == ch * ColCols(g) * g.size * g.size + (kr * g.size + kc) * ColCols(g)
                         + ((r * g.stride) * OutW(g) / g.stride + (cc * g.stride) / g.stride)
    requires Written(out.data[..], S, mode, g, Tick(g, ch, r, cc, kr, kc))
    modifies out.data
    ensures Written(out.data[..], S, mode, g, Tick(g, ch, r, cc, kr, kc) + 1)
  {
    Im2colOutPixel(g, ch, r, cc, kr, kc, outPixel);
    Im2colRead(src[start..start + ImageSize(g)], g, ch, r, cc, kr, kc, imgPixel, rowImg, colImg);
    WrittenStep(out.data[..], S, mode, g, ch, r, cc, kr, kc, Tick(g, ch, r, cc, kr, kc), outPixel);
    out.data[outPixel] := if Outside(g, rowImg, colImg) then 0.0 else src[start + imgPixel];
  }

  // ---------------------------------------------------------------------------
  // col2im

  /** The pixel every flat entry of the column matrix comes from, -1 for pixels outside the image. */
  function SourceMap(g: Geometry): (m: seq<int>)
    requires Sound(g)
    ensures |m| == Entries(g)
    ensures forall k :: 0 <= k < Entries(g) ==> m[k] == SourceOf(g, k)
  {
    seq(Entries(g), (k: int) requires 0 <= k < Entries(g) => SourceOf(g, k))
  }

  /** The iteration of the loop nest that handles every flat entry. */
  function TimeMap(g: Geometry): (m: seq<nat>)
    requires Sound(g)
    ensures |m| == Entries(g)
    ensures forall k :: 0 <= k < Entries(g) ==> m[k] == Time(g, k)
  {
    seq(Entries(g), (k: int) requires 0 <= k < Entries(g) => Time(g, k))
  }

  /** im2col gathers every entry from the pixel `SourceMap` names. */
  lemma Im2colGathers(im: seq<real>, g: Geometry)
    requires Sound(g) && |im| == ImageSize(g)
    ensures Im2col(im, g).data == Gather(im, SourceMap(g))
  {
    forall k | 0 <= k < Entries(g)
      ensures Im2col(im, g).data[k] == Gather(im, SourceMap(g))[k]
    {
      Im2colFlat(im, g, k);
    }
  }

  /**
   * The image col2im builds from the flat buffer `c` of a column matrix:
   * each pixel is the sum of the entries im2col reads from it.
   */
  function Col2im(c: seq<real>, g: Geometry): (im: seq<real>)
    requires Sound(g) && |c| == Entries(g)
    ensures |im| == ImageSize(g)
  {
    ScatterAdd(c, SourceMap(g), ImageSize(g))
  }

  /** The state of col2im's image buffer `d` before iteration `t`. */
  ghost predicate Gathered(d: seq<real>, c: seq<real>, g: Geometry, t: nat)
    requires Sound(g)
  {
    |d| == ImageSize(g) && |c| == Entries(g) && Scattered(d, c, SourceMap(g), TimeMap(g), t)
  }

  /**
   * One iteration of col2im, iteration `t` handling flat entry `op` whose
   * pixel is `p`: `im[p] += col[op]` when the pixel is inside the image.
   */
  lemma GatheredStep(d: seq<real>, c: seq<real>, g: Geometry, ch: nat, r: nat, cc: nat, kr: nat, kc: nat,
                     t: nat, op: int, p: int)
    requires Sound(g) && ch < g.channels && r < OutH(g) && cc < OutW(g) && kr < g.size && kc < g.size
    requires t == Tick(g, ch, r, cc, kr, kc) && op == Entry(g, ch, r, cc, kr, kc)
    requires Gathered(d, c, g, t)
    requires 0 <= op < Entries(g) && p == SourceOf(g, op)
    ensures p >= 0 ==> 0 <= p < |d| && Gathered(d[p := d[p] + c[op]], c, g, t + 1)
    ensures p < 0 ==> Gathered(d, c, g, t + 1)
  {
    EntryTime(g, ch, r, cc, kr, kc);
    var tm := TimeMap(g);
    forall k | 0 <= k < |tm| && k != op
      ensures tm[k] != t
    {
      if tm[k] == t {
        TimeInjective(g, k, op);
      }
    }
    ScatteredStep(d, c, SourceMap(g), tm, t, op);
  }

  /** After the last iteration every pixel holds its value in `Col2im`. */
  lemma GatheredAll(d: seq<real>, c: seq<real>, g: Geometry)
    requires Sound(g) && Gathered(d, c, g, Entries(g))
    ensures d == Col2im(c, g)
  {
    var tm := TimeMap(g);
    forall k | 0 <= k < |tm|
      ensures tm[k] < Entries(g)
    {
      TimeDecode(g, k);
    }
    ScatteredAll(d, c, SourceMap(g), tm, Entries(g));
  }

  /**
   * The pixel one iteration of col2im adds to: when the bounds test passes,
   * `img_pixel` is the pixel the entry came from; otherwise the entry came
   * from outside the image.
   */
  lemma Col2imTarget(g: Geometry, ch: nat, r: nat, cc: nat, kr: nat, kc: nat,
                     imgPixel: int, rowImg: int, colImg: int)
    requires Sound(g) && ch < g.channels && r < OutH(g) && cc < OutW(g) && kr < g.size && kc < g.size
    requires rowImg == g.width * (r * g.stride + kr - Half(g)) && colImg == cc * g.stride + kc - Half(g)
    requires imgPixel == g.width * g.height * ch + rowImg + colImg
    ensures Entry(g, ch, r, cc, kr, kc) < Entries(g)
    ensures SourceOf(g, Entry(g, ch, r, cc, kr, kc)) == if Outside(g, rowImg, colImg) then -1 else imgPixel
    ensures !Outside(g, rowImg, colImg) ==> 0 <= imgPixel < ImageSize(g)
  {
    EntryTime(g, ch, r, cc, kr, kc);
    PatchRowEncode(g, ch, kr, kc);
    WindowEncode(g, r, cc);
    var y, x := r * g.stride + kr - Half(g), cc * g.stride + kc - Half(g);
    OutsideIff(g, y, x);
    if !Outside(g, rowImg, colImg) {
      assert imgPixel == PixelIndex(g, ch, y, x);
      PixelInBounds(g, ch, y, x);
    }
  }

  /**
   * col2im (lines 101-139): a fresh zeroed image to which every entry of
   * `col` whose pixel lies inside the image is added.  Only the first
   * `c*size*size * outw*outh` values of `col`'s buffer are read.
   */
  method Col2imImage(g: Geometry, col: Matrix) returns (im: array<real>)
    requires Sound(g) && col.Valid() && Entries(g) <= col.data.Length
    ensures fresh(im)
    ensures im[..] == Col2im(col.data[..Entries(g)], g)
  {
    ghost var c := col.data[..Entries(g)];
    im := new real[ImageSize(g)](_ => 0.0);
    var outw := (g.width - 1) / g.stride + 1;
    var outh := (g.height - 1) / g.stride + 1;
    var rows := g.channels * g.size * g.size;
    var cols := outw * outh;
    ColumnShape(g, outw, outh, rows, cols);
    ScatteredStart(im[..], c, SourceMap(g), TimeMap(g));
    assert Tick(g, 0, 0, 0, 0, 0) == 0;
    for channel := 0 to g.channels
      invariant Gathered(im[..], c, g, Tick(g, channel, 0, 0, 0, 0))
    {
      Col2imChannel(g, col, im, c, channel, cols);
    }
    TickCarry(g, 0, 0, 0, 0);
    GatheredAll(im[..], c, g);
  }

  /** The window loops of col2im for one channel. */
  method Col2imChannel(g: Geometry, col: Matrix, im: array<real>, ghost c: seq<real>, channel: nat, cols: nat)
    requires Sound(g) && col.Valid() && Entries(g) <= col.data.Length && c == col.data[..Entries(g)]
    requires im != col.data
    requires channel < g.channels && cols == ColCols(g)
    requires Gathered(im[..], c, g, Tick(g, channel, 0, 0, 0, 0))
    modifies im
    ensures Gathered(im[..], c, g, Tick(g, channel + 1, 0, 0, 0, 0))
  {
    var outw := (g.width - 1) / g.stride + 1;
    var outh := (g.height - 1) / g.stride + 1;
    var channelImg: int := g.width * g.height * channel;
    var channelOutput: int := channel * cols * g.size * g.size;
    for r := 0 to outh
      invariant Gathered(im[..], c, g, Tick(g, channel, r, 0, 0, 0))
    {
      var kernCenterRow: int := r * g.stride;
      for cc := 0 to outw
        invariant Gathered(im[..], c, g, Tick(g, channel, r, cc, 0, 0))
      {
        var kernCenterCol: int := cc * g.stride;
        var colOutput: int := kernCenterRow * outw / g.stride + kernCenterCol / g.stride;
        Col2imWindow(g, col, im, c, channel, r, cc, cols, channelImg, channelOutput,
                     kernCenterRow, kernCenterCol, colOutput);
      }
      TickCarry(g, channel, r, 0, 0);
    }
    TickCarry(g, channel, 0, 0, 0);
  }

  /** The two kernel loops of col2im for the window at `(kern_center_col, kern_center_row)`. */
  method Col2imWindow(g: Geometry, col: Matrix, im: array<real>, ghost c: seq<real>,
                      channel: nat, r: nat, cc: nat, cols: nat, channelImg: int, channelOutput: int,
                      kernCenterRow: int, kernCenterCol: int, colOutput: int)
    requires Sound(g) && col.Valid() && Entries(g) <= col.data.Length && c == col.data[..Entries(g)]
    requires im != col.data
    requires channel < g.channels && r < OutH(g) && cc < OutW(g) && cols == ColCols(g)
    requires channelImg == g.width * g.height * channel && channelOutput == channel * cols * g.size * g.size
    requires kernCenterRow == r * g.stride && kernCenterCol == cc * g.stride
    requires colOutput == kernCenterRow * OutW(g) / g.stride + kernCenterCol / g.stride
    requires Gathered(im[..], c, g, Tick(g, channel, r, cc, 0, 0))
    modifies im
    ensures Gathered(im[..], c, g, Tick(g, channel, r, cc + 1, 0, 0))
  {
    var lo, hi := CDiv(-(g.size - 1), 2), g.size / 2 + 1;
    var half := (g.size - 1) / 2;
    assert lo == FirstOffset(g) && hi == EndOffset(g) && half == Half(g);
    for dr := lo to hi
      invariant Gathered(im[..], c, g, Tick(g, channel, r, cc, dr - lo, 0))
    {
      var rowImg := g.width * (kernCenterRow + dr);
      var rowOutputPart1 := (dr + half) * g.size;
      Col2imKernelRow(g, col, im, c, channel, r, cc, cols, channelImg, channelOutput, kernCenterCol, colOutput,
                      dr - lo, rowImg, rowOutputPart1);
      TickCarry(g, channel, r, cc, dr - lo);
    }
    TickCarry(g, channel, r, cc, 0);
  }

  /** The innermost loop of col2im, over the kernel columns of kernel row `kr`. */
  method Col2imKernelRow(g: Geometry, col: Matrix, im: array<real>, ghost c: seq<real>,
                         channel: nat, r: nat, cc: nat, cols: nat, channelImg: int, channelOutput: int,
                         kernCenterCol: int, colOutput: int, kr: nat, rowImg: int, rowOutputPart1: int)
    requires Sound(g) && col.Valid() && Entries(g) <= col.data.Length && c == col.data[..Entries(g)]
    requires im != col.data
    requires channel < g.channels && r < OutH(g) && cc < OutW(g) && cols == ColCols(g) && kr < g.size
    requires channelImg == g.width * g.height * channel && channelOutput == channel * cols * g.size * g.size
    requires kernCenterCol == cc * g.stride
    requires colOutput == (r * g.stride) * OutW(g) / g.stride + kernCenterCol / g.stride
    requires rowImg == g.width * (r * g.stride + kr - Half(g)) && rowOutputPart1 == kr * g.size
    requires Gathered(im[..], c, g, Tick(g, channel, r, cc, kr, 0))
    modifies im
    ensures Gathered(im[..], c, g, Tick(g, channel, r, cc, kr, g.size))
  {
    var lo, hi := CDiv(-(g.size - 1), 2), g.size / 2 + 1;
    var half := (g.size - 1) / 2;
    assert lo == FirstOffset(g) && hi == EndOffset(g) && half == Half(g);
    for dc := lo to hi
      invariant Gathered(im[..], c, g, Tick(g, channel, r, cc, kr, dc - lo))
    {
      var colImg := kernCenterCol + dc;
      var rowOutputPart2 := dc + half;
      var rowOutput := channelOutput + (rowOutputPart1 + rowOutputPart2) * cols;
      var imgPixel := channelImg + rowImg + colImg;
      var outPixel := rowOutput + colOutput;
      Col2imCell(g, col, im, c, channel, r, cc, kr, dc - lo, imgPixel, rowImg, colImg, outPixel);
    }
  }

  /** The body of col2im's innermost loop: `im[img_pixel] += col[out_pixel]` for a pixel inside the image. */
  method Col2imCell(g: Geometry, col: Matrix, im: array<real>, ghost c: seq<real>,
                    ch: nat, r: nat, cc: nat, kr: nat, kc: nat,
                    imgPixel: int, rowImg: int, colImg: int, outPixel: int)
    requires Sound(g) && col.Valid() && Entries(g) <= col.data.Length && c == col.data[..Entries(g)]
    requires im != col.data
    requires ch < g.channels && r < OutH(g) && cc < OutW(g) && kr < g.size && kc < g.size
    requires rowImg == g.width * (r * g.stride + kr - Half(g)) && colImg == cc * g.stride + kc - Half(g)
    requires imgPixel == g.width * g.height * ch + rowImg + colImg
    requires outPixel == ch * ColCols(g) * g.size * g.size + (kr * g.size + kc) * ColCols(g)
                         + ((r * g.stride) * OutW(g) / g.stride + (cc * g.stride) / g.stride)
    requires Gathered(im[..], c, g, Tick(g, ch, r, cc, kr, kc))
    modifies im
    ensures Gathered(im[..], c, g, Tick(g, ch, r, cc, kr, kc) + 1)
  {
    Im2colOutPixel(g, ch, r, cc, kr, kc, outPixel);
    Col2imTarget(g, ch, r, cc, kr, kc, imgPixel, rowImg, colImg);
    if Outside(g, rowImg, colImg) {
      GatheredStep(im[..], c, g, ch, r, cc, kr, kc, Tick(g, ch, r, cc, kr, kc), outPixel, -1);
    } else {
      GatheredStep(im[..], c, g, ch, r, cc, kr, kc, Tick(g, ch, r, cc, kr, kc), outPixel, imgPixel);
      im[imgPixel] := im[imgPixel] + col.data[outPixel];
    }
  }

  // ---------------------------------------------------------------------------
  // col2im is the adjoint of im2col

  /**
   * `<im2col(im), c> == <im, col2im(c)>`: col2im is the transpose of the
   * linear map im2col, which is what backpropagation through im2col needs.
   */
  lemma Col2imAdjoint(im: seq<real>, c: seq<real>, g: Geometry)
    requires Sound(g) && |im| == ImageSize(g) && |c| == Entries(g)
    ensures Inner(Im2col(im, g).data, c) == Inner(im, Col2im(c, g))
  {
    Im2colGathers(im, g);
    GatherScatterAdjoint(im, c, SourceMap(g));
  }
}
