# A verified model of a small convolutional network library

This project models the numeric core of a teaching neural-network library
written in C: the dense matrix routines of `src/matrix.c`, the im2col/col2im
transforms and the convolutional layer of `src/convolutional_layer.c`, the
maxpool layer of `src/maxpool_layer.c` and the activation functions of
`src/activations.c`. Each routine is modelled in the form the C code has. The
loops are `while`/`for` loops over `array<real>` buffers. A matrix is a
`Matrices.Matrix` object: `rows`, `cols` and a flat row-major `data` array. A
layer is a class whose methods update its cached input and its parameter
buffers. Every method is proved against a specification function on values
(`Matrices.Product`, `Patches.Im2col`, `Pooling.PoolForward`,
`ConvLayer.ConvForward`, …), and lemmas prove what those functions mean.

Modules, in dependency order:

- `Arith`: C's truncating division (`CDiv`) and the integer lemmas for the flat index arithmetic.
- `Sums`: finite sums over `nat -> real`.
- `Matrices`: matrices as values and as objects; allocation, copy, transpose, axpy, scale and matmul.
- `MatrixInvert`: augment, Gauss–Jordan inversion with partial pivoting, and solve_system.
- `Windows`: the geometry of centred kernel windows shared by im2col, col2im and maxpool.
- `Scatter`: gather and scatter-add as geometry-free maps, with their adjointness.
- `Patches`: im2col and col2im.
- `ConvLayer`: convolution bias, forward, backward, update and construction.
- `Pooling`: maxpool forward, backward, update and construction.
- `Activations`: activate_matrix and gradient_matrix.

The global `debug_mode` decides whether `make_matrix_garbage` uses
`calloc` or `malloc` (src/matrix.c:8,36-40). The model makes it a `debug`
parameter of every method that allocates. Each allocation also returns a
ghost `AllocMode` that describes the initial contents of that one buffer.
It is either `Zeroed`, or `Garbage(junk)`, where the fresh buffer holds
`junk(k)` at offset `k`. Under `debug` every allocation is `Zeroed`.
Otherwise the buffer holds whatever `new real[n]` leaves there, so two
allocations can hold different garbage. A method whose result depends on
several allocations returns one mode for each of them.
`ConvLayer.ConvolutionalLayer.Forward`, for example, returns one mode per
example, and its contract uses mode `i` for row `i`. The contracts state
exactly where the C result depends on initial contents, and the lemmas
below show the differences. No change is made to the code's behaviour.

- `matmul` accumulates with `+=` into a buffer from `make_matrix_garbage`
  (src/matrix.c:148,160). `Matrices.MatMul` states that each entry is the
  allocator's initial value plus the product entry, and
  `Matrices.MatMulExactIffZeroFill` proves that the result is the product
  exactly when every allocated cell happens to be 0.
- `augment_matrix` writes only the left half and the right-half diagonal
  of a garbage buffer (src/matrix.c:215-226). `MatrixInvert.MatrixInvert`
  proves that the result is always the recorded row operations applied to
  the augmented right half, and a left inverse when that buffer was zeroed.
  `MatrixInvert.InvertGarbageIdentity` shows that inverting the 2×2
  identity gives a non-identity result once one garbage cell is nonzero.
- Maxpool forward starts its running maximum at `FLT_MIN`, the smallest
  positive normal float, and not at `-FLT_MAX` as backward does
  (src/maxpool_layer.c:41,96). `Pooling.LowWindowPoolsToFltMin` proves that
  a window whose values are all at most `FLT_MIN` pools to `FLT_MIN`.
  `Pooling.ForwardBackwardAgree` proves that the two scans agree whenever
  forward's value beats `FLT_MIN`.
- Maxpool forward's bounds test divides `row_in` by `in.cols` and not by
  `l.width` (src/maxpool_layer.c:48,108). `Pooling.ForwardGuardExact` and
  `Pooling.SingleRowImage` prove that the test is still exact when no window
  reaches below the image, or when the image is a single row
  (`Pooling.WindowsFit`). `Pooling.ForwardOverreads` proves that on every
  other geometry the last window row lets a pixel below the image through,
  and that for the last example this pixel lies past the end of the input
  buffer. `Pooling.MaxpoolLayer.Forward` therefore requires `WindowsFit` for
  a non-empty batch.
- Convolutional backward reshapes its by-value `dy` and advances its data
  pointer (src/convolutional_layer.c:198-199,216). The model reads block `i`
  at the explicit offset `i*filters*outw*outh` (`ConvLayer.DyBlock`,
  `ConvLayer.CopyBlock`).

## Model

| member | source | states |
|---|---|---|
| Arith.CDiv | src/convolutional_layer.c:71 | the quotient truncated toward zero, as C's `/` on `int`, for negative dividends too |
| Arith.FlatBound | src/matrix.c:109 | a row-major offset `i*c + j` of an in-range entry lies inside the `r*c` buffer |
| Arith.Radix | src/convolutional_layer.c:78 | a digit pair `a*d + b` with `b < d` determines both digits, so distinct in-range positions have distinct offsets |
| Matrices.MakeMatrixGarbage | src/matrix.c:30-45 | a fresh `rows x cols` buffer that holds what its own allocation mode describes; under `debug` (`calloc`) that is all zeros, otherwise (`malloc`) arbitrary values |
| Matrices.AllocZeroed | src/matrix.c:36-37 | a zeroed allocation is the zero matrix |
| Matrices.MakeMatrix | src/matrix.c:15-23 | a fresh `rows x cols` matrix all of whose entries are 0, whatever the allocation mode |
| Matrices.CopyMatrix | src/matrix.c:80-92 | a fresh buffer with the same shape and entries; the source is not modified |
| Matrices.TransposeMatrix | src/matrix.c:98-114 | a fresh `cols x rows` matrix with `t[j][i] == m[i][j]` for every entry |
| Matrices.TransposeTwice | src/matrix.c:98-114 | transposing twice gives back the original matrix |
| Matrices.AxpyMatrix | src/matrix.c:121-133 | every flat entry of `y` becomes `old y[k] + a*x[k]`; `x` is unchanged unless it is `y` itself |
| Matrices.ScalMatrix | src/matrix.c:173-179 | every flat entry becomes `s` times its old value and nothing else changes |
| Matrices.AccumulateEntry | src/matrix.c:159-161 | the innermost loop adds `sum_k a[i][k]*b[k][j]`, read through the transpose of `b`, to `c[i][j]` and to no other cell |
| Matrices.MatMul | src/matrix.c:140-167 | an `a.rows x b.cols` matrix whose every entry is its buffer's initial value plus the product entry `sum_k a[i][k]*b[k][j]`; under `debug` the initial values are 0 |
| Matrices.MatMulExactIffZeroFill | src/matrix.c:148-160 | with an uninitialised buffer, matmul's result is the true product if and only if every allocated cell held 0 |
| Matrices.ProductIdentityLeft | src/matrix.c:140-167 | the identity is a left unit of the product |
| Matrices.ProductIdentityRight | src/matrix.c:140-167 | the identity is a right unit of the product |
| Matrices.ProductAssoc | src/matrix.c:313-324 | the product is associative, which solve_system's chain of products relies on |
| MatrixInvert.AugmentMatrix | src/matrix.c:211-228 | a fresh `rows x 2*cols` matrix that is `m` on the left, 1 at `(i, cols + i)` and the allocator's contents elsewhere |
| MatrixInvert.AugmentLeft | src/matrix.c:219-223 | whatever the allocation, the left half of the augmented matrix is `m` |
| MatrixInvert.AugmentZeroed | src/matrix.c:211-228 | with a zeroed allocation a square `m` augments to `[m | I]` |
| MatrixInvert.InitRowTable | src/matrix.c:249-252 | the row table starts as `0, 1, ..., n-1` |
| MatrixInvert.ViewIdentity | src/matrix.c:249-252 | that row table shows the buffer as it is |
| MatrixInvert.FindPivot | src/matrix.c:256-264 | `-1` exactly when column `k` is zero from the diagonal down; otherwise the first row at or below `k` of largest magnitude, which is nonzero |
| MatrixInvert.ViewSwap | src/matrix.c:271-273 | swapping two row pointers keeps a permutation and swaps the same two rows of the view |
| MatrixInvert.NormalizePivotRow | src/matrix.c:275-279 | the pivot row is divided by its pivot right of column `k`, the pivot becomes 1, and nothing else changes |
| MatrixInvert.NormIsScale | src/matrix.c:275-279 | when the pivot row is zero before column `k`, normalising it is scaling it by `1/pivot` |
| MatrixInvert.EliminateEntry | src/matrix.c:281-285 | entry `(i, k)` becomes 0, `-v[i][k]` times row `k` is added to row `i` right of column `k`, and nothing else changes |
| MatrixInvert.ElimIsAddRow | src/matrix.c:281-285 | when row `k` is 1 at `k` and 0 before it, elimination adds `-v[i][k]` times row `k` to row `i` |
| MatrixInvert.ProductSwapRows | src/matrix.c:271-273 | swapping rows of `e` swaps the same rows of `e*a` |
| MatrixInvert.ProductScaleRow | src/matrix.c:275-279 | scaling a row of `e` scales the same row of `e*a` |
| MatrixInvert.ProductAddRow | src/matrix.c:280-286 | adding a multiple of one row of `e` to another does the same to `e*a` |
| MatrixInvert.PivotStep | src/matrix.c:270-279 | the view stays the recorded operations times the augmented matrix, those operations stay invertible, finished columns are kept, and the diagonal entry becomes 1 |
| MatrixInvert.EliminateRow | src/matrix.c:280-286 | row `i` below the pivot gets 0 in column `k` by a recorded row addition, which keeps the operations invertible; earlier rows and finished columns are kept |
| MatrixInvert.EliminateBelow | src/matrix.c:280-286 | column `k` becomes 1 on the diagonal and 0 below it, extending the finished columns, still tracked by the recorded operations |
| MatrixInvert.ForwardEliminate | src/matrix.c:255-287 | on success the left block is unit upper triangular; on failure some column `k` after `k` finished columns is zero from the diagonal down; the view is always the recorded operations times the input, and those operations are invertible |
| MatrixInvert.EliminateRowAbove | src/matrix.c:289-295 | row `i` above the pivot gets 0 in column `k` by a recorded row addition; the unit upper triangle and later columns are kept |
| MatrixInvert.EliminateAbove | src/matrix.c:289-296 | column `k` becomes 0 above the diagonal and joins the cleared columns |
| MatrixInvert.BackSubstitute | src/matrix.c:288-296 | the left block ends with 1 on the diagonal and 0 everywhere else, still tracked by the recorded operations |
| MatrixInvert.ClearedIsIdentity | src/matrix.c:288-296 | a left block that is unit upper triangular and cleared above the diagonal is the identity |
| MatrixInvert.CopyInverse | src/matrix.c:298-306 | a fresh `n x n` matrix holding the right half of the view, read through the row table |
| MatrixInvert.InvertResult | src/matrix.c:233-311 | after elimination the recorded operations `e` satisfy `e*m == I`, the right half is `e` times the augmented right half, and with zeroed allocation that half is a left inverse of `m` |
| MatrixInvert.MatrixInvert | src/matrix.c:233-311 | `null` for a non-square input; a square input gives `null` only when no matrix `x` has `x*m == I`, with the pivot-less column exhibited; otherwise `e*m == I`, the result is `e` times the augmented right half, and when that buffer was zeroed (always under `debug`) the result times `m` is the identity |
| MatrixInvert.IdentityInvertible | src/matrix.c:244-252 | the row operations start out as the identity, which has a left inverse |
| MatrixInvert.SwapInvertible | src/matrix.c:271-273 | a row swap keeps the recorded operations invertible, because the same swap undoes it |
| MatrixInvert.ScaleInvertible | src/matrix.c:275-279 | dividing a row by a nonzero pivot keeps them invertible, because multiplying by the pivot undoes it |
| MatrixInvert.AddInvertible | src/matrix.c:280-286 | adding `s` times one row to another keeps them invertible, because adding `-s` times it undoes it |
| MatrixInvert.DependentColumn | src/matrix.c:255-287 | when the first `k` columns of the left block are unit upper triangular and column `k` is 0 from the diagonal down, column `k` is a combination of the columns before it |
| MatrixInvert.NoLeftInverse | src/matrix.c:265-268 | such a left block has no left inverse: entry `(k, k)` of `y*L` is a combination of entries `(k, j)`, `j < k`, and so cannot be 1 when those are 0 |
| MatrixInvert.NoPivotNoInverse | src/matrix.c:265-268 | when the view is an invertible `e` times the augmented `m` and its left block has a column without a pivot, no `x` has `x*m == I` |
| MatrixInvert.FailedElimination | src/matrix.c:255-268 | a forward elimination that stops at a column without a pivot shows that its input is singular, whatever the allocation left in the right half |
| MatrixInvert.InvertGarbageIdentity | src/matrix.c:215-226 | for the 2×2 identity with a nonzero garbage cell off the diagonal, the inverse matrix_invert returns is not the identity |
| MatrixInvert.SolveSystem | src/matrix.c:313-324 | `null` only when the computed `Mt*M` is singular; otherwise its inverse `inv` satisfies `inv*(Mt*M) == I` and the result is the chain of matmuls `Mdag` and `a`, each on its own allocation; under `debug` every allocation is zeroed and the result is exactly `(inv*Mt)*b` with `inv*(Mt*M) == I` |
| MatrixInvert.SolveRecovers | src/matrix.c:313-324 | for a consistent system `b == M*x`, the solution solve_system computes is `x` |
| Windows.OutDim | src/convolutional_layer.c:51-52 | `(n-1)/stride + 1` is at least 1 and is the number of centres `0, stride, 2*stride, ...` below `n` |
| Windows.FirstOffset | src/convolutional_layer.c:71 | the first kernel offset `-(size-1)/2`, with C's division, is `-Half` |
| Windows.EndOffset | src/convolutional_layer.c:71 | the bound `size/2 + 1` lies exactly `size` offsets after the first |
| Windows.OutsideIff | src/convolutional_layer.c:84 | the bounds test on `row = width*y` and `col = x` rejects exactly the pixels outside the image |
| Windows.PixelInBounds | src/convolutional_layer.c:80 | an in-image pixel has an offset inside the image buffer |
| Windows.PixelInChannel | src/maxpool_layer.c:122 | an in-image pixel has an offset inside its channel's block |
| Windows.PixelInjective | src/convolutional_layer.c:80 | distinct in-image pixels have distinct offsets |
| Windows.CentreInImage | src/maxpool_layer.c:92-94 | every window centre `(cc*stride, r*stride)` lies inside the image |
| Windows.CentreColumn | src/convolutional_layer.c:70 | `kern_center_row*outw/stride + kern_center_col/stride` is `r*outw + cc`, the row-major number of the window |
| Windows.WindowRowMajor | src/convolutional_layer.c:54 | every window's number is below `outw*outh` |
| Scatter.GatherScatterAdjoint | src/convolutional_layer.c:129-131 | scatter-add is the transpose of gather: `<gather(im), c> == <im, scatter(c)>`, for any map including dropped targets |
| Scatter.ScatterTotal | src/maxpool_layer.c:123 | a scatter-add whose targets all lie inside keeps the total of the values |
| Scatter.ScatterBlock | src/maxpool_layer.c:121-123 | when the values sent into a slice of the target are exactly those of a slice of the values, the two slices have the same total |
| Scatter.ScatteredAll | src/convolutional_layer.c:111-136 | a loop that has added every value at its target has produced the scatter-add |
| Patches.PatchRowDecode | src/convolutional_layer.c:73-78 | every row of the column matrix is the row of one channel and kernel position |
| Patches.PatchRowEncode | src/convolutional_layer.c:73-78 | the row of a channel and kernel position lies in the matrix and decodes back to them |
| Patches.Im2colOutPixel | src/convolutional_layer.c:70-81 | `out_pixel` of an iteration is the entry of its loop position and lies inside the column matrix |
| Patches.Im2colRead | src/convolutional_layer.c:72-86 | when the bounds test passes, `img_pixel` lies inside the image and the entry holds it; otherwise the entry is 0 |
| Patches.Im2colEntry | src/convolutional_layer.c:68-86 | column matrix entry `(ch*size*size + kr*size + kc, r*outw + cc)` is pixel `(cc*stride + kc - (size-1)/2, r*stride + kr - (size-1)/2)` of channel `ch`, or 0 outside the image |
| Patches.Im2colFlat | src/convolutional_layer.c:83-86 | flat entry `k` is the pixel it comes from, or 0 when that lies outside the image |
| Patches.EntryTime | src/convolutional_layer.c:65-91 | each loop position's entry lies in the matrix, at the row and column of that position, and is written at that position's iteration |
| Patches.TickInjective | src/convolutional_layer.c:65-91 | different loop positions are different iterations |
| Patches.TimeDecode | src/convolutional_layer.c:65-91 | every entry belongs to a loop position, so every entry is written at some iteration |
| Patches.WrittenAll | src/convolutional_layer.c:65-91 | after the last iteration every entry holds its im2col value, whatever the allocator left there |
| Patches.ColumnShape | src/convolutional_layer.c:51-54 | definitional: `rows = c*size*size` and `cols = outw*outh` are the column matrix's shape |
| Patches.Im2colMatrix | src/convolutional_layer.c:49-94 | a fresh `(c*size*size) x (outw*outh)` matrix that is the column matrix of the image viewed at offset `start` |
| Patches.Im2colGathers | src/convolutional_layer.c:83-86 | im2col is the gather along the map of source pixels, with 0 for pixels outside |
| Patches.Col2imTarget | src/convolutional_layer.c:118-131 | when the bounds test passes, `img_pixel` is the pixel the entry came from and lies in the image; otherwise the entry came from outside |
| Patches.GatheredAll | src/convolutional_layer.c:111-136 | after the last iteration the image holds col2im's result |
| Patches.Col2imImage | src/convolutional_layer.c:101-139 | a fresh image in which each pixel is the sum of exactly the column entries im2col reads from that pixel; entries from outside are dropped |
| Patches.Col2imAdjoint | src/convolutional_layer.c:49-139 | `<im2col(im), c> == <im, col2im(c)>`: col2im is the transpose of im2col |
| ConvLayer.BlockBound | src/convolutional_layer.c:21 | every output entry uses an existing bias entry `j/spatial` |
| ConvLayer.BiasAddedEntry | src/convolutional_layer.c:11-25 | output `(i, j)` is `xw[i][j]` plus bias entry `j/spatial`, which exists |
| ConvLayer.BiasBlockEntry | src/convolutional_layer.c:17-21 | filter `f` owns the contiguous block of `spatial` columns `f*spatial ..` in every row |
| ConvLayer.ForwardBias | src/convolutional_layer.c:11-25 | a fresh copy of `xw` with bias entry `j/spatial` added to every entry of column `j` |
| ConvLayer.BackwardBias | src/convolutional_layer.c:30-42 | a fresh `1 x n` matrix to which every entry of `dy` is added at the bias entry it used |
| ConvLayer.BiasGradBlock | src/convolutional_layer.c:30-42 | `db[f]` is the sum of `dy` over all rows and over filter `f`'s block of columns |
| ConvLayer.BiasAdjoint | src/convolutional_layer.c:11-42 | `<broadcast(b), dy> == <b, biasgrad(dy)>`: the bias gradient is the transpose of the broadcast |
| ConvLayer.CopyInto | src/convolutional_layer.c:161-163 | `n` values copied to offset `at` of `dst`; the rest of `dst` keeps its values |
| ConvLayer.WriteRow | src/convolutional_layer.c:208 | the row is copied over the zeros that follow the rows already written |
| ConvLayer.ConvolveExample | src/convolutional_layer.c:158-160 | example `i` viewed as an image, its column matrix multiplied by `w` as matmul does |
| ConvLayer.ConvolveRow | src/convolutional_layer.c:157-166 | one iteration appends example `i`'s convolution to the output rows written so far |
| ConvLayer.ConvolveRows | src/convolutional_layer.c:156-166 | a fresh `rows x filters*outw*outh` matrix whose row `i` is `matmul(w, im2col(example i))` on example `i`'s own allocation, zeroed under `debug` |
| ConvLayer.StackedPrefix | src/convolutional_layer.c:156-166 | the rows of the first `r` examples depend only on those examples' allocations, so later examples leave them alone |
| ConvLayer.StackedAt | src/convolutional_layer.c:161-163 | output entry `i*filters*outw*outh + j` is entry `j` of example `i`'s convolution |
| ConvLayer.UnbiasedAt | src/convolutional_layer.c:157-166 | output `(i, j)` before the bias is entry `j` of example `i`'s convolution |
| ConvLayer.ConvolvedZeroedAt | src/convolutional_layer.c:159-160 | with zeroed allocation, entry `(f, q)` of an example's convolution is filter `f`'s weights times window `q`'s column |
| ConvLayer.OutputWidth | src/convolutional_layer.c:154-156 | `outw*outh*filters` is `filters` blocks of `outw*outh` columns |
| ConvLayer.ForwardEntry | src/convolutional_layer.c:145-171 | when example `i`'s allocation was zeroed, output `(i, f*outw*outh + q)` is filter `f`'s weights times column `q` of example `i`'s column matrix, plus bias `f` |
| ConvLayer.ConvolutionalLayer.constructor | src/convolutional_layer.c:248-266 | the given geometry and initial weights, zero `dw`, `b` and `db` of the right shapes, five separate buffers, and an empty cache |
| ConvLayer.ConvolutionalLayer.Forward | src/convolutional_layer.c:145-171 | the cache becomes a fresh copy of the input; the result is, row by row, `matmul(w, im2col(example))` plus the broadcast bias, with one allocation mode per example, all zeroed under `debug` |
| ConvLayer.CopyBlock | src/convolutional_layer.c:198-199 | a fresh `rows x cols` matrix that holds the `rows*cols` values at offset `at`, which is how the reshaped `dy` is read |
| ConvLayer.DyBlockMatrix | src/convolutional_layer.c:198-216 | in iteration `i`, the reshaped `dy` is the `filters x outw*outh` block at offset `i*filters*outw*outh` |
| ConvLayer.AccumulateWeightGrad | src/convolutional_layer.c:201-204 | `dw` gains `matmul(dy_i, transpose(im2col(example i)))` |
| ConvLayer.InputGradImage | src/convolutional_layer.c:206-207 | `col2im(matmul(transpose(w), dy_i))`, example `i`'s input gradient |
| ConvLayer.DwAfterPrefix | src/convolutional_layer.c:195-204 | the weight gradient of the first `r` examples depends only on those examples' allocations |
| ConvLayer.DxRowsPrefix | src/convolutional_layer.c:195-208 | the `dx` rows of the first `r` examples depend only on those examples' allocations |
| ConvLayer.DwAfterStep | src/convolutional_layer.c:201-204 | example `i` adds its weight gradient to what the earlier examples added |
| ConvLayer.DxRowsStep | src/convolutional_layer.c:206-208 | example `i` appends its input gradient to the earlier examples' rows |
| ConvLayer.WeightStep | src/convolutional_layer.c:196-204 | the first half of an iteration: the weight gradient of example `i` is added to `dw`, and `dx` is not touched |
| ConvLayer.InputStep | src/convolutional_layer.c:206-208 | the second half: row `i` of `dx` becomes example `i`'s input gradient over the zeros |
| ConvLayer.BackwardExample | src/convolutional_layer.c:195-217 | one iteration advances both `dw` and `dx` by example `i` |
| ConvLayer.BackwardLoop | src/convolutional_layer.c:195-217 | after the loop every cached example has added its weight gradient and written its `dx` row |
| ConvLayer.BackwardExamples | src/convolutional_layer.c:192-219 | `dw` gains every example's weight gradient; `dx` has the examples' input gradients, then zeros in any further rows of `dy` |
| ConvLayer.ConvolutionalLayer.Backward | src/convolutional_layer.c:177-221 | `db` gains the bias gradient of `dy`, `dw` gains every example's `dy_i * transpose(im2col(x_i))`, and row `i` of `dx` is `col2im(transpose(w) * dy_i)`, each product on its own allocation, zeroed under `debug`; `w`, the cache and `dy` are unchanged |
| ConvLayer.ConvolutionalLayer.Update | src/convolutional_layer.c:228-240 | in order: `dw += decay*w`, `w -= rate*dw`, `dw *= momentum`, `b -= rate*db` with no decay, `db *= momentum` |
| ConvLayer.UpdateIsSgd | src/convolutional_layer.c:228-240 | each weight becomes `(1 - rate*decay)*w - rate*dw` and its gradient `momentum*(dw + decay*w)` |
| ConvLayer.UpdateEdges | src/convolutional_layer.c:228-240 | zero momentum leaves no gradient behind; zero rate leaves the weights alone |
| Pooling.RunMaxFirst | src/maxpool_layer.c:100-117 | a strict `>` scan yields at least its start and every passing value; it stays at the start when none beats it, and otherwise holds the first position of the largest value |
| Pooling.RunMaxFound | src/maxpool_layer.c:108-114 | a scan takes a position as soon as some passing value beats the start |
| Pooling.ForwardRead | src/maxpool_layer.c:43-49 | under `WindowsFit`, forward's test passes exactly at in-image positions, and `in_pixel` then holds the scanned value |
| Pooling.WindowMax | src/maxpool_layer.c:41-53 | the kernel loops compute the pooled value of the window |
| Pooling.PoolMaxIsMax | src/maxpool_layer.c:41-53 | forward's value is at least `FLT_MIN` and every in-image window value, and it is `FLT_MIN` or one of them |
| Pooling.LowWindowPoolsToFltMin | src/maxpool_layer.c:41 | a window whose in-image values are all at most `FLT_MIN` pools to `FLT_MIN`, even if they are all negative |
| Pooling.SingleRowImage | src/maxpool_layer.c:48 | when an image is a single row, forward's test on `in.cols` is the in-image test |
| Pooling.ForwardGuardExact | src/maxpool_layer.c:48 | when no window reaches below the image, forward's test rejects exactly the pixels outside the image |
| Pooling.ForwardOverreads | src/maxpool_layer.c:47-49 | on any other geometry forward's test lets through a pixel of row `height`, and for the last example it reads one past the input buffer |
| Pooling.ForwardAt | src/maxpool_layer.c:54-55 | the output offset of window `(r, cc)` of channel `ch` of example `i` holds that window's pooled value |
| Pooling.OutCoordsOf | src/maxpool_layer.c:54 | different windows and channels have different output columns, all below `outw*outh*c` |
| Pooling.PoolRows | src/maxpool_layer.c:19-61 | a fresh matrix of one pooled value per example, channel and window |
| Pooling.MaxpoolLayer.Forward | src/maxpool_layer.c:12-62 | the cache becomes a fresh copy of the input; the result holds every window's maximum with forward's `FLT_MIN` start |
| Pooling.BackwardRead | src/maxpool_layer.c:101-109 | backward's test passes exactly at in-image positions, and `in_pixel` then holds the scanned value |
| Pooling.WindowArg | src/maxpool_layer.c:96-117 | `max_row, max_col` are the kernel offsets of the first largest in-image value, or the sentinel when the scan took nothing |
| Pooling.PoolArgFound | src/maxpool_layer.c:96-119 | over an input above `-FLT_MAX` every window's scan takes a position, so the asserts hold, and `dx_pixel` is that in-image pixel |
| Pooling.PoolArgIsFirstMax | src/maxpool_layer.c:96-117 | the routed pixel holds the window's largest in-image value, and every earlier scan position holds less |
| Pooling.PoolArgInChannel | src/maxpool_layer.c:122 | the routed pixel lies inside the window's channel of the image |
| Pooling.ForwardBackwardAgree | src/maxpool_layer.c:41-117 | whenever forward's value beats `FLT_MIN`, both scans pick the same position and backward's pixel holds forward's value |
| Pooling.RouteAt | src/maxpool_layer.c:121-123 | window `(r, cc)` of channel `ch` of example `i` sends its gradient to that example's argmax pixel |
| Pooling.RouteTarget | src/maxpool_layer.c:118-123 | the asserts on `max_row` and `max_col` hold; `dy_pixel` is the window's step and `dx_pixel` its target, inside `dx` |
| Pooling.RouteInChannel | src/maxpool_layer.c:121-123 | each gradient goes to the same example's row of `dx`, inside the channel of its window |
| Pooling.RouteInBatch | src/maxpool_layer.c:70-123 | each gradient goes inside a `dx` with at least as many rows as the cache |
| Pooling.RouteWindow | src/maxpool_layer.c:94-123 | one window adds its gradient at its argmax: the scatter's next step |
| Pooling.RouteImages | src/maxpool_layer.c:86-127 | the loop over the cached examples adds every window's gradient at its target, in order |
| Pooling.RouteRows | src/maxpool_layer.c:70-128 | a fresh zero matrix with `dy`'s rows, to which every window's gradient is added at the window's maximum |
| Pooling.MaxpoolLayer.Backward | src/maxpool_layer.c:67-129 | `dx` has the shape `dy.rows x w*h*c` and holds each window's gradient added at the window's first argmax in the cached input |
| Pooling.BackwardKeepsTotal | src/maxpool_layer.c:121-123 | each `dy` entry of a cached example lands on exactly one `dx` position, so `dx` sums to what those rows of `dy` sum to |
| Pooling.RoutesOfRow | src/maxpool_layer.c:121-123 | a gradient value lands in row `i` of `dx` exactly when it comes from row `i` of `dy` |
| Pooling.BackwardKeepsRow | src/maxpool_layer.c:86-123 | for each cached example `i`, row `i` of `dx` sums to row `i` of `dy`: no gradient moves between examples or is lost |
| Pooling.BackwardZeroRow | src/maxpool_layer.c:70-123 | the rows of `dx` past the cached examples are all 0 |
| Pooling.BackwardZeroOffMax | src/maxpool_layer.c:70-123 | an input position that is no window's maximum keeps gradient 0 |
| Pooling.MaxpoolLayer.Update | src/maxpool_layer.c:133 | nothing changes |
| Pooling.MaxpoolLayer.constructor | src/maxpool_layer.c:141-154 | the given geometry and an empty cache |
| Activations.ActivateMatrix | src/activations.c:11-37 | every entry becomes its activation; a SOFTMAX row becomes `exp(x)/sum` of that row's exponentials |
| Activations.FirstPassRow | src/activations.c:16-29 | the first pass writes each entry's first-pass value, and for SOFTMAX returns the row's sum of exponentials |
| Activations.ActivateRowResult | src/activations.c:30-35 | after the second pass the row agrees with the activated matrix |
| Activations.RowExpSumPositive | src/activations.c:25-26 | a non-empty row has a positive softmax denominator, so the division is defined |
| Activations.LinearUnchanged | src/activations.c:11-37 | LINEAR has no branch and leaves the matrix as it is |
| Activations.ReluRange | src/activations.c:20-21 | ReLU results are non-negative, and an entry keeps its nonzero value exactly when it was positive |
| Activations.ReluIdempotent | src/activations.c:20-21 | applying ReLU twice is applying it once |
| Activations.LreluEntries | src/activations.c:5-23 | leaky ReLU keeps positive entries and multiplies the others by 0.1 |
| Activations.LreluKeepsSign | src/activations.c:22-23 | leaky ReLU output is positive exactly when its input is |
| Activations.LogisticRange | src/activations.c:18-19 | logistic values lie strictly between 0 and 1 |
| Activations.SoftmaxPositive | src/activations.c:24-35 | every softmax entry is positive |
| Activations.SoftmaxRowSum | src/activations.c:24-35 | every non-empty softmax row sums to 1 |
| Activations.GradientFactor | src/activations.c:51-64 | the multiplier computed from the activated value |
| Activations.GradientMatrix | src/activations.c:44-67 | every entry of `d` is multiplied by the multiplier at the same entry of `m`; `m` is unchanged unless it is `d` itself |
| Activations.MultiplierConstant | src/activations.c:53-55 | definitional: the multiplier is 1 for LINEAR and SOFTMAX at every value |
| Activations.MultiplierIsSlope | src/activations.c:56-64 | at an activated value the multiplier is the slope: ReLU `x>0 ? 1 : 0`, leaky ReLU `x>0 ? 1 : 0.1`, logistic `y(1-y)` |

## Left out

- Floats are modelled as mathematical reals: no rounding, overflow, NaN or infinity. `fabs` is an exact absolute value. `FLT_MIN` and `FLT_MAX` are their exact values, and SOFTMAX's `double` sum is an exact sum.
- C's `int` arithmetic is unbounded here. Index products that would overflow 32 bits on very large layers are not modelled.
- Failed allocation, and so every `data == NULL` branch, is not modelled. A `matrix none = {0}` result is `null`.
- `free_matrix`, `free_image`, the `shallow` flag and the commented-out frees are not modelled: they only manage memory.
- `print_matrix`, `write_matrix`, `read_matrix`, `save_matrix`, `load_matrix`, `random_matrix` and `test_matrix` are not modelled: they do I/O or use `rand()`. The initial convolution weights are a constructor parameter.
- `exp` is a parameter of the activation routines. The only thing assumed of it is that its values are positive.
- `make_image` and `float_to_image` come from `uwnet.h`, which is not part of this model. `make_image` is taken to give a zeroed buffer, and `float_to_image` to view one row of a matrix read-only.
- The `forward`, `backward` and `update` function pointers of a layer are the methods of the layer classes.
- The training scripts tryhw1.py and tryhw2.py are not part of this model.
- Every geometry is required to be `Windows.Sound`: stride, width, height and size at least 1. The C code divides by the stride and width, and with size 0 it writes into a matrix with no rows. A zero height is excluded as well. `(height-1)/stride` would then divide a negative number, and `Windows.OutDim` is defined only for dimensions of at least 1.
- Failing shape `assert`s in the C code are not modelled as aborts. Each becomes a `requires` of the member that models the function: Matrices.AxpyMatrix (matrix.c:125-126), Matrices.MatMul (matrix.c:144), Activations.GradientMatrix (activations.c:46-47), and the `in.cols == w*h*c` of ConvLayer.ConvolutionalLayer.Forward and ConvLayer.ConvolutionalLayer.Backward (convolutional_layer.c:147 and 180). The `data != NULL` asserts need no `requires`, because a buffer in the model always exists.
- MatrixInvert.AugmentMatrix: requires `rows <= cols`. Otherwise the diagonal loop writes past the end of a row, and for the last rows past the buffer. matrix_invert only calls it on square matrices.
- Pooling.MaxpoolLayer.Forward: requires `WindowsFit` for a non-empty batch with channels, and so does Pooling.PoolRows. On other geometries the C code reads past its input (`Pooling.ForwardOverreads`), which a model of the buffer cannot express.
- Pooling.MaxpoolLayer.Forward: requires `input.cols == w*h*c`, and so does Pooling.PoolRows. The C code does not check this. It starts example `i` at `i*in.cols` but finds channels and rows from `l.width` and `l.height`, so with another column count it pools values from the wrong offsets.
- Pooling.MaxpoolLayer.Backward: requires the cached input to have `x.cols == w*h*c`, and so does Pooling.RouteRows. `dx` has `w*h*c` columns while the C code starts example `i` at `in.cols*i`, so another column count sends gradient to the wrong example or past `dx`.
- Pooling.MaxpoolLayer.Backward: requires every cached value to be above `-FLT_MAX`, and so does Pooling.RouteRows. Otherwise a window can find no maximum and the C asserts fail. It also requires at least as many `dy` rows as cached examples, without which the C code reads past the end of `dy`. It further requires `dy.cols == outw*outh*c`, the width of the next layer's `dx` that callers pass. The C code reads past `dy` only when `dy.cols < outw*outh*c`. A wider `dy` is read in bounds, because example `i` starts at `dy.cols*i` and its offsets stay below `outw*outh*c`, but that case is outside the model.
- ConvLayer.ConvolutionalLayer.Backward: requires `dy` to hold a `filters x outw*outh` block for every cached example and at least as many rows as the cache. Without the first the reshaped reads leave the buffer, and without the second the `memcpy` writes past `dx`. It also requires `dy.cols % filters == 0`, as the assert in backward_convolutional_bias does.
- ConvLayer.ConvolutionalLayer.Forward: requires at least one filter. forward_convolutional_bias computes `xw.cols % b.cols`, which divides by zero when there are none.
- Patches.Col2imImage: requires the column matrix to hold at least `c*size*size*outw*outh` values. These are the only ones col2im reads.
