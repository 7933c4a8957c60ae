# refine.py, modelled in Dafny

`refine.py` doubles the resolution of a structured hexahedral mesh. It reads
the mesh as three `u4`-framed Fortran records:

- a header `[npts, nelems, imax, jmax, kmax, 0]`;
- the node coordinates, reshaped to `(jmax, imax, kmax, 3)`;
- the 1-based connectivity table.

It then refines the node grid along axes 0, 1 and 2. On each axis the
function `refine` keeps the old samples at the even positions and puts
midpoints (`unstagger`) at the odd ones. Next `structured_cells` builds a
fresh connectivity table for the refined lattice. Finally the script writes
the new header, nodes and 1-based cells.

The model is five modules:

- `Failures`: the `Result` type and the exceptions the code can raise.
- `Lattice`: row-major positions in a box `(A, w1, w2)`, their decoding, and
  multiplication as repeated addition, so that index proofs stay linear.
- `Refine`: `single_slice`, `unstagger` and `refine` on arrays of any rank.
  An array is its flat row-major `seq<real>` plus its shape. Along an axis
  it is viewed as a box `(outer, n, inner)`.
  - The whole meaning of the result is the function `Refined`.
  - `Refine.Refine` is the imperative version: it allocates a fresh
    `array<real>` and fills it with the slice assignments of lines 34-35.
    `AssignAlong` does those assignments with loops. `Refine.Refine` is
    proved equal to `Refined`.
- `Cells`: `structured_cells` for three cell counts. The `u4` table is an
  `array2<nat>` filled by nested loops over the cell offsets `(x, y, z)`.
  It is proved equal to the row function `CellRow`, and the geometry of each
  row is proved as lemmas.
- `Mesh`: the script at lines 65-80 without the file I/O.
  - `Output` is the records the script writes, or the exception that stops it.
  - The method `RefineMesh` runs the three refinements and `structured_cells`,
    and flattens the table. It is proved to return `Output`.

Behaviour worth noting:

- Axis length 1: `refine` on an axis of length 1 returns a fresh copy equal
  to its input (`RefinedLengthOne`). It is not an error. Axis length 0
  raises (numpy rejects the negative dimension `2*0-1`).
- Header order: the header is unpacked as `imax, jmax, kmax`, but the grid
  axes are `(jmax, imax, kmax)`. So grid axis 0 has `header[3]` samples, not
  `header[2]`. The written header lists the extents in grid order,
  `2*jmax-1, 2*imax-1, 2*kmax-1`, so fields 2 and 3 are exchanged against
  the input (`HeaderFields`).
- One-node axis: an axis with a single node gives a cell count of 0.
  `structured_cells` then fails, so the script stops (`SingleNodeAxis`).

## Model

| member | source | states |
|---|---|---|
| Refine.Refine | refine.py:30-36 | Fails exactly when the axis is not an axis of the array (IndexError) or has length 0 (negative dimension). Otherwise it returns a fresh array, leaves the input unmodified, and the result is `Refined` of the input |
| Refine.RefineBox | refine.py:31-35 | The array it allocates and fills is fresh. It is the refined box: even layer 2k is input layer k, odd layer 2k+1 is the mean of input layers k and k+1 |
| Refine.AssignAlong | refine.py:34-35 | In-place slice assignment: the layers the slice picks receive the layers of the source in order, and every other place keeps its old value |
| Refine.RefinedSample | refine.py:30-36 | Every sample of the refined array: at axis index 2k it is the input's sample at k; at 2k+1 it is the mean of the input's samples at k and k+1; all other indices are unchanged |
| Refine.RefinedEven | refine.py:34 | Even layers reproduce the input: the refined sample at `x[axis := 2*x[axis]]` is the input's sample at x |
| Refine.RefinedOdd | refine.py:24-35 | Odd layers are midpoints: the refined sample at `x[axis := 2*x[axis]+1]` is the mean of the input's samples at x and `x[axis := x[axis]+1]` |
| Refine.RefinedLengthOne | refine.py:31-35 | An axis of length 1 keeps its shape, and the refined array equals the input |
| Refine.NewShapeAround | refine.py:31-32 | The new shape changes only the refined axis, to 2n-1. It has the same rank and the same outer and inner extents, so it has outer*(2n-1)*inner elements |
| Refine.RefinedBoxIs | refine.py:33-35 | Zero-filling, writing the input into the even slice and then the midpoints into the odd slice gives the refined box |
| Refine.BoxIs | refine.py:33-35 | Any box obtained by those two slice assignments is the refined box, whatever the starting box |
| Refine.BoxUnique | refine.py:30-36 | The refined box of given values is unique |
| Refine.SliceOf | refine.py:7-10 | A slice with positive step on an axis of length n picks positions from the normalised start, step apart, all below the normalised stop, and no later position is below it |
| Refine.Bound | refine.py:9 | Python's normalisation of a slice bound: it lies in [0, n]; an in-range bound is kept; a negative bound counts from the end |
| Refine.TakePicks | refine.py:25-26 | Layer j of `data[single_slice(...)]` is layer `start + j*step` of the input |
| Refine.UnstaggerSlices | refine.py:25-26 | `slice(1, None)` and `slice(0, -1)` on an axis of length n >= 1 pick n-1 layers, starting at 1 and at 0 |
| Refine.UnstaggerAt | refine.py:24-27 | Layer k of `unstagger` is the mean of input layers k and k+1 |
| Refine.Midpoints | refine.py:24-27 | Elementwise `(a+b)/2` lies halfway: `c - a == b - c` at every index |
| Refine.LayerSlices | refine.py:34-35 | On the refined axis of length 2n-1, `0::2` picks the n even positions and `1::2` the n-1 odd ones |
| Refine.LayerParity | refine.py:34-35 | The even slice hits exactly the even positions and the odd slice exactly the odd ones, each position p as the (p/2)-th pick |
| Refine.AssignPlace | refine.py:34-35 | After a slice assignment, a picked place holds the corresponding source sample and any other place its old value |
| Refine.Zeros | refine.py:33 | `zeros_like` with the new shape: the right size, every entry 0 |
| Refine.NewShape | refine.py:31-32 | The input shape with the refined axis's extent n replaced by 2n-1 (a sequence update; `NewShapeAround` states its consequences) |
| Refine.Product | refine.py:78-79 | numpy's `size`: the product of the extents, by recursion over the shape (`ProductAppend` and `ProductAround` relate it to the box view) |
| Refine.Flatten | refine.py:78-79 | Row-major (C-order) position of an in-bounds multi-index, below the array's size |
| Refine.Take | refine.py:25-26 | The view `data[single_slice(...)]` has outer*count*inner samples; its layers are given by `TakePicks` |
| Refine.Unstagger | refine.py:13-27 | On an axis of length n >= 1 the result has outer*(n-1)*inner samples; its layers are given by `UnstaggerAt` |
| Refine.Assign | refine.py:34-35 | A slice assignment as a value keeps the array's size; its places are given by `AssignPlace` |
| Refine.RefinedBox | refine.py:32-35 | Zeros of the refined size, then the even slice set to the input, then the odd slice set to `unstagger`; it has outer*(2n-1)*inner samples and is characterised by `RefinedBoxIs` |
| Refine.Refined | refine.py:30-36 | The array `refine` returns, as a value: it has `Product(NewShape)` samples and its samples are given by `RefinedSample` |
| Cells.StructuredCells | refine.py:39-55 | Fails exactly when some cell count is 0. Otherwise it returns a fresh table of c0*c1*c2 rows of 8 columns, and row n is `CellRow(n)` |
| Cells.FillRow | refine.py:46-53 | The eight column assignments, in the source's order, write the stored indices of one cell into its row and change no other row |
| Cells.CellRow | refine.py:42-53 | A row has 8 entries, each a valid `u4` value |
| Cells.CellAt | refine.py:41-46 | Product order: cell (x, y, z) is row x*c1*c2 + y*c2 + z, and its column 0 is node x*(c1+1)*(c2+1) + y*(c2+1) + z |
| Cells.HexTop | refine.py:46-53 | Columns 4-7 are columns 0-3 moved one node along axis 2 |
| Cells.HexStrides | refine.py:46-49 | The bottom face steps by one node stride: columns 0 to 1 and 3 to 2 along axis 1, columns 0 to 3 and 1 to 2 along axis 0 |
| Cells.HexVertex | refine.py:46-53 | Column v is the node index of the cell's v-th corner (reference geometry `Corner`) |
| Cells.HexDistinct | refine.py:46-53 | The eight columns of a row are pairwise different |
| Cells.HexCorners | refine.py:46-53 | A node is in the row exactly when each of its coordinates is the cell's own or the next one |
| Cells.CellsDistinct | refine.py:41-46 | Different cells have different column-0 nodes |
| Cells.NodeIndex | refine.py:40-46 | `ravel_multi_index` on the node lattice `(c0+1, c1+1, c2+1)` lands inside the lattice |
| Cells.U4 | refine.py:43 | A `u4` element holds its value modulo 2^32; values below 2^32 are kept |
| Cells.StoredExact | refine.py:43 | On a lattice with at most 2^32 nodes the stored table holds the exact node indices |
| Cells.Hex | refine.py:46-53 | The eight `ravel_multi_index` values of one cell, in column order; there are 8 and each is a node of the lattice |
| Cells.Stored | refine.py:43 | Storing a row in the `u4` table keeps its length and reduces each entry modulo 2^32 |
| Mesh.RefineMesh | refine.py:65-80 | The script from the records read to the records written: returns `Output` of its inputs, errors included |
| Mesh.Output | refine.py:65-80 | The records the script writes, or the exception that stops it: HeaderLength, then ReshapeSize, then NegativeDimension, then NoCells, in the order the script meets them |
| Mesh.GridShape | refine.py:67 | The node grid shape `(jmax, imax, kmax, 3)` built from the extents unpacked at line 66 |
| Mesh.RefinedShape | refine.py:71-73 | The grid shape after refining axes 0, 1 and 2 (`RefinedShapeIs` gives it explicitly) |
| Mesh.RecordSizes | refine.py:78-80 | The written counts match the written records: the node record has 3 values per counted node and the connectivity record 8 indices per counted cell |
| Mesh.WriteCells | refine.py:80 | `cells.flatten() + 1`: the table row by row, each entry 1-based in `u4` |
| Mesh.RefinedGrid | refine.py:71-73 | Refining axes 0, 1 and 2 in turn gives an array with as many samples as the refined shape |
| Mesh.RefinedShapeIs | refine.py:71-73 | Grid `(J, I, K, 3)` becomes `(2J-1, 2I-1, 2K-1, 3)` |
| Mesh.EvenCorners | refine.py:71-73 | The refined grid's sample at (2a, 2b, 2c, d) is the input's sample at (a, b, c, d) |
| Mesh.HeaderFields | refine.py:66-78 | The written header is `[(2J-1)(2I-1)(2K-1), 8(J-1)(I-1)(K-1), 2J-1, 2I-1, 2K-1, 0]`, with J = header[3] and I = header[2]. The second field holds when the cell counts do not wrap |
| Mesh.NodeTotal | refine.py:78 | `nodes.size // 3` of the refined grid is (2J-1)(2I-1)(2K-1), and its first three extents are 2J-1, 2I-1, 2K-1 |
| Mesh.CellTotal | refine.py:74-78 | `cells.size // 8` is 8(J-1)(I-1)(K-1) when the counts 2(J-1), 2(I-1), 2(K-1) fit in `u4` |
| Mesh.CellCount | refine.py:74 | `2*(n-1)` in `u4` is the exact count when it is below 2^32 |
| Mesh.OutputHeader | refine.py:78 | The written header has six fields |
| Mesh.WrittenHeader | refine.py:78 | The header written for a readable header has six fields |
| Mesh.ZeroBased | refine.py:68 | The 0-based conversion on read stays a `u4` value |
| Mesh.OneBased | refine.py:80 | The 1-based conversion on write stays a `u4` value |
| Mesh.BaseRoundTrip | refine.py:68-80 | Converting to 0-based and back, or to 1-based and back, is the identity on `u4` values |
| Mesh.WrittenCells | refine.py:80 | The written connectivity record has 8 entries per cell |
| Mesh.CellsNameNodes | refine.py:74-80 | While the refined node count fits in `u4`, every written cell index lies between 1 and the written node count |
| Mesh.SingleNodeAxis | refine.py:74 | Readable records with one node along some axis make the script stop with NoCells |
| Mesh.RegularMesh | refine.py:65-80 | Readable records with at least two nodes per axis, and counts that do not wrap, are refined and written |

## Left out

- Reading and writing Fortran records (lines 65, 77-79): the records are the parameters and result of `RefineMesh`. The record framing is not modelled.
- The argument check and `sys.exit` of lines 58-62: they write to the console and end the process.
- Single-precision floating point (`f4`): samples are `real`, midpoints are exact.
- numpy mechanics: views, dtypes and broadcasting. An array is its flat row-major content and its shape, and `flatten()` of a C-ordered array is that content.
- The locals `plus` and `minus` of `unstagger` (lines 16-22): they are never used.
- The connectivity read at line 68: the program discards it. Only the failure of `reshape(-1, 8)` on a record whose length is not a multiple of 8 is kept. The `- 1` on read is `Mesh.ZeroBased`.
- The header fields `npts` and `nelems` that are read: they are never used.
- Refine.SliceOf: covers positive steps with an explicit start, which is every slice the program builds. Negative steps and a `None` start are not modelled.
- Cells.StructuredCells: takes exactly three counts. For any other number of counts, line 44 raises, and the program never does that.
- Mesh.CellCount: follows the scalar arithmetic of NumPy 2 and later, where `2*(jmax-1)` on the `u4` value unpacked at line 66 stays `u4` and wraps modulo 2^32. Under NumPy 1.x the scalar promotes to a 64-bit integer and the count is exact, so a count of 2^32 would not stop the script with NoCells. Every lemma about the counts assumes they do not wrap, where both versions agree.
- Mesh.WrittenHeader: the header values are unbounded naturals. Their conversion to `u4` at line 78 is not modelled, because numpy raises or wraps on values of 2^32 or more depending on its version.
- Mesh.RefineMesh: the node grid is a flat array with its shape, and the three record contents are sequences.
